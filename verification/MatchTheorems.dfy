/**
 What the invariant of the matchmaking store means to its users.  Every statement is about the
 snapshot after an arbitrary run of admissible operations on an empty store.
 */
module MatchTheorems {
  import opened Outcomes
  import opened MatchData
  import opened MatchInvariant

  lemma Reached(ops: seq<Op>, bot: Address) returns (d: Data)
    requires AdmissibleRun(EMPTY, ops, bot)
    ensures d == Run(EMPTY, ops, bot) && Inv(d, bot)
  {
    d := Run(EMPTY, ops, bot);
    EveryRunKeeps(EMPTY, ops, bot);
  }

  /** One lease covers everything: the bot is free when there is none, and whatever it is bound to
      otherwise is the one match the lease names and the one game of that match. */
  lemma BotIsCommittedOnce(ops: seq<Op>, bot: Address)
    requires AdmissibleRun(EMPTY, ops, bot)
    ensures var d := Run(EMPTY, ops, bot);
      && (d.lease.None? ==> (forall id :: !BoundTo(d, id, bot)) && (forall g :: !PlaysIn(d, g, bot)))
      && (forall id :: BoundTo(d, id, bot) ==> d.lease.Some? && d.lease.value.matchId == id)
      && (forall g :: PlaysIn(d, g, bot) ==> d.lease.Some? && d.games[g].matchId == Some(d.lease.value.matchId))
      && (forall g, h :: PlaysIn(d, g, bot) && PlaysIn(d, h, bot) ==> g == h)
      && (forall g, id :: PlaysIn(d, g, bot) && BoundTo(d, id, bot) ==> d.matches[id].gameId == Some(g))
  {
    var d := Reached(ops, bot);
    forall g | PlaysIn(d, g, bot) ensures LeaseCovers(d, g) {}
    forall g ensures d.lease.None? ==> !PlaysIn(d, g, bot) {}
  }

  /** The public queue is exactly the set of public waiting matches, and never holds two of them. */
  lemma QueueIsTheWaitingSet(ops: seq<Op>, bot: Address)
    requires AdmissibleRun(EMPTY, ops, bot)
    ensures var d := Run(EMPTY, ops, bot);
      && (set id | id in d.queue) == (set id | id in d.matches && IsPublicWaiting(d.matches[id]))
      && (forall i, j :: 0 <= i < j < |d.queue| ==> d.queue[i] != d.queue[j])
      && |d.queue| <= 1
  {
    var d := Reached(ops, bot);
  }

  predicate Complementary(a: Option<Role>, b: Option<Role>) {
    (a == Some(Creator) && b == Some(Joiner)) || (a == Some(Joiner) && b == Some(Creator))
  }

  /** A paired match seats two different wallets on opposite sides, one as creator and one as joiner; two people
      who met in public play for the lower of their two limits, and friends for the stake of their room. */
  lemma PairsAreFair(ops: seq<Op>, id: MatchId, bot: Address)
    requires AdmissibleRun(EMPTY, ops, bot)
    requires id in Run(EMPTY, ops, bot).matches
    ensures var m := Run(EMPTY, ops, bot).matches[id];
      && (m.status.Waiting? ==> |m.players| == 1 && AssignedRole(m, 0).None?)
      && (m.status.Matched? ==>
            && |m.players| == 2
            && m.players[0].wallet.address != m.players[1].wallet.address
            && AssignedSide(m, 0) != AssignedSide(m, 1)
            && Complementary(AssignedRole(m, 0), AssignedRole(m, 1))
            && m.creatorIndex.Some? && m.creatorSide == Some(AssignedSide(m, m.creatorIndex.value))
            && m.stakeKas.Some?)
      && (m.stakeKas.Some? ==> forall i :: 0 <= i < |m.players| ==>
            m.players[i].limitKas.Some? && m.stakeKas.value <= m.players[i].limitKas.value)
      && (m.status.Matched? && m.botAddress.None? && !m.isPrivate ==>
            m.stakeKas == m.players[0].limitKas || m.stakeKas == m.players[1].limitKas)
      && (m.isPrivate ==> forall i :: 0 <= i < |m.players| ==> m.stakeKas == m.players[i].limitKas)
  {
    var d := Reached(ops, bot);
    FairMatch(d.matches[id], bot);
  }

  lemma FairMatch(m: Match, bot: Address)
    requires SeatsOk(m, bot)
    ensures m.status.Matched? ==>
      && AssignedSide(m, 0) != AssignedSide(m, 1)
      && Complementary(AssignedRole(m, 0), AssignedRole(m, 1))
      && m.creatorSide == Some(AssignedSide(m, m.creatorIndex.value))
    ensures m.stakeKas.Some? ==> forall i :: 0 <= i < |m.players| ==>
      m.players[i].limitKas.Some? && m.stakeKas.value <= m.players[i].limitKas.value
    ensures m.isPrivate ==> forall i :: 0 <= i < |m.players| ==> m.stakeKas == m.players[i].limitKas
  {
    forall i | 0 <= i < |m.players| ensures SeatLimitOk(m, m.players[i]) {}
    if m.status.Matched? {
      match m.creatorSide.value {
        case Even => assert AssignedSide(m, m.creatorIndex.value).Even?;
        case Odd => assert AssignedSide(m, m.creatorIndex.value).Odd?;
      }
    }
    forall i | 0 <= i < |m.players| && m.stakeKas.Some?
      ensures m.players[i].limitKas.Some? && m.stakeKas.value <= m.players[i].limitKas.value
    {
      assert SeatLimitOk(m, m.players[i]);
    }
  }

  /** The human of a bot match is always the creator, and the stake is the minimum. */
  lemma BotAlwaysJoinsForTheMinimum(ops: seq<Op>, id: MatchId, bot: Address)
    requires AdmissibleRun(EMPTY, ops, bot)
    requires id in Run(EMPTY, ops, bot).matches && Run(EMPTY, ops, bot).matches[id].status.Matched?
    requires Seated(Run(EMPTY, ops, bot).matches[id], bot)
    ensures var m := Run(EMPTY, ops, bot).matches[id];
      !m.isPrivate && AssignedRole(m, 1) == Some(Joiner) && |m.players| == 2 && m.players[1].wallet.address == bot
          && m.stakeKas == Some(MIN_STAKE_KAS)
  {
    var d := Reached(ops, bot);
    assert SeatsOk(d.matches[id], bot);
  }

  /** A code leads to at most one room, so the lookup has one answer whatever order rooms are scanned in,
      and joining by code is joining that room by its identifier. */
  lemma CodeIsAnAlias(ops: seq<Op>, code: string, found: Option<MatchId>, other: Option<MatchId>, wallet: Wallet,
                      now: Millis, bot: Address)
    requires AdmissibleRun(EMPTY, ops, bot) && code != ""
    requires Resolves(Sweep(Run(EMPTY, ops, bot), now), code, found)
    ensures Resolves(Sweep(Run(EMPTY, ops, bot), now), code, other) ==> found == other
    ensures forall id :: IsOpenRoom(Sweep(Run(EMPTY, ops, bot), now), id)
                         && Sweep(Run(EMPTY, ops, bot), now).matches[id].code == Some(code) ==>
              JoinByCode(Run(EMPTY, ops, bot), found, wallet, now) == JoinPrivate(Run(EMPTY, ops, bot), id, wallet, now)
  {
    var d := Reached(ops, bot);
    SweepKeeps(d, now, bot);
    assert CodesOk(Sweep(d, now));
  }

  /** A seated wallet that comes back changes nothing; a third wallet never gets in and changes nothing. */
  lemma RoomAdmitsTwo(ops: seq<Op>, id: MatchId, wallet: Wallet, now: Millis, bot: Address)
    requires AdmissibleRun(EMPTY, ops, bot)
    requires IsOpenRoom(Sweep(Run(EMPTY, ops, bot), now), id)
    ensures var d := Run(EMPTY, ops, bot);
      var swept := Sweep(d, now);
      && (Seated(swept.matches[id], wallet.address) ==> JoinPrivate(d, id, wallet, now) == Ok(swept))
      && (!Seated(swept.matches[id], wallet.address) && swept.matches[id].status.Matched? ==>
            JoinPrivate(d, id, wallet, now) == Err(MatchFull)
            && OrUnchanged(JoinPrivate(d, id, wallet, now), d) == d)
      && (!Seated(swept.matches[id], wallet.address) && swept.matches[id].status.Waiting? ==>
            JoinPrivate(d, id, wallet, now).Ok?
            && Seated(JoinPrivate(d, id, wallet, now).value.matches[id], wallet.address)
            && JoinPrivate(d, id, wallet, now).value.matches[id].status.Matched?)
  {
    var d := Reached(ops, bot);
    SweepKeeps(d, now, bot);
    EnterRoomCases(Sweep(d, now), id, wallet, now, bot);
  }

  lemma EnterRoomCases(d: Data, id: MatchId, wallet: Wallet, now: Millis, bot: Address)
    requires IsOpenRoom(d, id) && SeatsOk(d.matches[id], bot)
    ensures Seated(d.matches[id], wallet.address) ==> EnterRoom(d, id, wallet, now) == Ok(d)
    ensures !Seated(d.matches[id], wallet.address) && d.matches[id].status.Matched?
        ==> EnterRoom(d, id, wallet, now) == Err(MatchFull)
    ensures !Seated(d.matches[id], wallet.address) && d.matches[id].status.Waiting? ==>
      && EnterRoom(d, id, wallet, now).Ok?
      && Seated(EnterRoom(d, id, wallet, now).value.matches[id], wallet.address)
      && EnterRoom(d, id, wallet, now).value.matches[id].status.Matched?
  {
    if Seated(d.matches[id], wallet.address) {
      assert d.matches[id := d.matches[id]] == d.matches;
    } else if d.matches[id].status.Waiting? {
      var m := EnterRoom(d, id, wallet, now).value.matches[id];
      assert m.players[1].wallet.address == wallet.address;
    }
  }

  // --- One live session per wallet -----------------------------------------

  ghost predicate OneSession(d: Data, address: Address) {
    forall a, b :: LiveFor(d, a, address) && LiveFor(d, b, address) ==> a == b
  }

  ghost predicate LiveFor(d: Data, id: MatchId, address: Address) {
    id in d.matches && IsLive(d.matches[id]) && Seated(d.matches[id], address)
  }

  /** Joining the queue or opening a room retires every other session of the wallet. */
  lemma OpeningRetiresOthers(d: Data, op: Op, bot: Address)
    requires Inv(d, bot) && Admissible(d, op, bot) && (op.OpJoin? || op.OpCreateRoom?)
    requires op.OpCreateRoom? ==> CreatePrivate(d, op.id, op.wallet, op.stakeKas, op.code, op.side, op.now).Ok?
    ensures OneSession(Apply(d, op, bot), op.wallet.address)
    ensures exists id :: LiveFor(Apply(d, op, bot), id, op.wallet.address)
  {
    var ready := CancelFor(Sweep(d, op.now), op.wallet.address);
    ReadyFor(d, op.id, op.wallet.address, op.now, bot);
    var r := Apply(d, op, bot);
    var target := if op.OpCreateRoom? || FirstWaiting(ready.queue, ready.matches).None? then op.id
                  else FirstWaiting(ready.queue, ready.matches).value;
    var players := r.matches[target].players;
    assert players[|players| - 1].wallet == op.wallet;
    OnlySession(ready, r, target, op.wallet.address);
  }

  /** A wallet with no live session that is seated in one match. */
  lemma OnlySession(d: Data, r: Data, target: MatchId, address: Address)
    requires forall k :: !LiveFor(d, k, address)
    requires target in r.matches && r.matches == d.matches[target := r.matches[target]] && LiveFor(r, target, address)
    ensures OneSession(r, address) && exists id :: LiveFor(r, id, address)
  {
    forall a ensures LiveFor(r, a, address) ==> a == target {
      assert a != target ==> !LiveFor(d, a, address);
    }
  }

  /** Entering a private room does not: it leaves the wallet with one live session exactly when the
      wallet had none elsewhere. */
  lemma EnteringARoomKeepsOthers(d: Data, id: MatchId, wallet: Wallet, now: Millis)
    requires JoinPrivate(d, id, wallet, now).Ok?
    ensures OneSession(JoinPrivate(d, id, wallet, now).value, wallet.address)
       <==> (forall k :: LiveFor(Sweep(d, now), k, wallet.address) ==> k == id)
  {
    var swept := Sweep(d, now);
    var r := JoinPrivate(d, id, wallet, now).value;
    var players := r.matches[id].players;
    if !Seated(swept.matches[id], wallet.address) {
      assert players[|players| - 1].wallet == wallet;
    }
    assert LiveFor(r, id, wallet.address);
    forall k | k != id ensures LiveFor(r, k, wallet.address) <==> LiveFor(swept, k, wallet.address) {}
  }

  lemma NothingToRetire(d: Data, ids: set<MatchId>)
    requires ids !! d.matches.Keys
    requires |d.queue| <= 1 && forall id :: id in d.queue ==> id in d.matches && IsPublicWaiting(d.matches[id])
    ensures Retire(d, ids).(lease := d.lease) == d
  {
    assert CancelAll(d.matches, ids) == d.matches;
    if d.queue != [] {
      assert d.queue[0] in d.queue;
      assert PruneQueue(d.queue[1..], d.matches) == [];
      assert PruneQueue(d.queue, d.matches) == [d.queue[0]] + [];
    }
  }

  const HOST := Wallet("host", "h")
  const ALICE := Wallet("alice", "a")
  const ROOM := Match(Waiting, true, Some("K7PQ2M"), Some(2.0), [SeatFor(HOST, Some(2.0), 0)], None, Some(Even), 0,
      None, None, None)
  const OPEN := Match(Waiting, false, None, None, [SeatFor(ALICE, Some(1.0), 0)], None, None, 0, None, None, None)

  const TWO := Data(map["room" := ROOM, "open" := OPEN], ["open"], map[], None)

  lemma NamesDiffer()
    ensures "room" != "open" && ALICE.address != HOST.address
  {
    assert "room"[0] != "open"[0] && "alice"[0] != "host"[0];
  }

  lemma AllHuman(seat: Seat)
    ensures Humans([seat], None) == [seat] && Earliest([seat]) == seat.lastSeenAt
  {
    assert [seat][1..] == [];
    assert [seat] + Humans([], None) == [seat];
  }

  lemma NobodyIdle()
    ensures Sweep(TWO, 0) == TWO
  {
    NamesDiffer();
    AllHuman(SeatFor(HOST, Some(2.0), 0));
    AllHuman(SeatFor(ALICE, Some(1.0), 0));
    assert !IsIdle(ROOM, 0) && !IsIdle(OPEN, 0);
    assert IdleIds(TWO, 0) == {};
    NothingToRetire(TWO, IdleIds(TWO, 0));
  }

  lemma AliceWaits()
    ensures LiveFor(TWO, "open", ALICE.address) && !Seated(ROOM, ALICE.address)
    ensures OneSession(TWO, ALICE.address)
  {
    NamesDiffer();
    assert OPEN.players[0].wallet.address == ALICE.address;
  }

  /** A wallet that waits in public and then enters a friend's room ends up with two live sessions. */
  lemma TwoSessionsExist(d: Data)
    requires d == TWO
    ensures OneSession(d, ALICE.address)
    ensures JoinPrivate(d, "room", ALICE, 0).Ok? && !OneSession(JoinPrivate(d, "room", ALICE, 0).value, ALICE.address)
  {
    NamesDiffer();
    NobodyIdle();
    AliceWaits();
    assert IsOpenRoom(TWO, "room");
    EnteringARoomKeepsOthers(TWO, "room", ALICE, 0);
  }
}
