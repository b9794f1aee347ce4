/**
 What every reachable snapshot of the matchmaking store satisfies, whatever mix of operations led to
 it: how seats are filled, what the public queue holds, that room codes are unique while rooms are
 live, and that the single bot lease covers everything the bot is committed to.
 */
module MatchInvariant {
  import opened Outcomes
  import opened MatchData

  // --- The invariant -------------------------------------------------------

  ghost predicate DistinctWallets(players: seq<Seat>) {
    forall i, j :: 0 <= i < j < |players| ==> players[i].wallet.address != players[j].wallet.address
  }

  ghost predicate SeatsOk(m: Match, bot: Address) {
    && DistinctWallets(m.players)
    && (forall i :: 0 <= i < |m.players| ==> SeatLimitOk(m, m.players[i]))
    && (Seated(m, bot) ==> m.botAddress == Some(bot))
    && (m.botAddress.Some? ==> m.botAddress == Some(bot) && !m.isPrivate && !m.status.Waiting?)
    && (m.isPrivate ==> m.stakeKas.Some? && m.creatorSide.Some?)
    && (IsLive(m) ==> m.gameId.None?)
    && (m.status.Waiting? ==> |m.players| == 1)
    && (m.status.Matched? ==> PairedOk(m))
  }

  ghost predicate SeatLimitOk(m: Match, seat: Seat) {
    && seat.limitKas.Some?
    && (!m.isPrivate ==> seat.limitKas.value >= MIN_STAKE_KAS)
    && (m.isPrivate ==> m.stakeKas == seat.limitKas)
    && (m.stakeKas.Some? ==> m.stakeKas.value <= seat.limitKas.value)
  }

  ghost predicate PairedOk(m: Match) {
    && |m.players| == 2 && m.stakeKas.Some? && m.creatorSide.Some?
    && m.creatorIndex.Some? && m.creatorIndex.value < 2
    && (m.botAddress.Some? ==> m.creatorIndex == Some(0) && m.players[1].wallet.address == m.botAddress.value
                               && m.stakeKas == Some(MIN_STAKE_KAS) && m.botClaimedAt.Some?)
    && (m.botAddress.None? && !m.isPrivate ==>
          m.stakeKas == m.players[0].limitKas || m.stakeKas == m.players[1].limitKas)
    && (m.isPrivate ==> m.creatorIndex == Some(0))
  }

  ghost predicate QueueOk(d: Data) {
    && |d.queue| <= 1
    && (forall id :: id in d.queue <==> id in d.matches && IsPublicWaiting(d.matches[id]))
  }

  predicate NoCode(m: Match) {
    m.code.None? || m.code.value == ""
  }

  ghost predicate CodesOk(d: Data) {
    forall a, b | IsOpenRoom(d, a) && IsOpenRoom(d, b) :: d.matches[a].code == d.matches[b].code
        ==> NoCode(d.matches[a]) || a == b
  }

  /** The bot is bound to match `id`: it holds a seat in it that is matched or started. */
  ghost predicate BoundTo(d: Data, id: MatchId, bot: Address) {
    && id in d.matches && d.matches[id].botAddress == Some(bot)
    && (d.matches[id].status.Matched? || d.matches[id].status.Started?)
  }

  ghost predicate PlaysIn(d: Data, g: GameId, bot: Address) {
    g in d.games && d.games[g].joiner == Some(bot) && d.games[g].completedAt.None?
  }

  ghost predicate LeaseOk(d: Data, bot: Address) {
    && (d.lease.Some? ==> d.lease.value.botAddress == bot)
    && (forall id :: BoundTo(d, id, bot) ==> d.lease.Some? && d.lease.value.matchId == id)
    && (forall g :: PlaysIn(d, g, bot) ==> LeaseCovers(d, g))
    && (forall g, h :: PlaysIn(d, g, bot) && PlaysIn(d, h, bot) ==> g == h)
  }

  /** The lease names the match of game `g`, and that match, while it exists, points back at `g`. */
  ghost predicate LeaseCovers(d: Data, g: GameId)
    requires g in d.games
  {
    && d.lease.Some? && d.games[g].matchId == Some(d.lease.value.matchId)
    && (d.lease.value.matchId in d.matches ==>
          d.matches[d.lease.value.matchId].status.Started? && d.matches[d.lease.value.matchId].gameId == Some(g))
  }

  ghost predicate PointsBack(d: Data, id: MatchId)
    requires id in d.matches
  {
    && d.matches[id].gameId.Some? && d.matches[id].gameId.value in d.games
    && d.games[d.matches[id].gameId.value].matchId == Some(id)
  }

  ghost predicate GamesOk(d: Data) {
    && (forall id :: id in d.matches && d.matches[id].status.Started? ==> PointsBack(d, id))
    && (forall g :: g in d.games && d.games[g].completedAt.Some? && d.games[g].matchId.Some? ==>
          d.games[g].matchId.value !in d.matches)
  }

  ghost predicate Inv(d: Data, bot: Address) {
    && (forall id :: id in d.matches ==> SeatsOk(d.matches[id], bot))
    && QueueOk(d)
    && CodesOk(d)
    && LeaseOk(d, bot)
    && GamesOk(d)
  }

  // --- Helpers about the sequences -----------------------------------------

  lemma {:induction false} PruneQueueKeeps(queue: seq<MatchId>, matches: map<MatchId, Match>)
    ensures |PruneQueue(queue, matches)| <= |queue|
    ensures forall id :: id in PruneQueue(queue, matches) <==> id in queue && id in matches
                                                               && IsPublicWaiting(matches[id])
  {
    if queue != [] {
      PruneQueueKeeps(queue[1..], matches);
    }
  }

  lemma {:induction false} WithoutKeeps(queue: seq<MatchId>, gone: MatchId)
    ensures |Without(queue, gone)| <= |queue|
    ensures forall id :: id in Without(queue, gone) <==> id in queue && id != gone
  {
    if queue != [] {
      WithoutKeeps(queue[1..], gone);
    }
  }

  /** Where a seat that stays came from; seats keep their order. */
  lemma {:induction false} KeptSeat(players: seq<Seat>, address: Address, i: nat) returns (j: nat)
    requires i < |DropSeats(players, address)|
    ensures i <= j < |players| && players[j] == DropSeats(players, address)[i]
    ensures players[j].wallet.address != address
  {
    if players[0].wallet.address == address {
      j := KeptSeat(players[1..], address, i);
      j := j + 1;
    } else if i == 0 {
      j := 0;
    } else {
      j := KeptSeat(players[1..], address, i - 1);
      j := j + 1;
    }
  }

  lemma {:induction false} DropSeatsKeeps(players: seq<Seat>, address: Address)
    requires DistinctWallets(players)
    ensures DistinctWallets(DropSeats(players, address))
  {
    if players != [] {
      var rest := DropSeats(players[1..], address);
      assert DistinctWallets(rest) by { DropSeatsKeeps(players[1..], address); }
      forall i | 0 <= i < |rest| ensures rest[i].wallet.address != players[0].wallet.address {
        var j := KeptSeat(players[1..], address, i);
      }
    }
  }

  // --- Each operation keeps the invariant ----------------------------------

  ghost predicate LiveIds(d: Data, ids: set<MatchId>) {
    forall id :: id in ids ==> id in d.matches && IsLive(d.matches[id])
  }

  lemma RetireKeepsSeats(d: Data, ids: set<MatchId>, bot: Address)
    requires Inv(d, bot) && LiveIds(d, ids)
    ensures forall id :: id in Retire(d, ids).matches ==> SeatsOk(Retire(d, ids).matches[id], bot)
  {
    var r := Retire(d, ids);
    forall id | id in r.matches ensures SeatsOk(r.matches[id], bot) {
      var m := d.matches[id];
      assert SeatsOk(m, bot);
      assert Seated(r.matches[id], bot) == Seated(m, bot);
      assert forall i :: 0 <= i < |m.players| ==> SeatLimitOk(m, m.players[i])
                                                  ==> SeatLimitOk(r.matches[id], m.players[i]);
    }
  }

  lemma RetireKeepsLease(d: Data, ids: set<MatchId>, bot: Address)
    requires Inv(d, bot) && LiveIds(d, ids)
    ensures LeaseOk(Retire(d, ids), bot)
  {
    var r := Retire(d, ids);
    forall id | BoundTo(r, id, bot) ensures r.lease.Some? && r.lease.value.matchId == id {
      assert BoundTo(d, id, bot);
    }
    forall g | PlaysIn(r, g, bot) ensures LeaseCovers(r, g) {
      assert PlaysIn(d, g, bot);
    }
    assert forall g :: PlaysIn(r, g, bot) ==> PlaysIn(d, g, bot);
  }

  lemma RetireKeepsQueue(d: Data, ids: set<MatchId>)
    requires QueueOk(d) && LiveIds(d, ids)
    ensures QueueOk(Retire(d, ids))
  {
    PruneQueueKeeps(d.queue, CancelAll(d.matches, ids));
  }

  /** Rooms only ever close, or keep their code. */
  lemma CodesKeep(d: Data, r: Data)
    requires CodesOk(d)
    requires forall id :: IsOpenRoom(r, id) ==> IsOpenRoom(d, id) && r.matches[id].code == d.matches[id].code
    ensures CodesOk(r)
  {
    forall a, b | IsOpenRoom(r, a) && IsOpenRoom(r, b) && r.matches[a].code == r.matches[b].code
        && !NoCode(r.matches[a])
      ensures a == b
    {
      assert IsOpenRoom(d, a) && IsOpenRoom(d, b);
    }
  }

  /** Started matches stay as they are; games are untouched. */
  lemma GamesKeep(d: Data, r: Data)
    requires GamesOk(d) && r.games == d.games
    requires forall id :: id in r.matches && r.matches[id].status.Started? ==>
               id in d.matches && d.matches[id].status.Started? && r.matches[id].gameId == d.matches[id].gameId
    requires r.matches.Keys <= d.matches.Keys
    ensures GamesOk(r)
  {
    forall id | id in r.matches && r.matches[id].status.Started? ensures PointsBack(r, id) {
      assert PointsBack(d, id);
    }
  }

  lemma RetireKeeps(d: Data, ids: set<MatchId>, bot: Address)
    requires Inv(d, bot) && LiveIds(d, ids)
    ensures Inv(Retire(d, ids), bot)
  {
    var r := Retire(d, ids);
    RetireKeepsSeats(d, ids, bot);
    RetireKeepsLease(d, ids, bot);
    RetireKeepsQueue(d, ids);
    CodesKeep(d, r);
    GamesKeep(d, r);
  }

  lemma SweepKeeps(d: Data, now: Millis, bot: Address)
    requires Inv(d, bot)
    ensures Inv(Sweep(d, now), bot)
  {
    RetireKeeps(d, IdleIds(d, now), bot);
  }

  lemma CancelForKeeps(d: Data, address: Address, bot: Address)
    requires Inv(d, bot)
    ensures Inv(CancelFor(d, address), bot)
  {
    RetireKeeps(d, LiveIdsOf(d, address), bot);
  }

  // Operations that put one match in place and leave lease and games alone.

  ghost predicate Puts(d: Data, r: Data, id: MatchId) {
    id in r.matches && r.matches == d.matches[id := r.matches[id]] && r.games == d.games
  }

  ghost predicate Unnamed(d: Data, id: MatchId) {
    id in d.matches || IsFresh(d, id)
  }

  lemma PutKeepsLease(d: Data, r: Data, id: MatchId, bot: Address)
    requires LeaseOk(d, bot) && Puts(d, r, id) && r.lease == d.lease && Unnamed(d, id)
    requires BoundTo(r, id, bot) ==> BoundTo(d, id, bot)
    requires id in d.matches && d.matches[id].status.Started? ==>
               r.matches[id].status.Started? && r.matches[id].gameId == d.matches[id].gameId
    ensures LeaseOk(r, bot)
  {
    forall k | BoundTo(r, k, bot) ensures r.lease.Some? && r.lease.value.matchId == k {
      assert BoundTo(d, k, bot);
    }
    forall g | PlaysIn(r, g, bot) ensures LeaseCovers(r, g) {
      assert PlaysIn(d, g, bot);
    }
    assert forall g :: PlaysIn(r, g, bot) ==> PlaysIn(d, g, bot);
  }

  lemma PutKeepsGames(d: Data, r: Data, id: MatchId)
    requires GamesOk(d) && Puts(d, r, id) && Unnamed(d, id)
    requires r.matches[id].status.Started? ==> PointsBack(r, id)
    ensures GamesOk(r)
  {
    forall k | k in r.matches && r.matches[k].status.Started? ensures PointsBack(r, k) {
      if k != id { assert PointsBack(d, k); }
    }
  }

  lemma PutKeepsCodes(d: Data, r: Data, id: MatchId)
    requires CodesOk(d) && Puts(d, r, id)
    requires IsOpenRoom(r, id) ==>
               (IsOpenRoom(d, id) && r.matches[id].code == d.matches[id].code)
                   || !CodeInUse(d.matches, r.matches[id].code)
    ensures CodesOk(r)
  {
    forall a, b | IsOpenRoom(r, a) && IsOpenRoom(r, b) && r.matches[a].code == r.matches[b].code
        && !NoCode(r.matches[a])
      ensures a == b
    {
      if a != b && a != id { assert IsOpenRoom(d, a); }
      if a != b && b != id { assert IsOpenRoom(d, b); }
    }
  }

  lemma FreshAfterRetire(d: Data, ids: set<MatchId>, id: MatchId)
    requires IsFresh(d, id)
    ensures IsFresh(Retire(d, ids), id)
  {
  }

  lemma NobodySeated(d: Data, address: Address, id: MatchId)
    ensures id in CancelFor(d, address).matches && IsLive(CancelFor(d, address).matches[id]) ==>
              !Seated(CancelFor(d, address).matches[id], address)
  {
    if id in d.matches && IsLive(CancelFor(d, address).matches[id]) {
      assert id !in LiveIdsOf(d, address);
    }
  }

  lemma PairedKeepsSeats(m: Match, seat: Seat, coin: nat, side: Side, bot: Address)
    requires SeatsOk(m, bot) && IsPublicWaiting(m) && coin < 2
    requires !Seated(m, seat.wallet.address) && seat.wallet.address != bot
    requires seat.limitKas.Some? && seat.limitKas.value >= MIN_STAKE_KAS
    ensures SeatsOk(Paired(m, seat, coin, side), bot)
  {
    var p := Paired(m, seat, coin, side);
    assert p.players[0] == m.players[0] && p.players[1] == seat;
    assert SeatLimitOk(m, m.players[0]);
    assert Seated(p, bot) ==> Seated(m, bot);
  }

  /** A single match changes and nothing else but the queue does. */
  lemma PutKeeps(d: Data, r: Data, id: MatchId, bot: Address)
    requires Inv(d, bot) && Puts(d, r, id) && r.lease == d.lease && Unnamed(d, id)
    requires SeatsOk(r.matches[id], bot)
    requires QueueOk(r)
    requires BoundTo(r, id, bot) ==> BoundTo(d, id, bot)
    requires id in d.matches && d.matches[id].status.Started? ==>
               r.matches[id].status.Started? && r.matches[id].gameId == d.matches[id].gameId
    requires r.matches[id].status.Started? ==> PointsBack(r, id)
    requires IsOpenRoom(r, id) ==>
               (IsOpenRoom(d, id) && r.matches[id].code == d.matches[id].code)
                   || !CodeInUse(d.matches, r.matches[id].code)
    ensures Inv(r, bot)
  {
    PutKeepsLease(d, r, id, bot);
    PutKeepsGames(d, r, id);
    PutKeepsCodes(d, r, id);
  }

  lemma EnterQueueKeeps(d: Data, matchId: MatchId, seat: Seat, coin: nat, side: Side, now: Millis, bot: Address)
    requires Inv(d, bot) && IsFresh(d, matchId) && coin < 2 && seat.wallet.address != bot
    requires forall id :: id in d.matches && IsLive(d.matches[id]) ==> !Seated(d.matches[id], seat.wallet.address)
    requires seat.limitKas.Some? && seat.limitKas.value >= MIN_STAKE_KAS
    ensures Inv(EnterQueue(d, matchId, seat, coin, side, now), bot)
  {
    var r := EnterQueue(d, matchId, seat, coin, side, now);
    match FirstWaiting(d.queue, d.matches)
    case None =>
      var m := r.matches[matchId];
      assert SeatLimitOk(m, m.players[0]);
      assert SeatsOk(m, bot);
      PutKeeps(d, r, matchId, bot);
    case Some(id) =>
      PairedKeepsSeats(d.matches[id], seat, coin, side, bot);
      WithoutKeeps(d.queue, id);
      PutKeeps(d, r, id, bot);
  }

  lemma ReadyFor(d: Data, id: MatchId, address: Address, now: Millis, bot: Address)
    requires Inv(d, bot) && IsFresh(d, id)
    ensures var ready := CancelFor(Sweep(d, now), address);
      && Inv(ready, bot) && IsFresh(ready, id)
      && (forall k :: k in ready.matches && IsLive(ready.matches[k]) ==> !Seated(ready.matches[k], address))
  {
    var swept := Sweep(d, now);
    SweepKeeps(d, now, bot);
    FreshAfterRetire(d, IdleIds(d, now), id);
    CancelForKeeps(swept, address, bot);
    FreshAfterRetire(swept, LiveIdsOf(swept, address), id);
    forall k { NobodySeated(swept, address, k); }
  }

  lemma JoinMatchmakingKeeps(d: Data, op: Op, bot: Address)
    requires Inv(d, bot) && op.OpJoin? && Admissible(d, op, bot)
    ensures Inv(Apply(d, op, bot), bot)
  {
    var OpJoin(matchId, wallet, limitKas, coin, side, now) := op;
    ReadyFor(d, matchId, wallet.address, now, bot);
    EnterQueueKeeps(CancelFor(Sweep(d, now), wallet.address), matchId, SeatFor(wallet, Some(LimitOf(limitKas)), now),
                    coin, side, now, bot);
  }

  lemma OpenRoomKeeps(d: Data, matchId: MatchId, wallet: Wallet, stakeKas: real, code: Option<string>, side: Side,
                      now: Millis, bot: Address)
    requires Inv(d, bot) && IsFresh(d, matchId) && wallet.address != bot && !CodeInUse(d.matches, code)
    ensures Inv(OpenRoom(d, matchId, wallet, stakeKas, code, side, now).value, bot)
  {
    var r := OpenRoom(d, matchId, wallet, stakeKas, code, side, now).value;
    var m := r.matches[matchId];
    assert SeatLimitOk(m, m.players[0]);
    assert SeatsOk(m, bot);
    PutKeeps(d, r, matchId, bot);
  }

  lemma CreateRoomKeeps(d: Data, op: Op, bot: Address)
    requires Inv(d, bot) && op.OpCreateRoom? && Admissible(d, op, bot)
    ensures Inv(Apply(d, op, bot), bot)
  {
    var OpCreateRoom(matchId, wallet, stakeKas, code, side, now) := op;
    ReadyFor(d, matchId, wallet.address, now, bot);
    var ready := CancelFor(Sweep(d, now), wallet.address);
    if !CodeInUse(ready.matches, code) {
      OpenRoomKeeps(ready, matchId, wallet, stakeKas, code, side, now, bot);
    }
  }

  lemma TakeSeatKeepsSeats(m: Match, wallet: Wallet, now: Millis, bot: Address)
    requires SeatsOk(m, bot) && m.isPrivate && TakeSeat(m, wallet, now).Ok? && wallet.address != bot
    ensures SeatsOk(TakeSeat(m, wallet, now).value, bot)
  {
    var t := TakeSeat(m, wallet, now).value;
    if !Seated(m, wallet.address) {
      assert t.players[0] == m.players[0];
      assert SeatLimitOk(m, m.players[0]);
      assert Seated(t, bot) ==> Seated(m, bot);
    }
  }

  lemma EnterRoomKeeps(d: Data, id: MatchId, wallet: Wallet, now: Millis, bot: Address)
    requires Inv(d, bot) && wallet.address != bot && EnterRoom(d, id, wallet, now).Ok?
    ensures Inv(EnterRoom(d, id, wallet, now).value, bot)
  {
    TakeSeatKeepsSeats(d.matches[id], wallet, now, bot);
    PutKeeps(d, EnterRoom(d, id, wallet, now).value, id, bot);
  }

  lemma JoinPrivateKeeps(d: Data, id: MatchId, wallet: Wallet, now: Millis, bot: Address)
    requires Inv(d, bot) && wallet.address != bot
    ensures Inv(OrUnchanged(JoinPrivate(d, id, wallet, now), d), bot)
  {
    SweepKeeps(d, now, bot);
    if JoinPrivate(d, id, wallet, now).Ok? {
      EnterRoomKeeps(Sweep(d, now), id, wallet, now, bot);
    }
  }

  lemma ClaimedKeepsSeats(m: Match, botWallet: Wallet, side: Side, now: Millis)
    requires SeatsOk(m, botWallet.address) && IsPublicWaiting(m)
    ensures SeatsOk(Claimed(m, botWallet, side, now), botWallet.address)
  {
    var c := Claimed(m, botWallet, side, now);
    assert c.players[0] == m.players[0] && c.players[1] == SeatFor(botWallet, Some(MIN_STAKE_KAS), now);
    assert SeatLimitOk(m, m.players[0]);
    assert m.players[0].wallet.address == botWallet.address ==> Seated(m, botWallet.address);
  }

  lemma SeatBotKeeps(d: Data, id: MatchId, botWallet: Wallet, minWaitMs: Millis, side: Side, now: Millis)
    requires Inv(d, botWallet.address) && SeatBot(d, id, botWallet, minWaitMs, side, now).Ok?
    ensures Inv(SeatBot(d, id, botWallet, minWaitMs, side, now).value, botWallet.address)
  {
    var bot := botWallet.address;
    var r := SeatBot(d, id, botWallet, minWaitMs, side, now).value;
    ClaimedKeepsSeats(d.matches[id], botWallet, side, now);
    WithoutKeeps(d.queue, id);
    PutKeepsGames(d, r, id);
    PutKeepsCodes(d, r, id);
    forall k | BoundTo(r, k, bot) ensures k == id {
      if k != id { assert BoundTo(d, k, bot); }
    }
    assert forall g :: PlaysIn(r, g, bot) ==> PlaysIn(d, g, bot);
    assert LeaseOk(r, bot);
  }

  lemma ClaimKeeps(d: Data, op: Op, bot: Address)
    requires Inv(d, bot) && op.OpClaim? && Admissible(d, op, bot)
    ensures Inv(Apply(d, op, bot), bot)
  {
    var OpClaim(id, botWallet, minWaitMs, side, now) := op;
    SweepKeeps(d, now, bot);
    if ClaimForBot(d, id, botWallet, minWaitMs, side, now).Ok? {
      SeatBotKeeps(Sweep(d, now), id, botWallet, minWaitMs, side, now);
    }
  }

  /** Releasing the lease of a match that no longer binds the bot. */
  lemma ReleaseKeepsLease(d: Data, id: MatchId, bot: Address)
    requires LeaseOk(d, bot) && !BoundTo(d, id, bot)
    ensures LeaseOk(d.(lease := LeaseAfter(d.lease, {id}, d.games)), bot)
  {
    var r := d.(lease := LeaseAfter(d.lease, {id}, d.games));
    if r != d {
      forall g ensures !PlaysIn(r, g, bot) {}
      forall k ensures !BoundTo(r, k, bot) {
        assert BoundTo(r, k, bot) == BoundTo(d, k, bot);
      }
    }
  }

  lemma ReleaseKeeps(d: Data, id: MatchId, bot: Address)
    requires Inv(d, bot) && !BoundTo(d, id, bot)
    ensures Inv(d.(lease := LeaseAfter(d.lease, {id}, d.games)), bot)
  {
    var r := d.(lease := LeaseAfter(d.lease, {id}, d.games));
    ReleaseKeepsLease(d, id, bot);
    CodesKeep(d, r);
    GamesKeep(d, r);
  }

  lemma ReleaseLeaseKeeps(d: Data, op: Op, bot: Address)
    requires Inv(d, bot) && op.OpReleaseLease? && Admissible(d, op, bot)
    ensures Inv(Apply(d, op, bot), bot)
  {
    if d.lease.Some? && d.lease.value.matchId == op.release.value {
      ReleaseKeeps(d, op.release.value, bot);
    }
  }

  lemma TouchKeeps(d: Data, op: Op, bot: Address)
    requires Inv(d, bot) && op.OpTouch?
    ensures Inv(Apply(d, op, bot), bot)
  {
    var OpTouch(id, address, now) := op;
    if id in d.matches {
      var r := Apply(d, op, bot);
      TouchedSeatsOk(d.matches[id], address, now, bot);
      PointsBackAgain(d, r, id);
      PutKeeps(d, r, id, bot);
    }
  }

  lemma PointsBackAgain(d: Data, r: Data, id: MatchId)
    requires GamesOk(d) && id in d.matches && id in r.matches && r.games == d.games
    requires r.matches[id].status.Started? ==> d.matches[id].status.Started?
                                               && r.matches[id].gameId == d.matches[id].gameId
    ensures r.matches[id].status.Started? ==> PointsBack(r, id)
  {
    assert d.matches[id].status.Started? ==> PointsBack(d, id);
  }

  lemma TouchedSeatsOk(m: Match, address: Address, now: Millis, bot: Address)
    requires SeatsOk(m, bot)
    ensures SeatsOk(m.(players := TouchFirst(m.players, address, now)), bot)
  {
    var t := m.(players := TouchFirst(m.players, address, now));
    forall i | 0 <= i < |t.players| ensures SeatLimitOk(t, t.players[i]) {
      assert SeatLimitOk(m, m.players[i]);
    }
    assert Seated(t, bot) ==> Seated(m, bot);
  }

  lemma DroppedSeatsOk(m: Match, address: Address, status: Status, bot: Address)
    requires SeatsOk(m, bot)
    requires if IsLive(m) then status.Cancelled? else status == m.status
    ensures SeatsOk(m.(players := DropSeats(m.players, address), status := status), bot)
  {
    var r := m.(players := DropSeats(m.players, address), status := status);
    DropSeatsKeeps(m.players, address);
    var kept := DropSeats(m.players, address);
    forall i | 0 <= i < |kept| ensures SeatLimitOk(r, kept[i]) && (kept[i].wallet.address == bot ==> Seated(m, bot)) {
      var j := KeptSeat(m.players, address, i);
      assert SeatLimitOk(m, m.players[j]);
    }
  }

  lemma LeaveKeeps(d: Data, op: Op, bot: Address)
    requires Inv(d, bot) && op.OpLeave?
    ensures Inv(Apply(d, op, bot), bot)
  {
    var OpLeave(id, address) := op;
    if id in d.matches {
      var m := d.matches[id];
      var held := Apply(d, op, bot).(lease := d.lease);
      DroppedSeatsOk(m, address, if IsLive(m) then Cancelled else m.status, bot);
      WithoutKeeps(d.queue, id);
      PointsBackAgain(d, held, id);
      PutKeeps(d, held, id, bot);
      if IsLive(m) { ReleaseKeeps(held, id, bot); }
    }
  }

  lemma ExpireKeeps(d: Data, op: Op, bot: Address)
    requires Inv(d, bot) && op.OpExpire?
    ensures Inv(Apply(d, op, bot), bot)
  {
    var r := Apply(d, op, bot);
    if r != d {
      var m := d.matches[op.id];
      assert SeatsOk(m, bot);
      forall i | 0 <= i < |m.players| ensures SeatLimitOk(r.matches[op.id], m.players[i]) {
        assert SeatLimitOk(m, m.players[i]);
      }
      assert Seated(r.matches[op.id], bot) ==> Seated(m, bot);
      PutKeeps(d, r, op.id, bot);
    }
  }

  // --- Game records --------------------------------------------------------

  /** Any game record that is not one the bot plays may be replaced, match and all kept. */
  lemma ReplaceGameKeeps(d: Data, g: GameId, game: Game, bot: Address)
    requires Inv(d, bot)
    requires game.joiner == Some(bot) ==> game.completedAt.Some?
    requires g in d.games ==> d.games[g].matchId == game.matchId
    requires game.completedAt.Some? && game.matchId.Some? ==> game.matchId.value !in d.matches
    requires forall id ::
        id in d.matches && d.matches[id].status.Started? && d.matches[id].gameId == Some(g) ==> game.matchId == Some(id)
    ensures Inv(d.(games := d.games[g := game]), bot)
  {
    var r := d.(games := d.games[g := game]);
    forall h | PlaysIn(r, h, bot) ensures PlaysIn(d, h, bot) && LeaseCovers(r, h) {
      assert PlaysIn(d, h, bot);
    }
    forall id | id in r.matches && r.matches[id].status.Started? ensures PointsBack(r, id) {
      assert PointsBack(d, id);
    }
    forall id | BoundTo(r, id, bot) ensures r.lease.Some? && r.lease.value.matchId == id {
      assert BoundTo(d, id, bot);
    }
    CodesKeep(d, r);
  }

  lemma AttachKeeps(d: Data, id: MatchId, g: GameId, creator: Address, bot: Address)
    requires Inv(d, bot) && g in d.games && d.games[g].matchId == Some(id) && Attach(d, id, g, creator).Ok?
    ensures Inv(Attach(d, id, g, creator).value, bot)
  {
    var r := Attach(d, id, g, creator).value;
    var m := d.matches[id];
    forall i | 0 <= i < |m.players| ensures SeatLimitOk(r.matches[id], m.players[i]) {
      assert SeatLimitOk(m, m.players[i]);
    }
    assert Seated(r.matches[id], bot) ==> Seated(m, bot);
    assert SeatsOk(r.matches[id], bot);
    PutKeeps(d, r, id, bot);
  }

  lemma SubmitCreationKeeps(d: Data, op: Op, bot: Address)
    requires Inv(d, bot) && op.OpSubmitCreation? && Admissible(d, op, bot)
    ensures Inv(Apply(d, op, bot), bot)
  {
    var OpSubmitCreation(g, matchId, creator, now) := op;
    forall id | id in d.matches && d.matches[id].status.Started? && d.matches[id].gameId == Some(g)
      ensures matchId == Some(id)
    {
      assert PointsBack(d, id);
    }
    ReplaceGameKeeps(d, g, Game(matchId, None, now, None), bot);
    var saved := d.(games := d.games[g := Game(matchId, None, now, None)]);
    if matchId.Some? && Attach(saved, matchId.value, g, creator).Ok? {
      AttachKeeps(saved, matchId.value, g, creator, bot);
    }
  }

  /** The bot takes a second game only by taking the one game its lease already stands for. */
  lemma BotJoinKeeps(d: Data, g: GameId, bot: Address)
    requires Inv(d, bot) && SubmitJoin(d, g, bot).Ok? && d.games[g].matchId.Some?
    ensures Inv(SubmitJoin(d, g, bot).value, bot)
  {
    var r := SubmitJoin(d, g, bot).value;
    var id := d.games[g].matchId.value;
    assert Seated(d.matches[id], bot);
    assert BoundTo(d, id, bot);
    forall h | PlaysIn(r, h, bot) ensures h == g && LeaseCovers(r, h) {
      if h != g { assert PlaysIn(d, h, bot); }
    }
    forall k | k in r.matches && r.matches[k].status.Started? ensures PointsBack(r, k) {
      assert PointsBack(d, k);
    }
    forall k | BoundTo(r, k, bot) ensures r.lease.Some? && r.lease.value.matchId == k {
      assert BoundTo(d, k, bot);
    }
    CodesKeep(d, r);
  }

  lemma SubmitJoinKeeps(d: Data, op: Op, bot: Address)
    requires Inv(d, bot) && op.OpSubmitJoin? && Admissible(d, op, bot)
    ensures Inv(Apply(d, op, bot), bot)
  {
    var OpSubmitJoin(g, joiner) := op;
    if SubmitJoin(d, g, joiner).Ok? {
      if joiner == bot {
        BotJoinKeeps(d, g, bot);
      } else {
        forall id | id in d.matches && d.matches[id].status.Started? && d.matches[id].gameId == Some(g)
          ensures d.games[g].matchId == Some(id)
        {
          assert PointsBack(d, id);
        }
        ReplaceGameKeeps(d, g, d.games[g].(joiner := Some(joiner)), bot);
      }
    }
  }

  /** Ending a game and dropping its match happen in one step, so nothing in between has to hold. */
  lemma CompleteGameKeeps(d: Data, op: Op, bot: Address)
    requires Inv(d, bot) && op.OpCompleteGame?
    ensures Inv(Apply(d, op, bot), bot)
  {
    var OpCompleteGame(g, now) := op;
    if g in d.games {
      var game := d.games[g];
      var ended := game.(completedAt := if game.completedAt.Some? then game.completedAt else Some(now));
      forall id | id in d.matches && d.matches[id].status.Started? && d.matches[id].gameId == Some(g)
        ensures game.matchId == Some(id)
      {
        assert PointsBack(d, id);
      }
      if game.matchId.None? {
        ReplaceGameKeeps(d, g, ended, bot);
      } else {
        CompleteMatchGameKeeps(d, g, ended, bot);
      }
    }
  }

  lemma CompleteMatchGameKeeps(d: Data, g: GameId, ended: Game, bot: Address)
    requires Inv(d, bot) && g in d.games && ended == d.games[g].(completedAt := ended.completedAt)
    requires ended.completedAt.Some? && ended.matchId.Some?
    requires forall id ::
        id in d.matches && d.matches[id].status.Started? && d.matches[id].gameId == Some(g) ==>
        ended.matchId == Some(id)
    ensures var id := ended.matchId.value;
            var games := d.games[g := ended];
            Inv(Data(d.matches - {id}, Without(d.queue, id), games, LeaseAfter(d.lease, {id}, games)), bot)
  {
    var id := ended.matchId.value;
    var bare := Data(d.matches - {id}, Without(d.queue, id), d.games, d.lease);
    WithoutKeeps(d.queue, id);
    forall k | BoundTo(bare, k, bot) ensures bare.lease.Some? && bare.lease.value.matchId == k {
      assert BoundTo(d, k, bot);
    }
    forall h | PlaysIn(bare, h, bot) ensures PlaysIn(d, h, bot) && LeaseCovers(bare, h) {
      assert PlaysIn(d, h, bot);
    }
    CodesKeep(d, bare);
    GamesKeep(d, bare);
    ReplaceGameKeeps(bare, g, ended, bot);
    ReleaseKeeps(bare.(games := bare.games[g := ended]), id, bot);
  }

  lemma PruneKeeps(d: Data, now: Millis, bot: Address)
    requires Inv(d, bot)
    ensures Inv(PruneCompleted(d, now), bot)
  {
    var r := PruneCompleted(d, now);
    forall id | id in r.matches && r.matches[id].status.Started? ensures PointsBack(r, id) {
      assert PointsBack(d, id);
    }
    forall g | PlaysIn(r, g, bot) ensures PlaysIn(d, g, bot) && LeaseCovers(r, g) {
      assert PlaysIn(d, g, bot);
    }
    forall k | BoundTo(r, k, bot) ensures r.lease.Some? && r.lease.value.matchId == k {
      assert BoundTo(d, k, bot);
    }
    CodesKeep(d, r);
  }

  // --- Every reachable snapshot --------------------------------------------

  lemma ApplyKeeps(d: Data, op: Op, bot: Address)
    requires Inv(d, bot) && Admissible(d, op, bot)
    ensures Inv(Apply(d, op, bot), bot)
  {
    match op
    case OpJoin(_, _, _, _, _, _) => JoinMatchmakingKeeps(d, op, bot);
    case OpCreateRoom(_, _, _, _, _, _) => CreateRoomKeeps(d, op, bot);
    case OpJoinRoom(id, wallet, now) => JoinPrivateKeeps(d, id, wallet, now, bot);
    case OpJoinByCode(_, found, wallet, now) => if found.Some? { JoinPrivateKeeps(d, found.value, wallet, now, bot); }
    case OpClaim(_, _, _, _, _) => ClaimKeeps(d, op, bot);
    case OpReleaseLease(_) => ReleaseLeaseKeeps(d, op, bot);
    case OpTouch(_, _, _) => TouchKeeps(d, op, bot);
    case OpLeave(_, _) => LeaveKeeps(d, op, bot);
    case OpSubmitCreation(_, _, _, _) => SubmitCreationKeeps(d, op, bot);
    case OpSubmitJoin(_, _) => SubmitJoinKeeps(d, op, bot);
    case OpCompleteGame(_, _) => CompleteGameKeeps(d, op, bot);
    case OpPrune(now) => PruneKeeps(d, now, bot);
    case OpExpire(_, _) => ExpireKeeps(d, op, bot);
  }

  lemma {:induction false} EveryRunKeeps(d: Data, ops: seq<Op>, bot: Address)
    requires Inv(d, bot) && AdmissibleRun(d, ops, bot)
    ensures Inv(Run(d, ops, bot), bot)
    decreases |ops|
  {
    if ops != [] {
      ApplyKeeps(d, ops[0], bot);
      EveryRunKeeps(Apply(d, ops[0], bot), ops[1..], bot);
    }
  }
}
