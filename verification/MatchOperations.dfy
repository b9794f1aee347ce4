/**
 What each mutation of the matchmaking store does to the snapshot, told from its seats, times, statuses
 and games.
 */
module MatchOperations {
  import opened Outcomes
  import opened MatchData
  import opened MatchInvariant

  // --- Who is still there --------------------------------------------------

  /** The bot never polls, so its presence counts for nothing beside a person's. */
  ghost predicate Counts(m: Match, i: int) {
    0 <= i < |m.players|
    && (m.botAddress == Some(m.players[i].wallet.address) ==>
          forall j :: 0 <= j < |m.players| ==> m.botAddress == Some(m.players[j].wallet.address))
  }

  /** Nobody is seated, or somebody who counts was not seen for more than thirty seconds. */
  ghost predicate Unattended(m: Match, now: Millis) {
    m.players == [] || exists i :: Counts(m, i) && now - m.players[i].lastSeenAt > 30_000
  }

  lemma {:induction false} EarliestIsLeast(players: seq<Seat>)
    requires players != []
    ensures exists i :: 0 <= i < |players| && players[i].lastSeenAt == Earliest(players)
    ensures forall i :: 0 <= i < |players| ==> Earliest(players) <= players[i].lastSeenAt
    decreases |players|
  {
    if |players| > 1 {
      EarliestIsLeast(players[1..]);
      var i :| 0 <= i < |players[1..]| && players[1..][i].lastSeenAt == Earliest(players[1..]);
      assert players[i + 1].lastSeenAt == Earliest(players[1..]);
      assert Earliest(players) == players[0].lastSeenAt || Earliest(players) == players[i + 1].lastSeenAt;
      forall k | 0 <= k < |players| ensures Earliest(players) <= players[k].lastSeenAt {
        if k > 0 { assert players[k] == players[1..][k - 1]; }
      }
    } else {
      assert players[0].lastSeenAt == Earliest(players);
    }
  }

  lemma {:induction false} HumansAre(players: seq<Seat>, bot: Option<Address>)
    ensures forall seat :: seat in Humans(players, bot) <==> seat in players && bot != Some(seat.wallet.address)
    decreases |players|
  {
    if players != [] { HumansAre(players[1..], bot); }
  }

  /** The seats the sweep looks at are those of the people, or all if there are none. */
  ghost function Looked(m: Match): seq<Seat> {
    var humans := Humans(m.players, m.botAddress);
    if humans != [] then humans else m.players
  }

  lemma {:induction false} LookedAtCounts(m: Match, seat: Seat)
    requires seat in Looked(m)
    ensures exists i :: Counts(m, i) && m.players[i] == seat
  {
    HumansAre(m.players, m.botAddress);
    var humans := Humans(m.players, m.botAddress);
    var i :| 0 <= i < |m.players| && m.players[i] == seat;
    if humans == [] {
      forall j | 0 <= j < |m.players| ensures m.botAddress == Some(m.players[j].wallet.address) {
        assert m.players[j] !in humans;
      }
    }
    assert Counts(m, i);
  }

  lemma {:induction false} CountsIsLookedAt(m: Match, i: int)
    requires Counts(m, i)
    ensures m.players[i] in Looked(m)
  {
    HumansAre(m.players, m.botAddress);
    var humans := Humans(m.players, m.botAddress);
    assert m.players[i] in m.players;
    if humans != [] {
      assert humans[0] in humans;
      var j :| 0 <= j < |m.players| && m.players[j] == humans[0];
    }
  }

  lemma {:induction false} IdleIff(m: Match, now: Millis)
    ensures IsIdle(m, now) <==> Unattended(m, now)
  {
    if m.players != [] {
      EarliestIsLeast(Looked(m));
      if IsIdle(m, now) {
        var k :| 0 <= k < |Looked(m)| && Looked(m)[k].lastSeenAt == Earliest(Looked(m));
        LookedAtCounts(m, Looked(m)[k]);
      }
      if i :| Counts(m, i) && now - m.players[i].lastSeenAt > 30_000 { CountsIsLookedAt(m, i); }
    }
  }

  // --- Retiring sessions ---------------------------------------------------

  ghost predicate BotPlays(d: Data, bot: Address) {
    exists g :: g in d.games && d.games[g].joiner == Some(bot) && d.games[g].completedAt.None?
  }

  /** The lease is given back with the match it names, unless the bot still has a game to finish. */
  ghost predicate LeaseReturned(d: Data, r: Data, ended: set<MatchId>) {
    r.lease == if d.lease.Some? && d.lease.value.matchId in ended && !BotPlays(r, d.lease.value.botAddress) then None
               else d.lease
  }

  ghost predicate LiveMatch(d: Data, id: MatchId) {
    id in d.matches && (d.matches[id].status == Waiting || d.matches[id].status == Matched)
  }

  /** Exactly these live matches are cancelled; the queue keeps the public ones that still wait. */
  ghost predicate Cancels(d: Data, r: Data, ended: set<MatchId>) {
    && r.games == d.games && r.matches.Keys == d.matches.Keys
    && (forall id :: id in d.matches ==>
          r.matches[id] == if id in ended then d.matches[id].(status := Cancelled) else d.matches[id])
    && (forall id :: id in r.queue <==>
          id in d.queue && id in r.matches && r.matches[id].status == Waiting && !r.matches[id].isPrivate)
    && LeaseReturned(d, r, ended)
  }

  lemma {:induction false} RetireIs(d: Data, ids: set<MatchId>)
    ensures Cancels(d, Retire(d, ids), ids)
  {
    PruneQueueKeeps(d.queue, CancelAll(d.matches, ids));
  }

  /** The sweep ends the unattended live matches. */
  lemma {:induction false} SweepIs(d: Data, now: Millis)
    ensures forall id :: id in IdleIds(d, now) <==> LiveMatch(d, id) && Unattended(d.matches[id], now)
    ensures Cancels(d, Sweep(d, now), IdleIds(d, now))
  {
    forall id | id in d.matches ensures IsIdle(d.matches[id], now) <==> Unattended(d.matches[id], now) {
      IdleIff(d.matches[id], now);
    }
    RetireIs(d, IdleIds(d, now));
  }

  ghost predicate SitsIn(m: Match, address: Address) {
    exists i :: 0 <= i < |m.players| && m.players[i].wallet.address == address
  }

  /** A new session ends the wallet's live ones. */
  lemma {:induction false} CancelForIs(d: Data, address: Address)
    ensures forall id :: id in LiveIdsOf(d, address) <==> LiveMatch(d, id) && SitsIn(d.matches[id], address)
    ensures Cancels(d, CancelFor(d, address), LiveIdsOf(d, address))
  {
    RetireIs(d, LiveIdsOf(d, address));
  }

  // --- Opening and entering sessions ---------------------------------------

  ghost predicate WaitsInPublic(d: Data, id: MatchId) {
    id in d.matches && d.matches[id].status == Waiting && !d.matches[id].isPrivate
  }

  ghost predicate QueueWithout(d: Data, r: Data, id: MatchId) {
    forall x :: x in r.queue <==> x in d.queue && x != id
  }

  lemma {:induction false} WithoutIs(queue: seq<MatchId>, id: MatchId)
    ensures forall x :: x in Without(queue, id) <==> x in queue && x != id
  {
    if queue != [] { WithoutIs(queue[1..], id); }
  }

  lemma {:induction false} FirstWaitingIsFirst(queue: seq<MatchId>, matches: map<MatchId, Match>)
    ensures var r := FirstWaiting(queue, matches);
      r.Some? ==>
        exists k :: 0 <= k < |queue| && queue[k] == r.value
                    && forall j :: 0 <= j < k && queue[j] in matches ==> !IsPublicWaiting(matches[queue[j]])
  {
    if queue != [] && !(queue[0] in matches && IsPublicWaiting(matches[queue[0]])) {
      FirstWaitingIsFirst(queue[1..], matches);
      var r := FirstWaiting(queue[1..], matches);
      if r.Some? {
        var k :| 0 <= k < |queue[1..]| && queue[1..][k] == r.value
          && forall j :: 0 <= j < k && queue[1..][j] in matches ==> !IsPublicWaiting(matches[queue[1..][j]]);
        assert queue[k + 1] == r.value;
        forall j | 0 <= j < k + 1 && queue[j] in matches ensures !IsPublicWaiting(matches[queue[j]]) {
          if j > 0 { assert queue[1..][j - 1] == queue[j]; }
        }
      }
    }
  }

  /** The first session that waits, in the order of the queue. */
  ghost predicate IsFirst(d: Data, id: MatchId) {
    exists k :: 0 <= k < |d.queue| && d.queue[k] == id && WaitsInPublic(d, id)
      && forall j :: 0 <= j < k ==> !WaitsInPublic(d, d.queue[j])
  }

  ghost predicate IsLower(x: real, a: real, b: real) {
    x <= a && x <= b && (x == a || x == b)
  }

  /** The seat joins whoever waits first, for the lower of the two limits; if nobody waits it waits itself. */
  ghost predicate Queues(d: Data, r: Data, id: MatchId, seat: Seat, coin: nat, side: Side) {
    && r.games == d.games && r.lease == d.lease
    && ((forall w :: w in d.queue ==> !WaitsInPublic(d, w)) ==>
          && r.queue == d.queue + [id]
          && r.matches == d.matches[id := Match(Waiting, false, None, None, [seat], None, None, seat.joinedAt, None,
                                                None, None)])
    && (forall w ::
          IsFirst(d, w) && |d.matches[w].players| == 1 && d.matches[w].players[0].limitKas.Some?
          && seat.limitKas.Some? ==>
          && QueueWithout(d, r, w) && w in r.matches && r.matches == d.matches[w := r.matches[w]]
          && r.matches[w] == d.matches[w].(players := [d.matches[w].players[0], seat], status := Matched,
               creatorIndex := Some(coin), creatorSide := Some(side), stakeKas := r.matches[w].stakeKas)
          && r.matches[w].stakeKas.Some?
          && IsLower(r.matches[w].stakeKas.value, d.matches[w].players[0].limitKas.value, seat.limitKas.value))
  }

  lemma {:induction false} OneIsFirst(d: Data, a: MatchId, b: MatchId)
    requires IsFirst(d, a) && IsFirst(d, b)
    ensures a == b
  {
    var k :| 0 <= k < |d.queue| && d.queue[k] == a && WaitsInPublic(d, a)
      && forall j :: 0 <= j < k ==> !WaitsInPublic(d, d.queue[j]);
    var l :| 0 <= l < |d.queue| && d.queue[l] == b && WaitsInPublic(d, b)
      && forall j :: 0 <= j < l ==> !WaitsInPublic(d, d.queue[j]);
  }

  lemma {:induction false} EnterQueueIs(d: Data, id: MatchId, seat: Seat, coin: nat, side: Side)
    ensures Queues(d, EnterQueue(d, id, seat, coin, side, seat.joinedAt), id, seat, coin, side)
  {
    FirstWaitingIsFirst(d.queue, d.matches);
    var first := FirstWaiting(d.queue, d.matches);
    if first.Some? {
      assert IsFirst(d, first.value);
      WithoutIs(d.queue, first.value);
      forall w | IsFirst(d, w) ensures w == first.value { OneIsFirst(d, w, first.value); }
    } else {
      forall w | w in d.queue ensures !WaitsInPublic(d, w) {}
    }
  }

  /** Joining the queue: after the sweep, and in place of the wallet's other sessions; a limit below the minimum, or
      none, stands for the minimum. */
  lemma {:induction false} JoinIs(d: Data, id: MatchId, wallet: Wallet, limitKas: Option<real>, coin: nat, side: Side,
          now: Millis)
    ensures var limit := if limitKas.Some? && limitKas.value >= 1.0 then limitKas.value else 1.0;
      Queues(CancelFor(Sweep(d, now), wallet.address), JoinMatchmaking(d, id, wallet, limitKas, coin, side, now), id,
             Seat(wallet, Some(limit), now, now), coin, side)
  {
    EnterQueueIs(CancelFor(Sweep(d, now), wallet.address), id, SeatFor(wallet, Some(LimitOf(limitKas)), now), coin,
        side);
  }

  ghost predicate OpenRoomAt(d: Data, id: MatchId) {
    LiveMatch(d, id) && d.matches[id].isPrivate
  }

  /** Opening a room: refused exactly when a live room has the same code; otherwise it waits for a friend with the
      stake its host named. */
  lemma {:induction false} CreateIs(d: Data, id: MatchId, wallet: Wallet, stakeKas: real, code: Option<string>,
          side: Side, now: Millis)
    ensures var ready, r := CancelFor(Sweep(d, now), wallet.address),
        CreatePrivate(d, id, wallet, stakeKas, code, side, now);
      && (r.Err? <==>
            && code.Some? && code.value != ""
            && exists k :: OpenRoomAt(ready, k) && ready.matches[k].code == code)
      && (r.Err? ==> r.error == CodeTaken)
      && (r.Ok? ==> r.value == Data(
            ready.matches[id := Match(Waiting, true, code, Some(stakeKas), [Seat(wallet, Some(stakeKas), now, now)],
                                      None, Some(side), now, None, None, None)], ready.queue, ready.games, ready.lease))
  {
    var ready := CancelFor(Sweep(d, now), wallet.address);
    assert forall k :: OpenRoomAt(ready, k) <==>
        k in ready.matches && ready.matches[k].isPrivate && IsLive(ready.matches[k]);
  }

  /** Entering a room: refused unless it is a live private room with the second seat free; whoever sits in it already
      changes nothing; a friend takes the second seat for the stake of the room, and the host is the creator. */
  lemma {:induction false} EnterIs(d: Data, id: MatchId, wallet: Wallet, now: Millis)
    ensures var swept, r := Sweep(d, now), JoinPrivate(d, id, wallet, now);
      && (r == Err(MatchNotFound) <==> !OpenRoomAt(swept, id))
      && (OpenRoomAt(swept, id) ==>
            var m := swept.matches[id];
            && (SitsIn(m, wallet.address) ==> r == Ok(swept))
            && (!SitsIn(m, wallet.address) && (m.status != Waiting || |m.players| != 1) ==> r == Err(MatchFull))
            && (!SitsIn(m, wallet.address) && m.status == Waiting && |m.players| == 1 ==>
                  r == Ok(swept.(matches := swept.matches[id := m.(status := Matched, creatorIndex := Some(0),
                            players := [m.players[0], Seat(wallet, m.stakeKas, now, now)])]))))
    ensures JoinByCode(d, Some(id), wallet, now) == JoinPrivate(d, id, wallet, now)
    ensures JoinByCode(d, None, wallet, now) == Err(MatchNotFound)
  {
    var swept := Sweep(d, now);
    if OpenRoomAt(swept, id) {
      var m := swept.matches[id];
      assert Seated(m, wallet.address) <==> SitsIn(m, wallet.address);
      assert swept.matches[id := m] == swept.matches;
      if |m.players| == 1 { assert forall seat :: m.players + [seat] == [m.players[0], seat]; }
    }
  }

  // --- The bot -------------------------------------------------------------

  /** The bot's claim: of one person who waits in public, with no lease held, after the grace period; it takes the
      second seat for the minimum, the person is the creator, and the lease names the match. */
  lemma {:induction false} ClaimIs(d: Data, id: MatchId, bot: Wallet, minWaitMs: Millis, side: Side, now: Millis)
    ensures var swept, r := Sweep(d, now), ClaimForBot(d, id, bot, minWaitMs, side, now);
      && (r == Err(MatchNotReady) <==> !(WaitsInPublic(swept, id) && |swept.matches[id].players| == 1))
      && (WaitsInPublic(swept, id) && |swept.matches[id].players| == 1 ==>
            var m := swept.matches[id];
            && (swept.lease.Some? ==> r == Err(BotBusy))
            && (swept.lease.None? && now - m.createdAt < minWaitMs ==> r == Err(BotNotReady))
            && (swept.lease.None? && now - m.createdAt >= minWaitMs ==>
                  && r.Ok? && QueueWithout(swept, r.value, id) && r.value.games == swept.games
                  && r.value.lease == Some(Lease(id, bot.address, now))
                  && r.value.matches == swept.matches[id := m.(
                       players := [m.players[0], Seat(bot, Some(1.0), now, now)], stakeKas := Some(1.0),
                       status := Matched, creatorIndex := Some(0), creatorSide := Some(side),
                       botAddress := Some(bot.address), botClaimedAt := Some(now))]))
  {
    var swept := Sweep(d, now);
    WithoutIs(swept.queue, id);
    if WaitsInPublic(swept, id) && |swept.matches[id].players| == 1 {
      assert forall seat :: swept.matches[id].players + [seat] == [swept.matches[id].players[0], seat];
    }
  }

  /** A release ends the lease of that match, or whatever lease there is, unless the bot still plays. */
  lemma {:induction false} ReleaseIs(d: Data, release: Option<MatchId>)
    ensures var r := ReleaseLease(d, release);
      && r.matches == d.matches && r.queue == d.queue && r.games == d.games
      && r.lease == if d.lease.Some? && (release.None? || release == Some(d.lease.value.matchId))
                       && !BotPlays(d, d.lease.value.botAddress) then None else d.lease
  {
  }

  /** The bot gives up a match it claimed more than five minutes ago and in which no game was published. */
  lemma {:induction false} ExpireIs(d: Data, id: MatchId, bot: Address, now: Millis)
    ensures var r := Apply(d, OpExpire(id, now), bot);
      && r.queue == d.queue && r.games == d.games && r.lease == d.lease && r.matches.Keys == d.matches.Keys
      && forall k :: k in d.matches ==>
           var m := d.matches[k];
           r.matches[k] == if k == id && m.botAddress == Some(bot) && m.status == Matched && m.gameId == None
                              && m.botClaimedAt.Some? && now - m.botClaimedAt.value > 300_000
                           then m.(status := Cancelled) else m
  {
  }

  // --- Staying and leaving -------------------------------------------------

  /** The wallet's seat, if it has one, is seat `i`. */
  ghost predicate FirstSeat(m: Match, address: Address, i: Option<nat>) {
    match i
    case None => !SitsIn(m, address)
    case Some(k) => k < |m.players| && m.players[k].wallet.address == address
                    && forall j :: 0 <= j < k ==> m.players[j].wallet.address != address
  }

  lemma {:induction false} TouchFirstIs(players: seq<Seat>, address: Address, now: Millis, k: nat)
    requires k < |players| && players[k].wallet.address == address
    requires forall j :: 0 <= j < k ==> players[j].wallet.address != address
    ensures TouchFirst(players, address, now) == players[k := players[k].(lastSeenAt := now)]
  {
    if k == 0 {
      assert players == [players[0]] + players[1..];
    } else {
      assert forall j :: 0 <= j < k ==> players[1..][j] == players[j + 1];
      TouchFirstIs(players[1..], address, now, k - 1);
      UpdateInTail(players, k, players[k].(lastSeenAt := now));
    }
  }

  lemma UpdateInTail(players: seq<Seat>, k: nat, seat: Seat)
    requires 0 < k < |players|
    ensures players[k := seat] == [players[0]] + players[1..][k - 1 := seat]
  {
  }

  lemma {:induction false} TouchNobody(players: seq<Seat>, address: Address, now: Millis)
    requires forall j :: 0 <= j < |players| ==> players[j].wallet.address != address
    ensures TouchFirst(players, address, now) == players
  {
    if players != [] {
      assert forall j :: 0 <= j < |players[1..]| ==> players[1..][j] == players[j + 1];
      TouchNobody(players[1..], address, now);
    }
  }

  /** A heartbeat marks the wallet's seat as seen now, and nothing else. */
  lemma {:induction false} TouchIs(d: Data, id: MatchId, address: Address, now: Millis, seat: Option<nat>)
    requires id in d.matches ==> FirstSeat(d.matches[id], address, seat)
    ensures Touch(d, id, address, now) ==
      if id !in d.matches || seat.None? then d
      else
        var m := d.matches[id];
        var seen := m.players[seat.value].(lastSeenAt := now);
        d.(matches := d.matches[id := m.(players := m.players[seat.value := seen])])
  {
    if id in d.matches {
      var m := d.matches[id];
      if seat.None? {
        TouchNobody(m.players, address, now);
        assert d.matches[id := m] == d.matches;
      } else {
        TouchFirstIs(m.players, address, now, seat.value);
      }
    }
  }

  lemma {:induction false} DropSeatsIs(players: seq<Seat>, address: Address)
    ensures forall seat :: seat in DropSeats(players, address) <==> seat in players && seat.wallet.address != address
  {
    if players != [] { DropSeatsIs(players[1..], address); }
  }

  /** Leaving drops the wallet's seats; a live match is cancelled, with its place in the queue and its lease. */
  lemma {:induction false} LeaveIs(d: Data, id: MatchId, address: Address)
    ensures var r := Leave(d, id, address);
      && (id !in d.matches ==> r == d)
      && (id in d.matches ==>
            && r.games == d.games && id in r.matches && r.matches == d.matches[id := r.matches[id]]
            && (forall seat :: seat in r.matches[id].players <==>
                  seat in d.matches[id].players && seat.wallet.address != address)
            && r.matches[id] == d.matches[id].(players := r.matches[id].players,
                 status := if LiveMatch(d, id) then Cancelled else d.matches[id].status)
            && (LiveMatch(d, id) ==> QueueWithout(d, r, id) && LeaseReturned(d, r, {id}))
            && (!LiveMatch(d, id) ==> r.queue == d.queue && r.lease == d.lease))
  {
    if id in d.matches { DropSeatsIs(d.matches[id].players, address); }
    WithoutIs(d.queue, id);
  }

  // --- Games ---------------------------------------------------------------

  lemma {:induction false} IndexOfIs(players: seq<Seat>, address: Address)
    ensures IndexOf(players, address).Some? ==>
      forall j :: 0 <= j < IndexOf(players, address).value ==> players[j].wallet.address != address
  {
    if players != [] && players[0].wallet.address != address {
      IndexOfIs(players[1..], address);
      if IndexOf(players, address).Some? {
        forall j | 0 <= j < IndexOf(players, address).value ensures players[j].wallet.address != address {
          if j > 0 { assert players[1..][j - 1] == players[j]; }
        }
      }
    }
  }

  /** A submitted creation saves a fresh record, and starts its match if the match is matched and its creator's seat is
      the wallet's. */
  lemma {:induction false} SubmitCreationIs(d: Data, gameId: GameId, matchId: Option<MatchId>, creator: Address,
          now: Millis, seat: Option<nat>)
    requires matchId.Some? && matchId.value in d.matches ==> FirstSeat(d.matches[matchId.value], creator, seat)
    ensures var r := SubmitCreation(d, gameId, matchId, creator, now);
      && r.queue == d.queue && r.lease == d.lease
      && r.games == d.games[gameId := Game(matchId, None, now, None)]
      && r.matches == if matchId.Some? && matchId.value in d.matches && seat.Some?
                         && d.matches[matchId.value].status == Matched && d.matches[matchId.value].creatorIndex == seat
                      then d.matches[matchId.value := d.matches[matchId.value].(status := Started,
                             gameId := Some(gameId))]
                      else d.matches
  {
    if matchId.Some? && matchId.value in d.matches { IndexOfIs(d.matches[matchId.value].players, creator); }
  }

  /** The match lets the wallet join the game: it started with that game, and the wallet has the other seat. */
  ghost predicate LetsJoin(d: Data, id: MatchId, gameId: GameId, seat: Option<nat>) {
    id in d.matches && d.matches[id].status == Started && d.matches[id].gameId == Some(gameId)
    && seat.Some? && d.matches[id].creatorIndex != seat
  }

  /** Joining a game: refused if there is none, if it is over, if its match does not let the wallet in, and if somebody
      joined before; otherwise only its joiner changes. */
  lemma {:induction false} SubmitJoinIs(d: Data, gameId: GameId, joiner: Address, seat: Option<nat>)
    requires gameId in d.games && d.games[gameId].matchId.Some? && d.games[gameId].matchId.value in d.matches ==>
      FirstSeat(d.matches[d.games[gameId].matchId.value], joiner, seat)
    ensures var r := SubmitJoin(d, gameId, joiner);
      && (r == Err(GameNotFound) <==> gameId !in d.games)
      && (gameId in d.games ==>
            var game := d.games[gameId];
            var lets := game.matchId.Some? ==> LetsJoin(d, game.matchId.value, gameId, seat);
            && (game.completedAt.Some? ==> r == Err(GameCancelled))
            && (game.completedAt.None? && !lets ==> r == Err(MatchNotReady))
            && (game.completedAt.None? && lets && game.joiner.Some? ==> r == Err(GameAlreadyJoined))
            && (game.completedAt.None? && lets && game.joiner.None? ==>
                  r == Ok(Data(d.matches, d.queue, d.games[gameId := game.(joiner := Some(joiner))], d.lease))))
  {
    if gameId in d.games && d.games[gameId].matchId.Some? && d.games[gameId].matchId.value in d.matches {
      IndexOfIs(d.matches[d.games[gameId].matchId.value].players, joiner);
    }
  }

  /** Completing a game keeps the time it first ended, and drops its match, queue entry and lease. */
  lemma {:induction false} CompleteIs(d: Data, gameId: GameId, now: Millis)
    ensures var r := CompleteGame(d, gameId, now);
      && (gameId !in d.games ==> r == d)
      && (gameId in d.games ==>
            var game := d.games[gameId];
            && r.games == d.games[gameId := game.(completedAt := if game.completedAt.None? then Some(now)
                                                                 else game.completedAt)]
            && (game.matchId.None? ==> r.matches == d.matches && r.queue == d.queue && r.lease == d.lease)
            && (game.matchId.Some? ==>
                  && r.matches.Keys == d.matches.Keys - {game.matchId.value}
                  && (forall id :: id in r.matches ==> r.matches[id] == d.matches[id])
                  && QueueWithout(d, r, game.matchId.value) && LeaseReturned(d, r, {game.matchId.value})))
  {
    if gameId in d.games && d.games[gameId].matchId.Some? { WithoutIs(d.queue, d.games[gameId].matchId.value); }
  }

  /** Pruning removes the completed games six minutes old. */
  lemma {:induction false} PruneIs(d: Data, now: Millis)
    ensures var r := PruneCompleted(d, now);
      && r.matches == d.matches && r.queue == d.queue && r.lease == d.lease
      && (forall g :: g in r.games <==>
            g in d.games && (d.games[g].completedAt.None? || now - d.games[g].createdAt < 360_000))
      && forall g :: g in r.games ==> r.games[g] == d.games[g]
  {
  }

  /** A run is its operations one after the other. */
  lemma {:induction false} RunGoesOn(d: Data, ops: seq<Op>, op: Op, bot: Address)
    ensures Run(d, ops + [op], bot) == Apply(Run(d, ops, bot), op, bot)
    decreases |ops|
  {
    if ops == [] {
      assert [] + [op] == [op] && [op][1..] == [];
      assert Run(Apply(d, op, bot), [], bot) == Apply(d, op, bot);
    } else {
      assert (ops + [op])[1..] == ops[1..] + [op];
      RunGoesOn(Apply(d, ops[0], bot), ops[1..], op, bot);
    }
  }
}
