/**
 The store itself: each operation works on the snapshot it read, loop by loop as matches are scanned,
 and installs the result only if it did not throw.  What it installs is the value `MatchData` gives.
 Scans visit the matches in no fixed order, so the result does not depend on one.
 */
module MatchStore {
  import opened Outcomes
  import opened MatchData

  lemma ReleaseOneMore(lease: Option<Lease>, done: set<MatchId>, id: MatchId, games: map<GameId, Game>)
    ensures LeaseAfter(LeaseAfter(lease, done, games), {id}, games) == LeaseAfter(lease, done + {id}, games)
  {
  }

  lemma CancelOneMore(matches: map<MatchId, Match>, done: set<MatchId>, id: MatchId)
    requires id in matches
    ensures CancelAll(matches, done)[id := matches[id].(status := Cancelled)] == CancelAll(matches, done + {id})
  {
  }

  method PrunedQueue(queue: seq<MatchId>, matches: map<MatchId, Match>) returns (r: seq<MatchId>)
    ensures r == PruneQueue(queue, matches)
  {
    r := [];
    var i := |queue|;
    while i > 0
      invariant 0 <= i <= |queue|
      invariant r == PruneQueue(queue[i..], matches)
    {
      i := i - 1;
      assert queue[i..][1..] == queue[i + 1..];
      if queue[i] in matches && IsPublicWaiting(matches[queue[i]]) {
        r := [queue[i]] + r;
      }
    }
  }

  method SweepIdle(d: Data, now: Millis) returns (r: Data)
    ensures r == Sweep(d, now)
  {
    var matches, lease, todo := d.matches, d.lease, d.matches.Keys;
    ghost var done: set<MatchId> := {};
    assert CancelAll(d.matches, {}) == d.matches;
    while todo != {}
      invariant todo <= d.matches.Keys
      invariant done == IdleIds(d, now) - todo
      invariant matches == CancelAll(d.matches, done)
      invariant lease == LeaseAfter(d.lease, done, d.games)
    {
      var id :| id in todo;
      var m := matches[id];
      if IsLive(m) && IsIdle(m, now) {
        CancelOneMore(d.matches, done, id);
        ReleaseOneMore(d.lease, done, id, d.games);
        matches := matches[id := m.(status := Cancelled)];
        lease := LeaseAfter(lease, {id}, d.games);
        done := done + {id};
      }
      todo := todo - {id};
    }
    var queue := PrunedQueue(d.queue, matches);
    assert done == IdleIds(d, now);
    r := Data(matches, queue, d.games, lease);
  }

  method CancelActiveFor(d: Data, address: Address) returns (r: Data)
    ensures r == CancelFor(d, address)
  {
    var matches, lease, todo := d.matches, d.lease, d.matches.Keys;
    ghost var done: set<MatchId> := {};
    assert CancelAll(d.matches, {}) == d.matches;
    while todo != {}
      invariant todo <= d.matches.Keys
      invariant done == LiveIdsOf(d, address) - todo
      invariant matches == CancelAll(d.matches, done)
      invariant lease == LeaseAfter(d.lease, done, d.games)
    {
      var id :| id in todo;
      var m := matches[id];
      if IsLive(m) && Seated(m, address) {
        CancelOneMore(d.matches, done, id);
        ReleaseOneMore(d.lease, done, id, d.games);
        matches := matches[id := m.(status := Cancelled)];
        lease := LeaseAfter(lease, {id}, d.games);
        done := done + {id};
      }
      todo := todo - {id};
    }
    var queue := PrunedQueue(d.queue, matches);
    assert done == LiveIdsOf(d, address);
    r := Data(matches, queue, d.games, lease);
  }

  method FindWaiting(queue: seq<MatchId>, matches: map<MatchId, Match>) returns (r: Option<MatchId>)
    ensures r == FirstWaiting(queue, matches)
  {
    for i := 0 to |queue|
      invariant FirstWaiting(queue, matches) == FirstWaiting(queue[i..], matches)
    {
      assert queue[i..][1..] == queue[i + 1..];
      if queue[i] in matches && IsPublicWaiting(matches[queue[i]]) {
        return Some(queue[i]);
      }
    }
    return None;
  }

  method FindByCode(d: Data, code: string) returns (found: Option<MatchId>)
    ensures Resolves(d, code, found)
  {
    var todo := d.matches.Keys;
    while todo != {}
      invariant todo <= d.matches.Keys
      invariant forall id :: IsOpenRoom(d, id) && id !in todo ==> d.matches[id].code != Some(code)
    {
      var id :| id in todo;
      if IsOpenRoom(d, id) && d.matches[id].code == Some(code) {
        return Some(id);
      }
      todo := todo - {id};
    }
    return None;
  }

  lemma {:induction false} TouchAt(players: seq<Seat>, i: nat, address: Address, now: Millis)
    requires i <= |players| && forall j :: 0 <= j < i ==> players[j].wallet.address != address
    requires i < |players| ==> players[i].wallet.address == address
    ensures TouchFirst(players, address, now) == if i < |players| then players[i := players[i].(lastSeenAt := now)]
        else players
  {
    if i > 0 {
      TouchAt(players[1..], i - 1, address, now);
    }
  }

  /** The wallet's first seat is marked as seen. */
  method TouchSeat(players: seq<Seat>, address: Address, now: Millis) returns (r: seq<Seat>)
    ensures r == TouchFirst(players, address, now)
  {
    var i := 0;
    while i < |players| && players[i].wallet.address != address
      invariant 0 <= i <= |players|
      invariant forall j :: 0 <= j < i ==> players[j].wallet.address != address
    {
      i := i + 1;
    }
    TouchAt(players, i, address, now);
    r := if i < |players| then players[i := players[i].(lastSeenAt := now)] else players;
  }

  class Store {
    var matches: map<MatchId, Match>
    var queue: seq<MatchId>
    var games: map<GameId, Game>
    var lease: Option<Lease>

    ghost function Contents(): Data
      reads this
    {
      Data(matches, queue, games, lease)
    }

    constructor ()
      ensures Contents() == EMPTY
    {
      matches, queue, games, lease := map[], [], map[], None;
    }

    method Install(d: Data)
      modifies this
      ensures Contents() == d
    {
      matches, queue, games, lease := d.matches, d.queue, d.games, d.lease;
    }

    method Join(matchId: MatchId, wallet: Wallet, limitKas: Option<real>, coin: nat, side: Side, now: Millis)
      modifies this
      ensures Contents() == JoinMatchmaking(old(Contents()), matchId, wallet, limitKas, coin, side, now)
    {
      var draft := SweepIdle(Data(matches, queue, games, lease), now);
      draft := CancelActiveFor(draft, wallet.address);
      var seat := SeatFor(wallet, Some(LimitOf(limitKas)), now);
      var waiting := FindWaiting(draft.queue, draft.matches);
      match waiting {
        case None =>
          var m := Match(Waiting, false, None, None, [seat], None, None, now, None, None, None);
          draft := draft.(matches := draft.matches[matchId := m], queue := draft.queue + [matchId]);
        case Some(id) =>
          draft := draft.(matches := draft.matches[id := Paired(draft.matches[id], seat, coin, side)],
                          queue := Without(draft.queue, id));
      }
      Install(draft);
    }

    method OpenPrivate(matchId: MatchId, wallet: Wallet, stakeKas: real, code: Option<string>, side: Side, now: Millis)
      returns (r: Result<MatchId, StoreError>)
      modifies this
      ensures Contents() == OrUnchanged(CreatePrivate(old(Contents()), matchId, wallet, stakeKas, code, side, now),
          old(Contents()))
      ensures r == if CreatePrivate(old(Contents()), matchId, wallet, stakeKas, code, side, now).Ok? then Ok(matchId)
          else Err(CodeTaken)
    {
      var draft := SweepIdle(Data(matches, queue, games, lease), now);
      draft := CancelActiveFor(draft, wallet.address);
      if code.Some? && code.value != "" {
        var clash := FindByCode(draft, code.value);
        if clash.Some? {
          return Err(CodeTaken);
        }
      }
      var m := Match(Waiting, true, code, Some(stakeKas), [SeatFor(wallet, Some(stakeKas), now)], None, Some(side),
          now, None, None, None);
      Install(draft.(matches := draft.matches[matchId := m]));
      return Ok(matchId);
    }

    method EnterById(id: MatchId, wallet: Wallet, now: Millis) returns (r: Result<MatchId, StoreError>)
      modifies this
      ensures Contents() == OrUnchanged(JoinPrivate(old(Contents()), id, wallet, now), old(Contents()))
      ensures r == match JoinPrivate(old(Contents()), id, wallet, now) case Ok(_) => Ok(id) case Err(e) => Err(e)
    {
      var draft := SweepIdle(Data(matches, queue, games, lease), now);
      if !IsOpenRoom(draft, id) {
        return Err(MatchNotFound);
      }
      var m := draft.matches[id];
      if !Seated(m, wallet.address) {
        if !m.status.Waiting? || |m.players| != 1 {
          return Err(MatchFull);
        }
        m := m.(players := m.players + [SeatFor(wallet, m.stakeKas, now)], status := Matched, creatorIndex := Some(0));
      }
      Install(draft.(matches := draft.matches[id := m]));
      return Ok(id);
    }

    method EnterByCode(code: string, wallet: Wallet, now: Millis)
            returns (found: Option<MatchId>, r: Result<MatchId, StoreError>)
      modifies this
      ensures Resolves(Sweep(old(Contents()), now), code, found)
      ensures Contents() == OrUnchanged(JoinByCode(old(Contents()), found, wallet, now), old(Contents()))
      ensures r.Ok? <==> JoinByCode(old(Contents()), found, wallet, now).Ok?
    {
      var draft := SweepIdle(Data(matches, queue, games, lease), now);
      found := FindByCode(draft, code);
      if found.None? {
        return found, Err(MatchNotFound);
      }
      r := EnterById(found.value, wallet, now);
    }

    method Claim(id: MatchId, bot: Wallet, minWaitMs: Millis, side: Side, now: Millis)
            returns (r: Result<MatchId, StoreError>)
      modifies this
      ensures Contents() == OrUnchanged(ClaimForBot(old(Contents()), id, bot, minWaitMs, side, now), old(Contents()))
      ensures r == match ClaimForBot(old(Contents()), id, bot, minWaitMs, side, now) case Ok(_) => Ok(id) case Err(e) =>
          Err(e)
    {
      var draft := SweepIdle(Data(matches, queue, games, lease), now);
      if id !in draft.matches || !IsPublicWaiting(draft.matches[id]) || |draft.matches[id].players| != 1 {
        return Err(MatchNotReady);
      }
      if draft.lease.Some? {
        return Err(BotBusy);
      }
      var m := draft.matches[id];
      if now - m.createdAt < minWaitMs {
        return Err(BotNotReady);
      }
      m := m.(players := m.players + [SeatFor(bot, Some(MIN_STAKE_KAS), now)], stakeKas := Some(MIN_STAKE_KAS),
              status := Matched, creatorIndex := Some(0), creatorSide := Some(side),
              botAddress := Some(bot.address), botClaimedAt := Some(now));
      Install(Data(draft.matches[id := m], Without(draft.queue, id), draft.games, Some(Lease(id, bot.address, now))));
      return Ok(id);
    }

    method Release(id: Option<MatchId>)
      modifies this`lease
      ensures Contents() == ReleaseLease(old(Contents()), id)
    {
      if lease.None? || (id.Some? && lease.value.matchId != id.value) {
        return;
      }
      if !BotHasLiveGame(games, lease.value.botAddress) {
        lease := None;
      }
    }

    method Abandon(id: MatchId, address: Address)
      modifies this
      ensures Contents() == Leave(old(Contents()), id, address)
    {
      if id !in matches {
        return;
      }
      var m := matches[id].(players := DropSeats(matches[id].players, address));
      matches := matches[id := m];
      if IsLive(m) {
        matches := matches[id := m.(status := Cancelled)];
        queue := Without(queue, id);
        lease := LeaseAfter(lease, {id}, games);
      }
    }

    method SeenNow(id: MatchId, address: Address, now: Millis)
      modifies this`matches
      ensures Contents() == Touch(old(Contents()), id, address, now)
    {
      if id in matches {
        var players := TouchSeat(matches[id].players, address, now);
        matches := matches[id := matches[id].(players := players)];
      }
    }

    /** Publishing a created game in its match. */
    method PublishGame(id: MatchId, gameId: GameId, creator: Address) returns (r: Result<MatchId, StoreError>)
      modifies this`matches
      ensures Contents() == OrUnchanged(Attach(old(Contents()), id, gameId, creator), old(Contents()))
      ensures r == match Attach(old(Contents()), id, gameId, creator) case Ok(_) => Ok(id) case Err(e) => Err(e)
    {
      if id !in matches {
        return Err(MatchNotFound);
      }
      var m := matches[id];
      var index := IndexOf(m.players, creator);
      if index.None? {
        return Err(NotAPlayer);
      }
      if !m.status.Matched? || index != m.creatorIndex {
        return Err(MatchNotReady);
      }
      matches := matches[id := m.(gameId := Some(gameId), status := Started)];
      return Ok(id);
    }

    /** The bot gives up on a match whose human never published a game. */
    method ExpireClaim(id: MatchId, bot: Address, now: Millis)
      modifies this`matches
      ensures Contents() == ExpireUnfunded(old(Contents()), id, bot, now)
    {
      if id !in matches {
        return;
      }
      var m := matches[id];
      if m.botAddress == Some(bot) && m.status.Matched? && m.gameId.None? && m.botClaimedAt.Some?
         && now - m.botClaimedAt.value > BOT_UNFUNDED_TIMEOUT_MS {
        matches := matches[id := m.(status := Cancelled)];
      }
    }

    method Complete(gameId: GameId, now: Millis) returns (retained: bool)
      modifies this
      ensures Contents() == CompleteGame(old(Contents()), gameId, now)
      ensures retained <==> gameId in old(games)
    {
      if gameId !in games {
        return false;
      }
      var game := games[gameId];
      if game.completedAt.None? {
        game := game.(completedAt := Some(now));
      }
      games := games[gameId := game];
      if game.matchId.Some? {
        matches := matches - {game.matchId.value};
        queue := Without(queue, game.matchId.value);
        lease := LeaseAfter(lease, {game.matchId.value}, games);
      }
      return true;
    }

    method Prune(now: Millis)
      modifies this`games
      ensures Contents() == PruneCompleted(old(Contents()), now)
    {
      var todo := games.Keys;
      while todo != {}
        invariant todo <= games.Keys
        invariant games == map g | g in old(games) && (g in todo || !IsExpired(old(games)[g], now)) :: old(games)[g]
      {
        var g :| g in todo;
        if IsExpired(games[g], now) {
          games := games - {g};
        }
        todo := todo - {g};
      }
    }
  }
}
