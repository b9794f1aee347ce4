/** A creation that was cut off, or is submitted again. */
module CrashedCreations {
  import opened Outcomes
  import opened CrashRepair
  import opened CrashRepairRuns

  // --- A matched creation --------------------------------------------------

  /** The repair of a creation does not give the game to its match: the second player may join a repaired
      game only if it belongs to no match, and any game whose creation ran to its end. */
  lemma {:induction false} RepairedCreationJoinableIff(s: Store, u: Submission, stamp: Stamp)
    requires Settled(s) && Admissible(s, u) && u.preparation.CreationPrep? && (stamp.place >= |s.log| || Inv(s))
    requires u.preparation.matchId.Some? ==> u.preparation.matchId.value in s.matches
                                             && s.matches[u.preparation.matchId.value].None?
    ensures MayJoin(Completed(s, u, stamp), u.transactionId)
    ensures MayJoin(CrashedAndRepaired(s, u, stamp), u.transactionId) <==> u.preparation.matchId.None?
  {
    RepairedGames(s, u, stamp);
    CompletedGames(s, u, stamp);
  }

  predicate IsCreation(e: Event) {
    (e.Submit? || e.Resubmit?) && e.submission.preparation.CreationPrep?
  }

  /** The games whose creation was cut off before it reached their match, and was not submitted again since. */
  function Orphans(lost: set<string>, b: Store, e: Event): set<string> {
    if !IsCreation(e) || !Allowed(b, e.submission) then lost
    else
      var u := e.submission;
      var m := u.preparation.matchId;
      if e.Resubmit? then (if InLog(b.log, u) then lost - {u.transactionId} else lost)
      else if e.crash && m.Some? && m.value in b.matches && b.matches[m.value].None? then lost + {u.transactionId}
      else lost
  }

  ghost predicate NoOrphanIsJoined(lost: set<string>, b: Store, events: seq<Event>)
    decreases |events|
  {
    events == []
    || ((IsJoin(events[0]) && Accepts(b, events[0].submission) ==> events[0].submission.preparation.gameId !in lost)
        && NoOrphanIsJoined(Orphans(lost, b, events[0]), SmoothStep(b, events[0]), events[1..]))
  }

  /** Each match is given one game, and each game belongs to one match or none. */
  ghost predicate OneGameToAMatch(events: seq<Event>) {
    forall i, j :: 0 <= i < |events| && 0 <= j < |events| && IsCreation(events[i]) && IsCreation(events[j]) ==>
      var u, v := events[i].submission, events[j].submission;
      && (u.transactionId == v.transactionId ==> u.preparation.matchId == v.preparation.matchId)
      && (u.preparation.matchId.Some? && u.preparation.matchId == v.preparation.matchId
          ==> u.transactionId == v.transactionId)
  }

  /** The matches differ at the orphans' only, and what is still to be published about those is the orphan. */
  ghost predicate DifferAt(matches: map<string, Option<string>>, b: Store, lost: set<string>) {
    && matches.Keys == b.matches.Keys
    && (forall m :: m in matches && matches[m] != b.matches[m] ==>
          matches[m].None? && b.matches[m].value in lost && b.matches[m].value in b.games
          && b.games[b.matches[m].value].matchId == Some(m))
    && (forall id :: id in lost ==> Astray(matches, b, id))
  }

  /** The game's match, unless it is gone, names the game without the crashes and names none with them. */
  ghost predicate Astray(matches: map<string, Option<string>>, b: Store, id: string) {
    && id in b.games && b.games[id].matchId.Some?
    && var m := b.games[id].matchId.value;
      (m in matches ==> m in b.matches && matches[m].None? && b.matches[m] == Some(id))
  }

  ghost predicate Publishes(b: Store, lost: set<string>, e: Event) {
    IsCreation(e) ==> forall id :: id in lost && id in b.games ==>
      var u := e.submission;
      && (u.transactionId == id ==> u.preparation.matchId == b.games[id].matchId)
      && (u.preparation.matchId == b.games[id].matchId && u.preparation.matchId.Some? ==> u.transactionId == id)
  }

  lemma {:induction false} CreationKeepsDifference(matches: map<string, Option<string>>, b: Store, lost: set<string>,
          e: Event)
    requires DifferAt(matches, b, lost) && Publishes(b, lost, e) && IsCreation(e) && e.Submit? && Fresh(b, e.submission)
    ensures DifferAt(MatchesAfter(matches, b, e), SmoothStep(b, e), Orphans(lost, b, e))
  {
    var u := e.submission;
    if Allowed(b, u) {
      CompletedGames(b, u, e.stamp);
      if e.crash { CutOffKeepsDifference(matches, b, lost, e); } else { PublishedKeepsDifference(matches, b, lost, e); }
    }
  }

  lemma {:induction false} PublishedKeepsDifference(matches: map<string, Option<string>>, b: Store, lost: set<string>,
          e: Event)
    requires DifferAt(matches, b, lost) && Publishes(b, lost, e) && IsCreation(e) && e.Submit? && !e.crash
    requires Admissible(b, e.submission)
    ensures DifferAt(MatchesAfter(matches, b, e), SmoothStep(b, e), lost)
  {
    var m := e.submission.preparation.matchId;
    if m.Some? && m.value in matches { assert matches[m.value] == b.matches[m.value]; }
  }

  lemma {:induction false} CutOffKeepsDifference(matches: map<string, Option<string>>, b: Store, lost: set<string>,
          e: Event)
    requires DifferAt(matches, b, lost) && IsCreation(e) && e.Submit? && e.crash && Admissible(b, e.submission)
    ensures DifferAt(matches, SmoothStep(b, e), Orphans(lost, b, e))
  {
  }

  lemma {:induction false} ResubmitKeepsDifference(matches: map<string, Option<string>>, b: Store, lost: set<string>,
          e: Event)
    requires DifferAt(matches, b, lost) && Publishes(b, lost, e) && IsCreation(e) && e.Resubmit?
    ensures DifferAt(MatchesAfter(matches, b, e), SmoothStep(b, e), Orphans(lost, b, e))
  {
    var u := e.submission;
    if Allowed(b, u) && InLog(b.log, u) {
      SubmittedIgnoresLog(b, b.log, u, e.saved);
      var m := u.preparation.matchId;
      if m.Some? && m.value in matches && u.transactionId !in lost { assert matches[m.value] == b.matches[m.value]; }
    }
  }

  /** Saving a record other than a creation's keeps every record's match and the matches. */
  lemma {:induction false} SavingKeepsMatches(b: Store, log: seq<Operation>, u: Submission, at: Millis)
    requires Allowed(b, u) && !u.preparation.CreationPrep?
    ensures var next := Submitted(b.(log := log), u, at);
      && KeepsMatches(b, next) && next.matches == b.matches
  {
    SubmittedIgnoresLog(b, log, u, at);
  }

  ghost predicate KeepsMatches(b: Store, next: Store) {
    b.games.Keys == next.games.Keys && forall id :: id in b.games ==> next.games[id].matchId == b.games[id].matchId
  }

  /** A step that is no creation keeps every record's match; only the end of a game touches the matches. */
  lemma {:induction false} OthersKeepMatches(b: Store, e: Event)
    requires Inv(b) && !IsCreation(e)
    ensures KeepsMatches(b, SmoothStep(b, e)) && SmoothStep(b, e).matches == MatchesAfter(b.matches, b, e)
  {
    match e
    case Submit(u, _, stamp) => if Allowed(b, u) { SavingKeepsMatches(b, Entered(b.log, u, stamp), u, stamp.saved); }
    case Resubmit(u, saved) => if Allowed(b, u) { SavingKeepsMatches(b, b.log, u, saved); }
    case Repair => SettledStays(b.games, b.creations, b.log);
    case _ =>
  }

  lemma {:induction false} OthersKeepDifference(matches: map<string, Option<string>>, b: Store, lost: set<string>,
          e: Event)
    requires DifferAt(matches, b, lost) && Inv(b) && !IsCreation(e)
    ensures DifferAt(MatchesAfter(matches, b, e), SmoothStep(b, e), lost)
  {
    OthersKeepMatches(b, e);
    if e.Complete? && e.gameId in b.games {
      EndKeepsDifference(matches, b, lost, SmoothStep(b, e), b.games[e.gameId]);
    } else {
      SameMatchesKeepDifference(matches, b, lost, SmoothStep(b, e));
    }
  }

  lemma {:induction false} SameMatchesKeepDifference(matches: map<string, Option<string>>, b: Store, lost: set<string>,
          next: Store)
    requires DifferAt(matches, b, lost) && KeepsMatches(b, next) && next.matches == b.matches
    ensures DifferAt(matches, next, lost)
  {
    forall id | id in lost ensures Astray(matches, next, id) { assert Astray(matches, b, id); }
  }

  lemma {:induction false} EndKeepsDifference(matches: map<string, Option<string>>, b: Store, lost: set<string>,
          next: Store, g: Game)
    requires DifferAt(matches, b, lost) && KeepsMatches(b, next) && next.matches == WithoutMatch(b.matches, g)
    ensures DifferAt(WithoutMatch(matches, g), next, lost)
  {
    forall id | id in lost ensures Astray(WithoutMatch(matches, g), next, id) { assert Astray(matches, b, id); }
  }

  lemma {:induction false} StepKeepsDifference(matches: map<string, Option<string>>, b: Store, lost: set<string>,
          e: Event)
    requires DifferAt(matches, b, lost) && Inv(b) && Publishes(b, lost, e) && (e.Submit? ==> Fresh(b, e.submission))
    ensures DifferAt(MatchesAfter(matches, b, e), SmoothStep(b, e), Orphans(lost, b, e))
  {
    if !IsCreation(e) {
      OthersKeepDifference(matches, b, lost, e);
    } else if e.Submit? {
      CreationKeepsDifference(matches, b, lost, e);
    } else {
      ResubmitKeepsDifference(matches, b, lost, e);
    }
  }

  /** What the step leaves to be published still fits the orphans. */
  lemma {:induction false} StillPublishes(b: Store, lost: set<string>, events: seq<Event>, later: Event)
    requires events != [] && OneGameToAMatch(events) && later in events && Inv(b)
    requires (events[0].Submit? ==> Fresh(b, events[0].submission))
    requires Publishes(b, lost, later) && lost <= b.games.Keys
    ensures Publishes(SmoothStep(b, events[0]), Orphans(lost, b, events[0]), later)
  {
    var e := events[0];
    var k :| 0 <= k < |events| && events[k] == later;
    if IsCreation(e) {
      var u := e.submission;
      if Allowed(b, u) {
        if e.Submit? { CompletedGames(b, u, e.stamp); } else { SubmittedIgnoresLog(b, b.log, u, e.saved); }
      }
      assert IsCreation(events[k]) ==> (events[k].submission.transactionId == u.transactionId
          ==> events[k].submission.preparation.matchId == u.preparation.matchId);
    } else {
      OthersKeepMatches(b, e);
    }
  }

  /** Step by step, a join finds its match as without the crashes unless it joins an orphan. */
  lemma {:induction false} OrphansMissTheirMatch(matches: map<string, Option<string>>, b: Store, lost: set<string>,
          events: seq<Event>)
    requires DifferAt(matches, b, lost) && Inv(b) && PossibleRun(b, events) && OneGameToAMatch(events)
    requires forall e :: e in events ==> Publishes(b, lost, e)
    ensures JoinsFindTheirMatch(matches, b, events) <==> NoOrphanIsJoined(lost, b, events)
    decreases |events|
  {
    if events != [] {
      var e := events[0];
      JoinMissesIff(matches, b, lost, e);
      if FindsItsMatch(matches, b, e) {
        StepKeepsDifference(matches, b, lost, e);
        StepAgreesWithItself(b, e);
        forall later | later in events[1..] ensures Publishes(SmoothStep(b, e), Orphans(lost, b, e), later) {
          StillPublishes(b, lost, events, later);
        }
        OneGameToTheRest(events);
        OrphansMissTheirMatch(MatchesAfter(matches, b, e), SmoothStep(b, e), Orphans(lost, b, e), events[1..]);
      }
    }
  }

  lemma OneGameToTheRest(events: seq<Event>)
    requires events != [] && OneGameToAMatch(events)
    ensures OneGameToAMatch(events[1..])
  {
    forall i, j | 0 <= i < |events[1..]| && 0 <= j < |events[1..]| && IsCreation(events[1..][i])
        && IsCreation(events[1..][j])
      ensures var u, v := events[1..][i].submission, events[1..][j].submission;
        && (u.transactionId == v.transactionId ==> u.preparation.matchId == v.preparation.matchId)
        && (u.preparation.matchId.Some? && u.preparation.matchId == v.preparation.matchId
            ==> u.transactionId == v.transactionId)
    {
      assert events[i + 1] == events[1..][i] && events[j + 1] == events[1..][j];
    }
  }

  lemma {:induction false} StepAgreesWithItself(b: Store, e: Event)
    requires Inv(b) && (e.Submit? ==> Fresh(b, e.submission)) && (e.Resubmit? ==> LosesNothing(b, e.submission))
    ensures Inv(SmoothStep(b, e))
  {
    StepAgrees(b.(matches := b.matches), b, if e.Submit? then e.(crash := false) else e);
  }

  lemma {:induction false} JoinMissesIff(matches: map<string, Option<string>>, b: Store, lost: set<string>, e: Event)
    requires DifferAt(matches, b, lost)
    ensures FindsItsMatch(matches, b, e) <==> (IsJoin(e) && Accepts(b, e.submission)
        ==> e.submission.preparation.gameId !in lost)
  {
  }

  /** If each match is given one game, crashes show in the games exactly when a game whose creation was cut off
      before it reached its match is joined before that creation is submitted again. */
  lemma {:induction false} CrashesShowInOrphansOnly(a: Store, b: Store, events: seq<Event>)
    requires SameStores(a, b) && a.matches == b.matches && Inv(b) && PossibleRun(b, events) && OneGameToAMatch(events)
    ensures AlwaysAlike(a, b, events) <==> NoOrphanIsJoined({}, b, events)
  {
    CrashesLeaveNoTraceIff(a, b, events);
    OrphansMissTheirMatch(a.matches, b, {}, events);
  }

  // --- Submitting a creation again -----------------------------------------

  /** A creation whose operation is already broadcast is not sent again, but its record is saved again. */
  function Resubmitted(s: Store, u: Submission, now: Millis): Store {
    Submitted(s, u, now)
  }

  /** The record came from this creation. */
  ghost predicate CameFrom(g: Game, u: Submission) {
    u.preparation.CreationPrep? && g.gameId == u.transactionId && g.request == u.preparation.request
    && g.prepared == u.preparation.prepared && g.creationHash == u.preparedHash && g.matchId == u.preparation.matchId
  }

  /** What a read of the chain may write back to a record. */
  datatype Reading = Reading(status: string, attempts: seq<string>)

  function ReadingOf(g: Game): Reading {
    Reading(g.status, g.attempts)
  }

  predicate Unmarked(g: Game) {
    g.join.None? && g.safety == [] && g.automatic.None?
  }

  lemma {:induction false} HarmlessIffBlank(s: Store, u: Submission, now: Millis)
    requires u.transactionId in s.games && CameFrom(s.games[u.transactionId], u)
    ensures Timeless(Resubmitted(s, u, now).games[u.transactionId]) == Timeless(s.games[u.transactionId])
      <==> Unmarked(s.games[u.transactionId]) && ReadingOf(s.games[u.transactionId]) == Reading("broadcast", [])
  {
    var g := s.games[u.transactionId];
    assert |TimelessSafety(g.safety)| == |g.safety|;
    assert TimelessSafety([]) == [];
  }

  /** The event records a join, a refund or a settlement of the game. */
  predicate Marks(s: Store, e: Event, id: string) {
    e.Submit? && !e.submission.preparation.CreationPrep? && GameOf(e.submission) == id && Accepts(s, e.submission)
  }

  ghost predicate EverMarked(s: Store, events: seq<Event>, id: string)
    decreases |events|
  {
    events != [] && (Marks(s, events[0], id) || EverMarked(SmoothStep(s, events[0]), events[1..], id))
  }

  /** What the reads wrote back about the game, last. */
  function LastReading(events: seq<Event>, id: string, r: Reading): Reading
    decreases |events|
  {
    if events == [] then r
    else
      var next := match events[0]
        case Progress(game, status, attempts) => if game == id then Reading(status, attempts) else r
        case Complete(game, status) => if game == id then Reading(status, r.attempts) else r
        case _ => r;
      LastReading(events[1..], id, next)
  }

  lemma FirstReading(events: seq<Event>, id: string, r: Reading)
    requires events != []
    ensures LastReading(events, id, r) == LastReading(events[1..], id, LastReading([events[0]], id, r))
  {
    var e := events[0];
    assert [e][1..] == [];
  }

  predicate IsCreationOf(e: Event, id: string) {
    IsCreation(e) && e.submission.transactionId == id
  }

  /** What one step makes of the game's record. */
  ghost predicate MarksAlong(s: Store, e: Event, u: Submission) {
    var id, next := u.transactionId, SmoothStep(s, e);
    && id in s.games && id in next.games && CameFrom(next.games[id], u)
    && (Unmarked(next.games[id]) <==> Unmarked(s.games[id]) && !Marks(s, e, id))
    && (Unmarked(next.games[id]) ==> ReadingOf(next.games[id]) == LastReading([e], id, ReadingOf(s.games[id])))
  }

  lemma {:induction false} SubmitMarks(s: Store, e: Event, u: Submission)
    requires e.Submit? && Fresh(s, e.submission) && u.transactionId in s.games && CameFrom(s.games[u.transactionId], u)
    ensures MarksAlong(s, e, u)
  {
    assert [e][1..] == [];
    if Allowed(s, e.submission) { CompletedGames(s, e.submission, e.stamp); }
  }

  lemma {:induction false} ResubmitMarks(s: Store, e: Event, u: Submission)
    requires Inv(s) && e.Resubmit? && u.transactionId in s.games && CameFrom(s.games[u.transactionId], u)
    requires !IsCreationOf(e, u.transactionId)
    ensures MarksAlong(s, e, u)
  {
    assert [e][1..] == [];
    var v := e.submission;
    if InLog(s.log, v) && Allowed(s, v) {
      KnownIsShown(s, v);
      SubmittedIgnoresLog(s, s.log, v, e.saved);
      var i :| 0 <= i < |s.log| && s.log[i] == Logged(v, s.log[i].createdAt, s.log[i].updatedAt);
      assert Shows(s.games, s.creations, s.log[i]);
    }
  }

  lemma {:induction false} AStepMarksIff(s: Store, e: Event, u: Submission)
    requires Inv(s) && (e.Submit? ==> Fresh(s, e.submission)) && (e.Resubmit? ==> LosesNothing(s, e.submission))
    requires u.transactionId in s.games && CameFrom(s.games[u.transactionId], u) && !IsCreationOf(e, u.transactionId)
    ensures MarksAlong(s, e, u)
  {
    match e
    case Submit(_, _, _) => SubmitMarks(s, e, u);
    case Resubmit(_, _) => ResubmitMarks(s, e, u);
    case Repair => SettledStays(s.games, s.creations, s.log);
    case _ =>
  }

  lemma {:induction false} MarkedIff(s: Store, events: seq<Event>, u: Submission)
    requires Inv(s) && PossibleRun(s, events)
    requires u.transactionId in s.games && CameFrom(s.games[u.transactionId], u)
    requires forall e :: e in events ==> !IsCreationOf(e, u.transactionId)
    ensures var id, end := u.transactionId, SmoothRun(s, events);
      && id in end.games && CameFrom(end.games[id], u)
      && (Unmarked(end.games[id]) <==> Unmarked(s.games[id]) && !EverMarked(s, events, id))
      && (Unmarked(end.games[id]) ==> ReadingOf(end.games[id]) == LastReading(events, id, ReadingOf(s.games[id])))
    decreases |events|
  {
    if events != [] {
      AStepMarksIff(s, events[0], u);
      StepAgreesWithItself(s, events[0]);
      FirstReading(events, u.transactionId, ReadingOf(s.games[u.transactionId]));
      MarkedIff(SmoothStep(s, events[0]), events[1..], u);
    }
  }

  /** Submitting a creation again is harmless exactly until the game is joined, refunded or settled, and as long
      as no read has written back another status or an attempt to reveal. */
  lemma {:induction false} ResubmissionHarmlessIff(s: Store, u: Submission, stamp: Stamp, events: seq<Event>,
          now: Millis)
    requires Inv(s) && Admissible(s, u) && u.preparation.CreationPrep?
    requires var created := Completed(s, u, stamp);
      PossibleRun(created, events) && forall e :: e in events ==> !IsCreationOf(e, u.transactionId)
    ensures var created := Completed(s, u, stamp);
      var end := SmoothRun(created, events);
      && u.transactionId in end.games
      && (Timeless(Resubmitted(end, u, now).games[u.transactionId]) == Timeless(end.games[u.transactionId])
          <==> !EverMarked(created, events, u.transactionId)
               && LastReading(events, u.transactionId, Reading("broadcast", [])) == Reading("broadcast", []))
  {
    var created := Completed(s, u, stamp);
    CompletedGames(s, u, stamp);
    CompletedKeeps(s, u, stamp);
    MarkedIff(created, events, u);
    HarmlessIffBlank(SmoothRun(created, events), u, now);
  }

  lemma {:induction false} RepairRestoresNoAttempt(games: map<string, Game>, creations: map<string, Preparation>,
          log: seq<Operation>, id: string)
    requires id in games && games[id].attempts == []
    ensures id in RepairAll(games, creations, log) && RepairAll(games, creations, log)[id].attempts == []
    decreases |log|
  {
    if log != [] { RepairRestoresNoAttempt(RepairOne(games, creations, log[0]), creations, log[1..], id); }
  }

  lemma {:induction false} RepairRestoresJoin(games: map<string, Game>, creations: map<string, Preparation>,
          log: seq<Operation>, op: Operation)
    requires op in log && op.metadata.JoinMeta? && op.status.Broadcast? && op.transactionId.Some? && op.gameId in games
    ensures op.gameId in RepairAll(games, creations, log) && RepairAll(games, creations, log)[op.gameId].join.Some?
    decreases |log|
  {
    var next := RepairOne(games, creations, log[0]);
    if log[0] == op {
      JoinStays(next, creations, log[1..], op.gameId);
    } else {
      RepairRestoresJoin(next, creations, log[1..], op);
    }
  }

  lemma {:induction false} JoinStays(games: map<string, Game>, creations: map<string, Preparation>,
          log: seq<Operation>, id: string)
    requires id in games && games[id].join.Some?
    ensures id in RepairAll(games, creations, log) && RepairAll(games, creations, log)[id].join.Some?
    decreases |log|
  {
    if log != [] { JoinStays(RepairOne(games, creations, log[0]), creations, log[1..], id); }
  }

  /** A resubmission of a joined game drops the join and every reveal attempt; the next repair brings back a
      join that is in the log, but no repair brings back a reveal. */
  lemma {:induction false} ResubmissionForgets(s: Store, u: Submission, now: Millis, op: Operation)
    requires u.preparation.CreationPrep? && op in s.log && op.gameId == u.transactionId
    requires op.metadata.JoinMeta? && op.status.Broadcast? && op.transactionId.Some?
    ensures var after := Resubmitted(s, u, now);
      && after.games[u.transactionId].join.None? && after.games[u.transactionId].attempts == []
      && u.transactionId in Reconcile(after).games
      && Reconcile(after).games[u.transactionId].join.Some? && Reconcile(after).games[u.transactionId].attempts == []
  {
    var after := Resubmitted(s, u, now);
    RepairRestoresJoin(after.games, after.creations, after.log, op);
    RepairRestoresNoAttempt(after.games, after.creations, after.log, u.transactionId);
  }
}
