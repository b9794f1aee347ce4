/** Crashes in runs where a creation submitted again may wipe joins, refunds and settlements from its record. */
module CrashedLosses {
  import opened Outcomes
  import opened CrashRepair
  import opened CrashRepairRuns
  import opened CrashRepairLimits
  import opened CrashedCreations

  // --- What the node takes -------------------------------------------------

  /** Two accepted operations that one chain does not hold: one transaction twice, two joins of one game, or two
      settlements of it. */
  predicate Rivals(op: Operation, other: Operation) {
    && op.status.Broadcast? && other.status.Broadcast?
    && (op.transactionId == other.transactionId
        || (op.gameId == other.gameId && op.metadata.JoinMeta? && other.metadata.JoinMeta?)
        || (op.gameId == other.gameId && op.metadata.SettlementMeta? && other.metadata.SettlementMeta?))
  }

  /** The submission is no rival of anything the log holds. */
  predicate Unrivalled(log: seq<Operation>, u: Submission) {
    forall op :: op in log ==> !Rivals(op, Logged(u, 0, 0))
  }

  /** No game of the log was settled by two transactions. */
  ghost predicate OneSettlement(log: seq<Operation>) {
    forall op, other ::
      op in log && other in log && IsSettlement(op) && IsSettlement(other) && op.gameId == other.gameId ==>
      op.transactionId == other.transactionId
  }

  /** The log speaks only of games the store has, and settles each by one transaction. */
  ghost predicate Sound(s: Store) {
    OneSettlement(s.log) && forall op :: op in s.log && NamesAGame(op) ==> op.gameId in s.games
  }

  /** Any run on one chain; what is submitted again may lose what its record held. */
  ghost predicate ChainRun(s: Store, events: seq<Event>)
    decreases |events|
  {
    events == []
    || ((events[0].Submit? ==> Fresh(s, events[0].submission) && Unrivalled(s.log, events[0].submission))
        && ChainRun(SmoothStep(s, events[0]), events[1..]))
  }

  lemma {:induction false} EnteredIsSound(s: Store, u: Submission, stamp: Stamp)
    requires Sound(s) && Allowed(s, u) && Unrivalled(s.log, u)
    ensures Sound(Completed(s, u, stamp))
  {
    CompletedGames(s, u, stamp);
    var op, log := Logged(u, stamp.started, stamp.answered), Entered(s.log, u, stamp);
    forall other | other in s.log && IsSettlement(other) && IsSettlement(op) ensures other.gameId != op.gameId {
      assert !Rivals(other, Logged(u, 0, 0));
    }
  }

  lemma {:induction false} StepIsSound(s: Store, e: Event)
    requires Sound(s) && (e.Submit? ==> Unrivalled(s.log, e.submission))
    ensures Sound(SmoothStep(s, e))
  {
    match e
    case Submit(u, _, stamp) => if Accepts(s, u) { EnteredIsSound(s, u, stamp); }
    case Resubmit(u, saved) => if Allowed(s, u) { SubmittedIgnoresLog(s, s.log, u, saved); }
    case Repair => RepairKeepsGames(s.games, s.creations, s.log);
    case _ =>
  }

  // --- One repair shows the whole log --------------------------------------

  /** One repair hides nothing that a single settlement of each game has left shown. */
  lemma {:induction false} OneRepairKeeps(games: map<string, Game>, creations: map<string, Preparation>,
          before: Operation, op: Operation)
    requires Shows(games, creations, before) && (NamesAGame(before) ==> before.gameId in games)
    requires OneSettlement([before, op])
    ensures Shows(RepairOne(games, creations, op), creations, before)
  {
    var next := RepairOne(games, creations, op);
    if next != games {
      var id := if op.metadata.CreationMeta? then op.transactionId.value else op.gameId;
      if op.metadata.RefundMeta? { SafetyAppend(games[id], next[id], next[id].safety[|games[id].safety|]); }
      assert before in [before, op] && op in [before, op];
    }
  }

  lemma {:induction false} RepairShowsAll(games: map<string, Game>, creations: map<string, Preparation>,
          log: seq<Operation>)
    requires OneSettlement(log) && forall op :: op in log && NamesAGame(op) ==> op.gameId in games
    ensures forall op :: op in log ==> Shows(RepairAll(games, creations, log), creations, op)
    decreases |log|
  {
    if log != [] {
      var before, last := log[..|log| - 1], log[|log| - 1];
      assert log == before + [last];
      RepairShowsAll(games, creations, before);
      RepairAppend(games, creations, before, last);
      RepairKeepsGames(games, creations, before);
      var repaired := RepairAll(games, creations, before);
      RepairShows(repaired, creations, last);
      forall op | op in before ensures Shows(RepairOne(repaired, creations, last), creations, op) {
        assert op in log && last in log;
        OneRepairKeeps(repaired, creations, op, last);
      }
    }
  }

  // --- Repairs of equal stores ---------------------------------------------

  lemma {:induction false} OneRepairAlike(a: map<string, Game>, b: map<string, Game>,
          creations: map<string, Preparation>, op: Operation, oq: Operation)
    requires SameGames(a, b) && op.(createdAt := 0, updatedAt := 0) == oq.(createdAt := 0, updatedAt := 0)
    ensures SameGames(RepairOne(a, creations, op), RepairOne(b, creations, oq))
  {
    ShowsIff(a, creations, op);
    ShowsIff(b, creations, oq);
    ShowsIsTimeless(a, b, creations, op, oq);
    if !Shows(a, creations, op) {
      var id := if op.metadata.CreationMeta? then op.transactionId.value else op.gameId;
      var g, h := RepairOne(a, creations, op)[id], RepairOne(b, creations, oq)[id];
      if op.metadata.RefundMeta? {
        TimelessAppend(a[id].safety, g.safety[|a[id].safety|]);
        TimelessAppend(b[id].safety, h.safety[|b[id].safety|]);
      }
      ReplacedAlike(a, b, id, g, h);
    }
  }

  lemma {:induction false} RepairsAlike(a: map<string, Game>, b: map<string, Game>,
          creations: map<string, Preparation>, log: seq<Operation>, other: seq<Operation>)
    requires SameGames(a, b) && SameLog(log, other)
    ensures SameGames(RepairAll(a, creations, log), RepairAll(b, creations, other))
    decreases |log|
  {
    if log != [] {
      assert log[0].(createdAt := 0, updatedAt := 0) == other[0].(createdAt := 0, updatedAt := 0);
      assert SameLog(log[1..], other[1..]);
      OneRepairAlike(a, b, creations, log[0], other[0]);
      RepairsAlike(RepairOne(a, creations, log[0]), RepairOne(b, creations, other[0]), creations, log[1..], other[1..]);
    }
  }

  // --- One step ------------------------------------------------------------

  /** What a join is checked against, also when it is submitted again. */
  predicate Joins(b: Store, e: Event) {
    (e.Submit? || (e.Resubmit? && InLog(b.log, e.submission))) && e.submission.preparation.JoinPrep?
  }

  /** The join, new or again, finds its match as it would have found it without the crashes. */
  ghost predicate FindsMatch(matches: map<string, Option<string>>, b: Store, e: Event) {
    Joins(b, e) && Allowed(b, e.submission) ==>
      var id := e.submission.preparation.gameId;
      Named(matches, b.games[id], id) <==> Named(b.matches, b.games[id], id)
  }

  /** The call is cut off while no record lacks what it once held. */
  ghost predicate CutOffInOrder(b: Store, e: Event) {
    e.Submit? && e.crash && Accepts(b, e.submission) ==> Settled(b)
  }

  /** Both runs take the call, or neither does. */
  lemma {:induction false} CallsAlike(a: Store, b: Store, e: Event)
    requires SameStores(a, b) && FindsMatch(a.matches, b, e)
    requires e.Submit? || (e.Resubmit? && InLog(b.log, e.submission))
    ensures Accepts(a, e.submission) <==> Accepts(b, e.submission)
  {
    AcceptsAlike(a, b, e.submission);
    AdmissibleIsTimeless(a, b, e.submission);
  }

  lemma {:induction false} SubmitsAlike(a: Store, b: Store, e: Event)
    requires SameStores(a, b) && Sound(b) && FindsMatch(a.matches, b, e) && CutOffInOrder(b, e)
    requires e.Submit? && Fresh(b, e.submission)
    ensures SameStores(Step(a, e), SmoothStep(b, e))
  {
    var u := e.submission;
    CallsAlike(a, b, e);
    if Accepts(b, u) {
      AdmissibleIsTimeless(a, b, u);
      if e.crash { CutOffAlike(a, b, u, e.stamp); } else { SavesAgree(a, b, u, e.stamp); }
    }
  }

  lemma {:induction false} ResubmitsAlike(a: Store, b: Store, e: Event)
    requires SameStores(a, b) && FindsMatch(a.matches, b, e) && e.Resubmit?
    ensures SameStores(Step(a, e), SmoothStep(b, e))
  {
    var u := e.submission;
    KnownIsTimeless(a.log, b.log, u);
    if InLog(b.log, u) {
      CallsAlike(a, b, e);
      if Accepts(a, u) { AgainAgrees(a, b, u, e.saved); }
    }
  }

  lemma {:induction false} StepsAlike(a: Store, b: Store, e: Event)
    requires SameStores(a, b) && Sound(b) && FindsMatch(a.matches, b, e) && CutOffInOrder(b, e)
    requires e.Submit? ==> Fresh(b, e.submission)
    ensures SameStores(Step(a, e), SmoothStep(b, e))
  {
    match e
    case Submit(_, _, _) => SubmitsAlike(a, b, e);
    case Resubmit(_, _) => ResubmitsAlike(a, b, e);
    case Repair => RepairsAlike(a.games, b.games, a.creations, a.log, b.log);
    case _ => ProgressAgrees(a, b, e);
  }

  lemma {:induction false} CutOffAlike(a: Store, b: Store, u: Submission, stamp: Stamp)
    requires SameStores(a, b) && Sound(b) && Settled(b) && Admissible(b, u)
    ensures SameStores(CrashedAndRepaired(a, u, stamp), Completed(b, u, stamp))
  {
    InvIsTimeless(a, b);
    AdmissibleIsTimeless(a, b, u);
    RepairIsTheSave(a, b, u, stamp);
  }

  // --- Where the crashes show ----------------------------------------------

  /** A save brings nothing lost back: on one chain it is no second join, refund or settlement of the kind. */
  lemma {:induction false} SaveShowsNoLoss(s: Store, u: Submission, at: Millis, op: Operation)
    requires Allowed(s, u) && Unrivalled(s.log, u) && op in s.log && !Shows(s.games, s.creations, op)
    ensures !Shows(s.games[GameOf(u) := SavedGame(s, u, at)], s.creations, op)
  {
    assert !Rivals(op, Logged(u, 0, 0));
  }

  /** What one repair shows and another record does not tells the two apart, whatever the clocks said. */
  lemma {:induction false} ShownApart(games: map<string, Game>, other: map<string, Game>,
          creations: map<string, Preparation>, op: Operation)
    requires Shows(games, creations, op) && !Shows(other, creations, op)
    ensures !SameGames(games, other)
  {
    if SameGames(games, other) { ShowsIsTimeless(games, other, creations, op, op); }
  }

  lemma SameGamesChain(a: map<string, Game>, b: map<string, Game>, c: map<string, Game>)
    requires SameGames(a, b) && SameGames(a, c)
    ensures SameGames(b, c)
  {
  }

  /** A repair shows what a record has lost, and the call that ran to its end does not. */
  lemma {:induction false} LossShowsAtOnce(b: Store, u: Submission, stamp: Stamp)
    requires Sound(b) && Allowed(b, u) && Unrivalled(b.log, u) && !Settled(b)
    ensures !SameGames(CrashedAndRepaired(b, u, stamp).games, Completed(b, u, stamp).games)
  {
    EnteredIsSound(b, u, stamp);
    CompletedGames(b, u, stamp);
    RepairShowsAll(b.games, b.creations, Entered(b.log, u, stamp));
    var op :| op in b.log && !Shows(b.games, b.creations, op);
    SaveShowsNoLoss(b, u, stamp.saved, op);
    ShownApart(CrashedAndRepaired(b, u, stamp).games, Completed(b, u, stamp).games, b.creations, op);
  }

  lemma {:induction false} LossShows(a: Store, b: Store, u: Submission, stamp: Stamp)
    requires SameStores(a, b) && Sound(b) && Allowed(b, u) && Unrivalled(b.log, u) && !Settled(b)
    ensures !SameGames(CrashedAndRepaired(a, u, stamp).games, Completed(b, u, stamp).games)
  {
    var x, y, z := CrashedAndRepaired(a, u, stamp).games, CrashedAndRepaired(b, u, stamp).games,
        Completed(b, u, stamp).games;
    EnteredAlike(a.log, b.log, u, stamp);
    RepairsAlike(a.games, b.games, a.creations, Entered(a.log, u, stamp), Entered(b.log, u, stamp));
    LossShowsAtOnce(b, u, stamp);
    if SameGames(x, z) { SameGamesChain(x, y, z); }
  }

  /** A join that one run takes and the other refuses: both records were without one. */
  lemma {:induction false} StrayIsRefused(a: Store, b: Store, e: Event)
    requires SameStores(a, b) && !FindsMatch(a.matches, b, e)
    ensures Accepts(a, e.submission) <==> !Accepts(b, e.submission)
    ensures Allowed(a, e.submission) && e.submission.preparation.JoinPrep?
  {
    AcceptsAlike(a, b, e.submission);
    AdmissibleIsTimeless(a, b, e.submission);
  }

  /** A join that is taken is in the record after. */
  lemma {:induction false} StepJoinsIff(s: Store, e: Event)
    requires e.Submit? || (e.Resubmit? && InLog(s.log, e.submission))
    requires Allowed(s, e.submission) && e.submission.preparation.JoinPrep?
    ensures var id := e.submission.preparation.gameId;
      id in Step(s, e).games && (Step(s, e).games[id].join.Some? <==> Accepts(s, e.submission))
  {
    if e.Submit? && e.crash && Accepts(s, e.submission) { RepairJoins(s, e.submission, e.stamp); }
  }

  lemma {:induction false} StrayShows(a: Store, b: Store, e: Event)
    requires SameStores(a, b) && !FindsMatch(a.matches, b, e)
    ensures !SameGames(Step(a, e).games, SmoothStep(b, e).games)
  {
    var id := e.submission.preparation.gameId;
    StrayIsRefused(a, b, e);
    if e.Resubmit? { KnownIsTimeless(a.log, b.log, e.submission); }
    StepJoinsIff(a, e);
    StepJoinsIff(b, if e.Submit? then e.(crash := false) else e);
    assert Timeless(Step(a, e).games[id]).join.Some? <==> !Timeless(SmoothStep(b, e).games[id]).join.Some?;
  }

  lemma {:induction false} RepairJoins(s: Store, u: Submission, stamp: Stamp)
    requires Allowed(s, u) && u.preparation.JoinPrep?
    ensures var id := u.preparation.gameId;
      id in CrashedAndRepaired(s, u, stamp).games && CrashedAndRepaired(s, u, stamp).games[id].join.Some?
  {
    var op := Logged(u, stamp.started, stamp.answered);
    RepairRestoresJoin(s.games, s.creations, Entered(s.log, u, stamp), op);
  }

  lemma {:induction false} StepShows(a: Store, b: Store, e: Event)
    requires SameStores(a, b) && Sound(b) && (e.Submit? ==> Unrivalled(b.log, e.submission))
    requires !FindsMatch(a.matches, b, e) || !CutOffInOrder(b, e)
    ensures !SameGames(Step(a, e).games, SmoothStep(b, e).games)
  {
    if !FindsMatch(a.matches, b, e) {
      StrayShows(a, b, e);
    } else {
      AcceptsAlike(a, b, e.submission);
      LossShows(a, b, e.submission, e.stamp);
    }
  }

  // --- Whole runs ----------------------------------------------------------

  /** Every join, new or again, finds its match as the crashes have left it, and no call is cut off while a join,
      a refund or a settlement that its record lost waits for the repair. */
  ghost predicate CrashesFindAllInOrder(matches: map<string, Option<string>>, b: Store, events: seq<Event>)
    decreases |events|
  {
    events == []
    || (FindsMatch(matches, b, events[0]) && CutOffInOrder(b, events[0])
        && CrashesFindAllInOrder(MatchesAfter(matches, b, events[0]), SmoothStep(b, events[0]), events[1..]))
  }

  /** In any run on one chain, whatever its resubmissions lose: the games are at every moment as if the service
      had never crashed, up to timestamps, exactly under those two conditions. */
  lemma {:induction false} LossyRunsLeaveNoTraceIff(a: Store, b: Store, events: seq<Event>)
    requires SameStores(a, b) && Sound(b) && ChainRun(b, events)
    ensures AlwaysAlike(a, b, events) <==> CrashesFindAllInOrder(a.matches, b, events)
    ensures CrashesFindAllInOrder(a.matches, b, events) ==> SameStores(Run(a, events), SmoothRun(b, events))
    decreases |events|
  {
    if events != [] {
      var e := events[0];
      MatchesFollow(a, b, e);
      if FindsMatch(a.matches, b, e) && CutOffInOrder(b, e) {
        StepsAlike(a, b, e);
        StepIsSound(b, e);
        LossyRunsLeaveNoTraceIff(Step(a, e), SmoothStep(b, e), events[1..]);
      } else {
        StepShows(a, b, e);
      }
    }
  }

  /** However much the resubmissions of such a run have lost, one repair finds every join, refund and settlement
      of its log again, and with it the next crash leaves no trace but in the matches. */
  lemma {:induction false} OneRepairFindsAll(s: Store, events: seq<Event>)
    requires Sound(s) && ChainRun(s, events)
    ensures Settled(Reconcile(SmoothRun(s, events)))
    decreases |events|
  {
    if events == [] {
      RepairShowsAll(s.games, s.creations, s.log);
    } else {
      StepIsSound(s, events[0]);
      OneRepairFindsAll(SmoothStep(s, events[0]), events[1..]);
    }
  }
}
