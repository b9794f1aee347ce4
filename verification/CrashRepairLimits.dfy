/** When a repair is done once and for all, and when the next one changes the games again. */
module CrashRepairLimits {
  import opened Outcomes
  import opened CrashRepair
  import opened CrashRepairRuns

  // --- Creations come first ------------------------------------------------

  ghost predicate IsSettlement(op: Operation) {
    op.metadata.SettlementMeta? && op.status.Broadcast? && op.transactionId.Some?
  }

  ghost predicate Creates(op: Operation, id: string) {
    op.metadata.CreationMeta? && op.status.Broadcast? && op.transactionId == Some(id)
  }

  /** A game's creation stands before everything else about it. */
  ghost predicate CreationsFirst(log: seq<Operation>) {
    forall i, j :: 0 <= i < j < |log| && NamesAGame(log[i]) ==> !Creates(log[j], log[i].gameId)
  }

  const KEEPER_ACTIONS := ["refund_open", "refund_all", "fallback_claim"]

  /** No settlement leaves a status that a join or a refund leaves. */
  ghost predicate OwnStatuses(log: seq<Operation>) {
    forall op :: op in log && op.metadata.SettlementMeta? ==> op.metadata.status != "join_broadcast"
                                                              && op.metadata.status != "creator_refund_broadcast"
  }

  ghost predicate WellLogged(s: Store) {
    && CreationsFirst(s.log) && OwnStatuses(s.log)
    && forall op :: op in s.log && NamesAGame(op) ==> op.gameId in s.games
  }

  /** The operation was first tried after its game was created, and only the keeper settles. */
  ghost predicate Orderly(log: seq<Operation>, u: Submission, stamp: Stamp) {
    && (!u.preparation.CreationPrep? ==> forall j :: PlaceIn(log, stamp) <= j < |log| ==> !Creates(log[j], GameOf(u)))
    && (u.preparation.SettlementPrep? ==> u.preparation.action in KEEPER_ACTIONS)
  }

  /** Every transaction of the run is new to the store it reaches. */
  ghost predicate FreshRun(s: Store, events: seq<Event>)
    decreases |events|
  {
    events == []
    || ((events[0].Submit? ==> Fresh(s, events[0].submission) && Orderly(s.log, events[0].submission, events[0].stamp))
        && FreshRun(Step(s, events[0]), events[1..]))
  }

  lemma {:induction false} RepairKeepsGames(games: map<string, Game>, creations: map<string, Preparation>,
          log: seq<Operation>)
    ensures games.Keys <= RepairAll(games, creations, log).Keys
    decreases |log|
  {
    if log != [] { RepairKeepsGames(RepairOne(games, creations, log[0]), creations, log[1..]); }
  }

  /** Every operation stands in this relation to every later one. */
  ghost predicate Pairwise(related: (Operation, Operation) -> bool, log: seq<Operation>) {
    forall i, j :: 0 <= i < j < |log| ==> related(log[i], log[j])
  }

  /** Operations that outlive a game keep their order. */
  lemma {:induction false} DroppingKeepsOrder(related: (Operation, Operation) -> bool, log: seq<Operation>, id: string)
    requires Pairwise(related, log)
    ensures Pairwise(related, WithoutGame(log, id))
    decreases |log|
  {
    if log != [] {
      DroppingKeepsOrder(related, log[1..], id);
      var rest := WithoutGame(log[1..], id);
      forall j | 0 <= j < |rest| ensures related(log[0], rest[j]) {
        assert rest[j] in log[1..];
        var k :| 0 <= k < |log[1..]| && log[1..][k] == rest[j];
        assert log[k + 1] == rest[j];
      }
    }
  }

  lemma {:induction false} DroppingKeepsCreationsFirst(log: seq<Operation>, id: string)
    requires CreationsFirst(log)
    ensures CreationsFirst(WithoutGame(log, id))
  {
    DroppingKeepsOrder((a: Operation, b: Operation) => NamesAGame(a) ==> !Creates(b, a.gameId), log, id);
  }

  lemma {:induction false} EnteredKeepsCreationsFirst(s: Store, u: Submission, stamp: Stamp)
    requires WellLogged(s) && Admissible(s, u) && Orderly(s.log, u, stamp)
    ensures CreationsFirst(Entered(s.log, u, stamp))
  {
    var op, k, log := Logged(u, stamp.started, stamp.answered), PlaceIn(s.log, stamp), Entered(s.log, u, stamp);
    forall i, j | 0 <= i < j < |log| && NamesAGame(log[i]) ensures !Creates(log[j], log[i].gameId) {
      if i == k {
        assert log[j] == s.log[j - 1];
      } else if j == k {
        assert log[i] == s.log[i] && s.log[i] in s.log;
      } else {
        assert log[i] == s.log[if i < k then i else i - 1] && log[j] == s.log[if j < k then j else j - 1];
      }
    }
  }

  lemma {:induction false} SubmitWellLogged(s: Store, u: Submission, stamp: Stamp)
    requires WellLogged(s) && Admissible(s, u) && Orderly(s.log, u, stamp)
    ensures WellLogged(s.(log := Entered(s.log, u, stamp)))
  {
    EnteredKeepsCreationsFirst(s, u, stamp);
    if u.preparation.SettlementPrep? { KeeperStatus(u); }
  }

  lemma KeeperStatus(u: Submission)
    requires u.preparation.SettlementPrep? && u.preparation.action in KEEPER_ACTIONS
    ensures u.preparation.action + "_broadcast" != "join_broadcast"
    ensures u.preparation.action + "_broadcast" != "creator_refund_broadcast"
  {
    assert ("join_broadcast")[0] == 'j' && ("creator_refund_broadcast")[0] == 'c';
  }

  lemma {:induction false} StepWellLogged(s: Store, e: Event)
    requires WellLogged(s) && (e.Submit? ==> Fresh(s, e.submission) && Orderly(s.log, e.submission, e.stamp))
    ensures WellLogged(Step(s, e))
  {
    match e
    case Submit(u, crash, stamp) =>
      if Accepts(s, u) {
        SubmitWellLogged(s, u, stamp);
        if crash {
          RepairKeepsGames(s.games, s.creations, Entered(s.log, u, stamp));
        } else {
          CompletedGames(s, u, stamp);
        }
      }
    case Resubmit(u, saved) => if Allowed(s, u) { SubmittedIgnoresLog(s, s.log, u, saved); }
    case Repair => RepairKeepsGames(s.games, s.creations, s.log);
    case Progress(_, _, _) =>
    case Complete(id, _) => DroppingKeepsCreationsFirst(s.log, id);
  }

  /** In every run, whatever crashes and is submitted again, the log names a game only after its creation, and
      its settlements have statuses of their own. */
  lemma {:induction false} EveryRunIsWellLogged(s: Store, events: seq<Event>)
    requires WellLogged(s) && FreshRun(s, events)
    ensures WellLogged(Run(s, events))
    decreases |events|
  {
    if events != [] {
      StepWellLogged(s, events[0]);
      EveryRunIsWellLogged(Step(s, events[0]), events[1..]);
    }
  }

  // --- Repairing twice -----------------------------------------------------

  ghost predicate SettlementOf(op: Operation, id: string) {
    IsSettlement(op) && op.gameId == id
  }

  ghost function LastSettlement(log: seq<Operation>, id: string): (r: Option<Operation>)
    ensures r.Some? ==> r.value in log && SettlementOf(r.value, id)
    ensures r.None? ==> forall op :: op in log ==> !SettlementOf(op, id)
    decreases |log|
  {
    if log == [] then None
    else
      var op := log[|log| - 1];
      assert log == log[..|log| - 1] + [op];
      if SettlementOf(op, id) then Some(op) else LastSettlement(log[..|log| - 1], id)
  }

  /** Where the log last changes the game's settlement: to one that follows one of another transaction. */
  ghost function LastRewriteAt(log: seq<Operation>, id: string): (r: Option<nat>)
    ensures r.Some? ==> r.value < |log| && SettlementOf(log[r.value], id)
    decreases |log|
  {
    if log == [] then None
    else
      var before, op := log[..|log| - 1], log[|log| - 1];
      if SettlementOf(op, id) && LastSettlement(before, id).Some?
          && LastSettlement(before, id).value.transactionId != op.transactionId
      then Some(|before|)
      else LastRewriteAt(before, id)
  }

  /** The settlement a repair writes last. */
  ghost function LastRewrite(log: seq<Operation>, id: string): (r: Option<Operation>)
    ensures r.Some? ==> r.value in log && SettlementOf(r.value, id)
  {
    var at := LastRewriteAt(log, id);
    if at.None? then None else Some(log[at.value])
  }

  /** The log holds two different broadcast settlements of the game. */
  ghost predicate Contested(log: seq<Operation>, id: string) {
    exists i, j :: 0 <= i < j < |log| && SettlementOf(log[i], id) && SettlementOf(log[j], id)
        && log[i].transactionId != log[j].transactionId
  }

  lemma {:induction false} UncontestedAgree(log: seq<Operation>, id: string)
    requires LastRewrite(log, id).None?
    ensures forall i :: 0 <= i < |log| && SettlementOf(log[i], id) ==>
        LastSettlement(log, id).Some? && LastSettlement(log, id).value.transactionId == log[i].transactionId
    decreases |log|
  {
    if log != [] {
      var before := log[..|log| - 1];
      UncontestedAgree(before, id);
      forall i | 0 <= i < |log| && SettlementOf(log[i], id)
        ensures LastSettlement(log, id).Some? && LastSettlement(log, id).value.transactionId == log[i].transactionId
      {
        if i < |before| { assert before[i] == log[i]; }
      }
    }
  }

  lemma {:induction false} ContestedIff(log: seq<Operation>, id: string)
    ensures Contested(log, id) <==> LastRewrite(log, id).Some?
    decreases |log|
  {
    if LastRewrite(log, id).None? {
      UncontestedAgree(log, id);
    } else {
      var before, op := log[..|log| - 1], log[|log| - 1];
      ContestedIff(before, id);
      if LastRewrite(before, id).Some? {
        var i, j :| 0 <= i < j < |before| && SettlementOf(before[i], id) && SettlementOf(before[j], id)
            && before[i].transactionId != before[j].transactionId;
        assert log[i] == before[i] && log[j] == before[j];
      } else {
        var other := LastSettlement(before, id).value;
        var i :| 0 <= i < |before| && before[i] == other;
        assert log[i] == other && log[|log| - 1] == op;
      }
    }
  }

  function WrittenBy(op: Operation): Automatic
    requires op.metadata.SettlementMeta? && op.transactionId.Some?
  {
    Automatic(op.metadata.action, op.metadata.txJson, op.metadata.payouts, op.transactionId.value, "broadcast",
        op.updatedAt)
  }

  function TxOf(g: Game): Option<string> {
    if g.automatic.None? then None else Some(g.automatic.value.transactionId)
  }

  /** What a settlement does to its game. */
  lemma {:induction false} SettlementRepairs(games: map<string, Game>, creations: map<string, Preparation>,
          op: Operation, id: string)
    requires SettlementOf(op, id) && id in games
    ensures RepairOne(games, creations, op)
         == if TxOf(games[id]) == op.transactionId then games
            else games[id := games[id].(status := op.metadata.status, automatic := Some(WrittenBy(op)))]
  {
  }

  /** Anything else leaves every game's settlement, and a creation adds a game without one. */
  lemma {:induction false} OthersKeepSettlements(games: map<string, Game>, creations: map<string, Preparation>,
          op: Operation, id: string)
    requires !SettlementOf(op, id)
    ensures var next := RepairOne(games, creations, op);
      && (id in games ==> id in next && next[id].automatic == games[id].automatic)
      && (id !in games && id in next ==> Creates(op, id))
  {
  }

  ghost predicate AsLogged(g: Game, log: seq<Operation>, id: string) {
    && (LastSettlement(log, id).Some? ==> TxOf(g) == LastSettlement(log, id).value.transactionId)
    && (LastRewrite(log, id).Some? ==> g.automatic == Some(WrittenBy(LastRewrite(log, id).value)))
  }

  lemma SettlementUnfold(before: seq<Operation>, op: Operation, id: string)
    ensures LastSettlement(before + [op], id) == if SettlementOf(op, id) then Some(op) else LastSettlement(before, id)
    ensures LastRewrite(before + [op], id)
         == if SettlementOf(op, id) && LastSettlement(before, id).Some?
             && LastSettlement(before, id).value.transactionId != op.transactionId
            then Some(op) else LastRewrite(before, id)
  {
    assert (before + [op])[..|before|] == before;
  }

  lemma {:induction false} SettledAsLogged(games: map<string, Game>, creations: map<string, Preparation>,
          before: seq<Operation>, op: Operation, id: string)
    requires SettlementOf(op, id) && id in games && AsLogged(games[id], before, id)
    ensures AsLogged(RepairOne(games, creations, op)[id], before + [op], id)
  {
    SettlementUnfold(before, op, id);
    SettlementRepairs(games, creations, op, id);
  }

  lemma {:induction false} StillAsLogged(games: map<string, Game>, creations: map<string, Preparation>,
          before: seq<Operation>, op: Operation, id: string)
    requires !SettlementOf(op, id) && id in games && AsLogged(games[id], before, id)
    ensures AsLogged(RepairOne(games, creations, op)[id], before + [op], id)
  {
    SettlementUnfold(before, op, id);
    OthersKeepSettlements(games, creations, op, id);
  }

  /** One repair leaves each game with the settlement logged last, as the last change of settlement wrote it. */
  lemma {:induction false} FirstRepair(games: map<string, Game>, creations: map<string, Preparation>,
          log: seq<Operation>, id: string)
    requires CreationsFirst(log) && id in RepairAll(games, creations, log)
    ensures AsLogged(RepairAll(games, creations, log)[id], log, id)
    decreases |log|
  {
    if log != [] {
      var before, op := log[..|log| - 1], log[|log| - 1];
      assert log == before + [op];
      RepairAppend(games, creations, before, op);
      var repaired := RepairAll(games, creations, before);
      if id in repaired {
        FirstRepair(games, creations, before, id);
        if SettlementOf(op, id) {
          SettledAsLogged(repaired, creations, before, op, id);
        } else {
          StillAsLogged(repaired, creations, before, op, id);
        }
      } else {
        NewAsLogged(repaired, creations, before, op, id);
      }
    }
  }

  lemma {:induction false} NewAsLogged(games: map<string, Game>, creations: map<string, Preparation>,
          before: seq<Operation>, op: Operation, id: string)
    requires CreationsFirst(before + [op]) && id !in games && id in RepairOne(games, creations, op)
    ensures AsLogged(RepairOne(games, creations, op)[id], before + [op], id)
  {
    assert !SettlementOf(op, id);
    OthersKeepSettlements(games, creations, op, id);
    SettlementUnfold(before, op, id);
    assert (before + [op])[..|before|] == before;
    NothingBefore(before + [op], id);
  }

  lemma {:induction false} NothingBefore(log: seq<Operation>, id: string)
    requires log != [] && CreationsFirst(log) && Creates(log[|log| - 1], id)
    ensures LastSettlement(log[..|log| - 1], id).None? && LastRewrite(log[..|log| - 1], id).None?
  {
    var before := log[..|log| - 1];
    forall op | op in before ensures !SettlementOf(op, id) {
      var i :| 0 <= i < |before| && before[i] == op;
      assert log[i] == op;
    }
  }

  /** One repair shows its operation and, settlements apart, hides none that came before. */
  lemma {:induction false} RepairShows(games: map<string, Game>, creations: map<string, Preparation>, op: Operation)
    ensures Shows(RepairOne(games, creations, op), creations, op)
  {
    ShowsIff(games, creations, op);
    if !Shows(games, creations, op) && op.metadata.RefundMeta? {
      var h := RepairOne(games, creations, op)[op.gameId];
      SafetyAppend(games[op.gameId], h, h.safety[|games[op.gameId].safety|]);
    }
  }

  lemma {:induction false} RepairHidesNothing(games: map<string, Game>, creations: map<string, Preparation>,
          before: Operation, op: Operation)
    requires Shows(games, creations, before) && !IsSettlement(before)
    requires NamesAGame(before) ==> !Creates(op, before.gameId)
    ensures Shows(RepairOne(games, creations, op), creations, before)
  {
    if op.metadata.RefundMeta? && !Shows(games, creations, op) {
      var h := RepairOne(games, creations, op)[op.gameId];
      SafetyAppend(games[op.gameId], h, h.safety[|games[op.gameId].safety|]);
    }
    ShowsIff(games, creations, op);
  }

  ghost predicate ShowsTheRest(games: map<string, Game>, creations: map<string, Preparation>, log: seq<Operation>) {
    forall op :: op in log && !IsSettlement(op) ==> Shows(games, creations, op)
  }

  lemma {:induction false} OneRepairShowsTheRest(games: map<string, Game>, creations: map<string, Preparation>,
          log: seq<Operation>)
    requires CreationsFirst(log)
    ensures ShowsTheRest(RepairAll(games, creations, log), creations, log)
    decreases |log|
  {
    if log != [] {
      var before, last := log[..|log| - 1], log[|log| - 1];
      assert log == before + [last];
      OneRepairShowsTheRest(games, creations, before);
      RepairAppend(games, creations, before, last);
      var repaired := RepairAll(games, creations, before);
      RepairShows(repaired, creations, last);
      forall op | op in before && !IsSettlement(op) ensures Shows(RepairOne(repaired, creations, last), creations, op) {
        var i :| 0 <= i < |before| && before[i] == op;
        assert log[i] == op;
        RepairHidesNothing(repaired, creations, op, last);
      }
    }
  }

  /** The games differ in settlement and status only. */
  ghost predicate Resettled(games: map<string, Game>, next: map<string, Game>) {
    && games.Keys == next.Keys
    && forall id :: id in games ==>
        next[id] == games[id].(status := next[id].status, automatic := next[id].automatic)
  }

  lemma {:induction false} ResettledShows(games: map<string, Game>, next: map<string, Game>, creations: map<string,
          Preparation>, op: Operation)
    requires Resettled(games, next) && !IsSettlement(op)
    ensures Shows(games, creations, op) <==> Shows(next, creations, op)
  {
    if op.gameId in games { assert next[op.gameId].safety == games[op.gameId].safety; }
  }

  /** A second repair rewrites settlements and nothing else. */
  ghost predicate Rewrites(g: Game, h: Game, log: seq<Operation>, id: string) {
    var last, rewrite := LastSettlement(log, id), LastRewrite(log, id);
    && (last.None? ==> h == g)
    && (last.Some? ==> TxOf(h) == last.value.transactionId)
    && (last.Some? && rewrite.None? && TxOf(g) == last.value.transactionId ==> h == g)
    && (rewrite.Some? ==> h == g.(status := rewrite.value.metadata.status, automatic := Some(WrittenBy(rewrite.value))))
  }

  lemma {:induction false} RewritesMore(g: Game, h: Game, before: seq<Operation>, op: Operation, id: string)
    requires Rewrites(g, h, before, id) && SettlementOf(op, id)
    requires h == g.(status := h.status, automatic := h.automatic)
    ensures Rewrites(g, if TxOf(h) == op.transactionId then h
        else h.(status := op.metadata.status, automatic := Some(WrittenBy(op))), before + [op], id)
  {
    SettlementUnfold(before, op, id);
    UncontestedIsLast(before, id);
  }

  lemma UncontestedIsLast(log: seq<Operation>, id: string)
    ensures LastSettlement(log, id).None? ==> LastRewrite(log, id).None?
  {
    if LastRewrite(log, id).Some? { assert LastRewrite(log, id).value in log; }
  }

  lemma {:induction false} OnlyResettles(games: map<string, Game>, creations: map<string, Preparation>,
          log: seq<Operation>)
    requires ShowsTheRest(games, creations, log)
    ensures Resettled(games, RepairAll(games, creations, log))
    decreases |log|
  {
    if log != [] {
      var before, op := log[..|log| - 1], log[|log| - 1];
      assert log == before + [op];
      RepairAppend(games, creations, before, op);
      OnlyResettles(games, creations, before);
      var now := RepairAll(games, creations, before);
      if !IsSettlement(op) {
        ResettledShows(games, now, creations, op);
        ShowsIff(now, creations, op);
      }
    }
  }

  lemma {:induction false} SecondRepair(games: map<string, Game>, creations: map<string, Preparation>,
          log: seq<Operation>, id: string)
    requires ShowsTheRest(games, creations, log) && id in games
    ensures id in RepairAll(games, creations, log) && Rewrites(games[id], RepairAll(games, creations, log)[id], log, id)
    decreases |log|
  {
    if log != [] {
      var before, op := log[..|log| - 1], log[|log| - 1];
      assert log == before + [op];
      RepairAppend(games, creations, before, op);
      SecondRepair(games, creations, before, id);
      OnlyResettles(games, creations, before);
      SettlementUnfold(before, op, id);
      var now := RepairAll(games, creations, before);
      if SettlementOf(op, id) {
        SettlementRepairs(now, creations, op, id);
        RewritesMore(games[id], now[id], before, op, id);
      } else if !IsSettlement(op) {
        ResettledShows(games, now, creations, op);
        ShowsIff(now, creations, op);
      }
    }
  }

  // --- What is repaired after the last settlement --------------------------

  ghost predicate Marks(op: Operation, id: string) {
    op.status.Broadcast? && op.transactionId.Some? && op.gameId == id
        && (op.metadata.JoinMeta? || op.metadata.RefundMeta?)
  }

  /** The two operations leave the same mark: any two joins of the game, or one refund twice. */
  ghost predicate SameMark(op: Operation, other: Operation) {
    if op.metadata.JoinMeta? then other.metadata.JoinMeta?
    else other.metadata.RefundMeta? && op.transactionId == other.transactionId
  }

  /** The record has the mark. */
  ghost predicate HasMark(g: Game, op: Operation) {
    if op.metadata.JoinMeta? then g.join.Some? else op.transactionId.Some? && HasSafety(g, op.transactionId.value)
  }

  /** The game had the mark before the repair, or gets it from an operation of the log. */
  ghost predicate Marked(games: map<string, Game>, log: seq<Operation>, id: string, op: Operation) {
    (id in games && HasMark(games[id], op)) || exists j :: 0 <= j < |log| && Marks(log[j], id) && SameMark(op, log[j])
  }

  /** A join or a refund of the game stands after its last change of settlement, and neither the games nor an
      earlier operation show it. */
  ghost predicate LateMark(games: map<string, Game>, log: seq<Operation>, id: string, k: nat) {
    && LastRewriteAt(log, id).Some? && LastRewriteAt(log, id).value < k < |log|
    && Marks(log[k], id) && !Marked(games, log[..k], id, log[k])
  }

  ghost predicate HasLateMark(games: map<string, Game>, log: seq<Operation>, id: string) {
    exists k: nat :: LateMark(games, log, id, k)
  }

  lemma {:induction false} RewriteAtUnfold(before: seq<Operation>, op: Operation, id: string)
    ensures LastRewriteAt(before + [op], id)
         == if SettlementOf(op, id) && LastSettlement(before, id).Some?
             && LastSettlement(before, id).value.transactionId != op.transactionId
            then Some(|before|) else LastRewriteAt(before, id)
  {
    assert (before + [op])[..|before|] == before;
  }

  lemma {:induction false} MarkedUnfold(games: map<string, Game>, before: seq<Operation>, op: Operation, id: string,
          mark: Operation)
    ensures Marked(games, before + [op], id, mark) <==> Marked(games, before, id, mark)
                                                        || (Marks(op, id) && SameMark(mark, op))
  {
    var log := before + [op];
    assert log[|before|] == op;
    forall j | 0 <= j < |before| ensures log[j] == before[j] {}
  }

  lemma {:induction false} LateUnfold(games: map<string, Game>, before: seq<Operation>, op: Operation, id: string)
    ensures HasLateMark(games, before + [op], id) <==>
      LastRewriteAt(before + [op], id) == LastRewriteAt(before, id) && LastRewriteAt(before, id).Some?
      && (HasLateMark(games, before, id) || (Marks(op, id) && !Marked(games, before, id, op)))
  {
    var log := before + [op];
    RewriteAtUnfold(before, op, id);
    assert log[..|before|] == before;
    forall k | 0 <= k < |before| ensures log[k] == before[k] && log[..k] == before[..k] {}
    if HasLateMark(games, log, id) {
      var k: nat :| LateMark(games, log, id, k);
      if k < |before| { assert LateMark(games, before, id, k); }
    }
    if LastRewriteAt(log, id) == LastRewriteAt(before, id) {
      if HasLateMark(games, before, id) {
        var k: nat :| LateMark(games, before, id, k);
        assert LateMark(games, log, id, k);
      }
      if LastRewriteAt(before, id).Some? && Marks(op, id) && !Marked(games, before, id, op) {
        assert LateMark(games, log, id, |before|);
      }
    }
  }

  /** What one operation does to the marks of a game, and to its status. */
  lemma {:induction false} OneRepairMarks(games: map<string, Game>, creations: map<string, Preparation>, op: Operation,
          id: string, mark: Operation)
    requires id in games && (mark.metadata.JoinMeta? || (mark.metadata.RefundMeta? && mark.transactionId.Some?))
    ensures id in RepairOne(games, creations, op)
    ensures HasMark(RepairOne(games, creations, op)[id], mark) <==> HasMark(games[id], mark)
                                                                    || (Marks(op, id) && SameMark(mark, op))
  {
    var g, h := games[id], RepairOne(games, creations, op)[id];
    if op.metadata.RefundMeta? && h != g {
      SafetyAppend(g, h, h.safety[|g.safety|]);
      if mark.metadata.RefundMeta? && HasSafety(h, mark.transactionId.value) {
        var i :| 0 <= i < |h.safety| && h.safety[i].transactionId == mark.transactionId.value;
        if i < |g.safety| { assert g.safety[i] == h.safety[i]; }
      }
    }
  }

  /** A game that the repair creates has no mark yet, and none before it in the log. */
  lemma {:induction false} NewIsUnmarked(games: map<string, Game>, creations: map<string, Preparation>,
          before: seq<Operation>, op: Operation, id: string, mark: Operation)
    requires CreationsFirst(before + [op]) && id !in games && id in RepairOne(games, creations, op)
    requires mark.metadata.JoinMeta? || mark.metadata.RefundMeta?
    ensures !HasMark(RepairOne(games, creations, op)[id], mark) && Creates(op, id)
    ensures forall j :: 0 <= j < |before| ==> !Marks(before[j], id)
  {
    var log := before + [op];
    forall j | 0 <= j < |before| ensures !Marks(before[j], id) {
      assert log[j] == before[j] && log[|before|] == op;
    }
  }

  /** The repair leaves on a game the marks it had and those of the log. */
  lemma {:induction false} RepairMarks(games: map<string, Game>, creations: map<string, Preparation>,
          log: seq<Operation>, id: string, mark: Operation)
    requires CreationsFirst(log) && id in RepairAll(games, creations, log)
    requires mark.metadata.JoinMeta? || (mark.metadata.RefundMeta? && mark.transactionId.Some?)
    ensures HasMark(RepairAll(games, creations, log)[id], mark) <==> Marked(games, log, id, mark)
    decreases |log|
  {
    if log != [] {
      var before, op := log[..|log| - 1], log[|log| - 1];
      assert log == before + [op];
      RepairAppend(games, creations, before, op);
      MarkedUnfold(games, before, op, id, mark);
      var repaired := RepairAll(games, creations, before);
      if id in repaired {
        RepairMarks(games, creations, before, id, mark);
        OneRepairMarks(repaired, creations, op, id, mark);
      } else {
        NewIsUnmarked(repaired, creations, before, op, id, mark);
        RepairKeepsGames(games, creations, before);
      }
    }
  }

  /** Once the settlement is written, the status stays its own until a late mark. */
  ghost predicate EndsOn(g: Game, games: map<string, Game>, log: seq<Operation>, id: string) {
    LastRewriteAt(log, id).Some? ==>
      if HasLateMark(games, log, id) then g.status == "join_broadcast" || g.status == "creator_refund_broadcast"
      else g.status == log[LastRewriteAt(log, id).value].metadata.status
  }

  lemma {:induction false} SettlementEndsOn(repaired: map<string, Game>, creations: map<string, Preparation>,
          games: map<string, Game>, before: seq<Operation>, op: Operation, id: string)
    requires SettlementOf(op, id) && id in repaired && AsLogged(repaired[id], before, id)
    requires EndsOn(repaired[id], games, before, id)
    ensures EndsOn(RepairOne(repaired, creations, op)[id], games, before + [op], id)
  {
    SettlementRepairs(repaired, creations, op, id);
    RewriteAtUnfold(before, op, id);
    LateUnfold(games, before, op, id);
    if LastRewriteAt(before, id).Some? {
      SettlementBefore(before, id);
      assert (before + [op])[LastRewriteAt(before, id).value] == before[LastRewriteAt(before, id).value];
    }
  }

  lemma SettlementBefore(log: seq<Operation>, id: string)
    requires LastRewriteAt(log, id).Some?
    ensures LastSettlement(log, id).Some?
  {
    assert log[LastRewriteAt(log, id).value] in log;
  }

  lemma {:induction false} MarkEndsOn(repaired: map<string, Game>, creations: map<string, Preparation>,
          games: map<string, Game>, before: seq<Operation>, op: Operation, id: string)
    requires Marks(op, id) && id in repaired && EndsOn(repaired[id], games, before, id)
    requires HasMark(repaired[id], op) <==> Marked(games, before, id, op)
    ensures EndsOn(RepairOne(repaired, creations, op)[id], games, before + [op], id)
  {
    RewriteAtUnfold(before, op, id);
    LateUnfold(games, before, op, id);
    if LastRewriteAt(before, id).Some? {
      assert (before + [op])[LastRewriteAt(before, id).value] == before[LastRewriteAt(before, id).value];
    }
  }

  lemma {:induction false} OtherEndsOn(repaired: map<string, Game>, creations: map<string, Preparation>,
          games: map<string, Game>, before: seq<Operation>, op: Operation, id: string)
    requires !Marks(op, id) && !SettlementOf(op, id) && id in repaired && EndsOn(repaired[id], games, before, id)
    ensures RepairOne(repaired, creations, op)[id].status == repaired[id].status
    ensures EndsOn(RepairOne(repaired, creations, op)[id], games, before + [op], id)
  {
    RewriteAtUnfold(before, op, id);
    LateUnfold(games, before, op, id);
    if LastRewriteAt(before, id).Some? {
      assert (before + [op])[LastRewriteAt(before, id).value] == before[LastRewriteAt(before, id).value];
    }
  }

  lemma {:induction false} NewEndsOn(repaired: map<string, Game>, creations: map<string, Preparation>,
          games: map<string, Game>, before: seq<Operation>, op: Operation, id: string)
    requires CreationsFirst(before + [op]) && id !in repaired && id in RepairOne(repaired, creations, op)
    ensures EndsOn(RepairOne(repaired, creations, op)[id], games, before + [op], id)
  {
    assert Creates(op, id);
    assert (before + [op])[..|before|] == before;
    NothingBefore(before + [op], id);
    RewriteAtUnfold(before, op, id);
  }

  /** One repair ends a contested game on its settlement's status unless a join or a refund is repaired after. */
  lemma {:induction false} FirstRepairEndsOn(games: map<string, Game>, creations: map<string, Preparation>,
          log: seq<Operation>, id: string)
    requires CreationsFirst(log) && id in RepairAll(games, creations, log)
    ensures EndsOn(RepairAll(games, creations, log)[id], games, log, id)
    decreases |log|
  {
    if log != [] {
      var before, op := log[..|log| - 1], log[|log| - 1];
      assert log == before + [op];
      RepairAppend(games, creations, before, op);
      var repaired := RepairAll(games, creations, before);
      if id !in repaired {
        NewEndsOn(repaired, creations, games, before, op, id);
      } else {
        FirstRepairEndsOn(games, creations, before, id);
        if SettlementOf(op, id) {
          FirstRepair(games, creations, before, id);
          SettlementEndsOn(repaired, creations, games, before, op, id);
        } else if Marks(op, id) {
          RepairMarks(games, creations, before, id, op);
          MarkEndsOn(repaired, creations, games, before, op, id);
        } else {
          OtherEndsOn(repaired, creations, games, before, op, id);
        }
      }
    }
  }

  /** The operation creates the game from a preparation that is still there. */
  ghost predicate CanCreate(creations: map<string, Preparation>, op: Operation, id: string) {
    Creates(op, id) && op.preparedHash in creations && creations[op.preparedHash].CreationPrep?
  }

  /** The repair knows the game, or can create it. */
  ghost predicate Repairable(s: Store, id: string) {
    id in s.games || exists op :: op in s.log && CanCreate(s.creations, op, id)
  }

  lemma {:induction false} OneRepairCreates(games: map<string, Game>, creations: map<string, Preparation>,
          op: Operation, id: string)
    ensures id in RepairOne(games, creations, op) <==> id in games || CanCreate(creations, op, id)
  {
  }

  lemma {:induction false} RepairedIff(games: map<string, Game>, creations: map<string, Preparation>,
          log: seq<Operation>, id: string)
    ensures id in RepairAll(games, creations, log) <==>
      id in games || exists op :: op in log && CanCreate(creations, op, id)
    decreases |log|
  {
    if log != [] {
      OneRepairCreates(games, creations, log[0], id);
      RepairedIff(RepairOne(games, creations, log[0]), creations, log[1..], id);
      assert forall op :: op in log <==> op == log[0] || op in log[1..];
    }
  }

  /** The status of a contested game is that of the settlement the repair writes last. */
  ghost predicate EndsOnItsSettlement(games: map<string, Game>, log: seq<Operation>, id: string) {
    id in games && LastRewrite(log, id).Some? ==> games[id].status == LastRewrite(log, id).value.metadata.status
  }

  lemma {:induction false} TwiceIsOnceIff(s: Store)
    requires CreationsFirst(s.log)
    ensures Reconcile(Reconcile(s)) == Reconcile(s) <==> forall id :: EndsOnItsSettlement(Reconcile(s).games, s.log, id)
  {
    var once := RepairAll(s.games, s.creations, s.log);
    var twice := RepairAll(once, s.creations, s.log);
    OneRepairShowsTheRest(s.games, s.creations, s.log);
    forall id | id in once
      ensures id in twice && (twice[id] == once[id] <==> EndsOnItsSettlement(once, s.log, id))
    {
      FirstRepair(s.games, s.creations, s.log, id);
      SecondRepair(once, s.creations, s.log, id);
    }
    OnlyResettles(once, s.creations, s.log);
    assert twice == once <==> forall id :: id in once ==> twice[id] == once[id];
  }

  /** Exactly when a second repair changes nothing, told from the store before the first: no game that the repair
      knows or can create has a join or a refund that stands behind its last change of settlement in the log and
      that neither the games nor an earlier operation show. */
  lemma {:induction false} RepairTwiceIff(s: Store)
    requires CreationsFirst(s.log) && OwnStatuses(s.log)
    ensures Reconcile(Reconcile(s)) == Reconcile(s) <==>
      forall id :: Repairable(s, id) ==> !HasLateMark(s.games, s.log, id)
  {
    TwiceIsOnceIff(s);
    var once := RepairAll(s.games, s.creations, s.log);
    forall id
      ensures EndsOnItsSettlement(once, s.log, id) <==> (Repairable(s, id) ==> !HasLateMark(s.games, s.log, id))
    {
      RepairedIff(s.games, s.creations, s.log, id);
      if id in once {
        FirstRepairEndsOn(s.games, s.creations, s.log, id);
        if LastRewrite(s.log, id).Some? { assert LastRewrite(s.log, id).value in s.log; }
      }
    }
  }

  /** A log without two different settlements of one game is repaired once and for all. */
  lemma {:induction false} RepairTwiceIsRepairOnce(s: Store)
    requires CreationsFirst(s.log) && forall id :: !Contested(s.log, id)
    ensures Reconcile(Reconcile(s)) == Reconcile(s)
  {
    TwiceIsOnceIff(s);
    forall id ensures EndsOnItsSettlement(Reconcile(s).games, s.log, id) { ContestedIff(s.log, id); }
  }

  /** Where it is not: a refund that the record lost stands behind two settlements.  The second repair takes back
      the status the first gave it. */
  lemma {:induction false} LostRefundIsUndone(id: string, g: Game, first: Operation, second: Operation,
          refund: Operation)
    requires SettlementOf(first, id) && SettlementOf(second, id) && first.transactionId != second.transactionId
    requires Marks(refund, id) && refund.metadata.RefundMeta? && !HasMark(g, refund)
    requires OwnStatuses([first, second, refund])
    ensures var s := Store(map[id := g], map[], [first, second, refund], map[]);
      CreationsFirst(s.log) && Reconcile(Reconcile(s)) != Reconcile(s)
  {
    var log := [first, second, refund];
    var s := Store(map[id := g], map[], log, map[]);
    assert log[..2] == [first, second] && [first, second][..1] == [first] && [first][..0] == [];
    assert LastSettlement([first], id) == Some(first);
    assert LastRewriteAt([first, second], id) == Some(1);
    assert LastRewriteAt(log, id) == Some(1);
    assert LateMark(s.games, log, id, 2);
    assert Repairable(s, id) && HasLateMark(s.games, s.log, id);
    RepairTwiceIff(s);
  }

  // --- What the ledger allows ----------------------------------------------

  /** A settlement of the joined escrow, which was joined five minutes before the keeper tries it. */
  predicate IsDeep(op: Operation) {
    op.metadata.SettlementMeta? && op.metadata.action != "refund_open"
  }

  /** A spend of the open escrow. */
  predicate SpendsCreation(op: Operation) {
    op.metadata.JoinMeta? || op.metadata.RefundMeta? || (op.metadata.SettlementMeta?
        && op.metadata.action == "refund_open")
  }

  /** Once a settlement of the joined escrow was tried, no spend of the open escrow is taken any more; and the
      refund of an open escrow is one transaction. */
  ghost predicate LedgerLog(log: seq<Operation>, openRefund: string -> string) {
    && (forall i, j ::
          0 <= i < j < |log| && IsDeep(log[i]) && log[i].gameId == log[j].gameId ==> !SpendsCreation(log[j]))
    && (forall op :: op in log && IsSettlement(op) && !IsDeep(op) ==> op.transactionId == Some(openRefund(op.gameId)))
  }

  ghost predicate LedgerTakes(log: seq<Operation>, u: Submission, stamp: Stamp, openRefund: string -> string) {
    var op := Logged(u, stamp.started, stamp.answered);
    && (SpendsCreation(op) ==> forall other :: other in log && IsDeep(other) ==> other.gameId != op.gameId)
    && (IsDeep(op) ==>
          forall j :: PlaceIn(log, stamp) <= j < |log| && SpendsCreation(log[j]) ==> log[j].gameId != op.gameId)
    && (IsSettlement(op) && !IsDeep(op) ==> op.transactionId == Some(openRefund(op.gameId)))
  }

  ghost predicate LedgerRun(s: Store, events: seq<Event>, openRefund: string -> string)
    decreases |events|
  {
    events == []
    || ((events[0].Submit? && Accepts(s, events[0].submission)
        ==> LedgerTakes(s.log, events[0].submission, events[0].stamp, openRefund))
        && LedgerRun(Step(s, events[0]), events[1..], openRefund))
  }

  lemma {:induction false} EnteredKeepsLedger(log: seq<Operation>, u: Submission, stamp: Stamp,
          openRefund: string -> string)
    requires LedgerLog(log, openRefund) && LedgerTakes(log, u, stamp, openRefund)
    ensures LedgerLog(Entered(log, u, stamp), openRefund)
  {
    var op, k, next := Logged(u, stamp.started, stamp.answered), PlaceIn(log, stamp), Entered(log, u, stamp);
    forall i, j | 0 <= i < j < |next| && IsDeep(next[i]) && next[i].gameId == next[j].gameId
      ensures !SpendsCreation(next[j])
    {
      if i == k {
        assert next[j] == log[j - 1];
      } else if j == k {
        assert next[i] == log[i] && log[i] in log;
      } else {
        assert next[i] == log[if i < k then i else i - 1] && next[j] == log[if j < k then j else j - 1];
      }
    }
  }

  lemma {:induction false} DroppingKeepsLedger(log: seq<Operation>, id: string, openRefund: string -> string)
    requires LedgerLog(log, openRefund)
    ensures LedgerLog(WithoutGame(log, id), openRefund)
  {
    DroppingKeepsOrder((a: Operation, b: Operation) => IsDeep(a) && a.gameId == b.gameId ==> !SpendsCreation(b), log,
        id);
  }

  lemma {:induction false} StepKeepsLedger(s: Store, e: Event, openRefund: string -> string)
    requires LedgerLog(s.log, openRefund)
    requires e.Submit? && Accepts(s, e.submission) ==> LedgerTakes(s.log, e.submission, e.stamp, openRefund)
    ensures LedgerLog(Step(s, e).log, openRefund)
  {
    match e
    case Submit(u, crash, stamp) =>
      if Accepts(s, u) {
        EnteredKeepsLedger(s.log, u, stamp, openRefund);
        CompletedGames(s, u, stamp);
      }
    case Resubmit(u, saved) => if Allowed(s, u) { SubmittedIgnoresLog(s, s.log, u, saved); }
    case Repair =>
    case Progress(_, _, _) =>
    case Complete(id, _) => DroppingKeepsLedger(s.log, id, openRefund);
  }

  /** On a ledger no join or refund stands behind a change of settlement. */
  lemma {:induction false} LedgerHasNoLateMark(games: map<string, Game>, log: seq<Operation>, id: string,
          openRefund: string -> string)
    requires LedgerLog(log, openRefund)
    ensures !HasLateMark(games, log, id)
  {
    if LastRewriteAt(log, id).Some? {
      var p := LastRewriteAt(log, id).value;
      var q := RewrittenFrom(log, id);
      assert log[p] in log && log[q] in log;
      assert IsDeep(log[p]);
      assert forall k :: p < k < |log| && log[k].gameId == id ==> !SpendsCreation(log[k]);
    }
  }

  /** A change of settlement follows a settlement of another transaction. */
  lemma {:induction false} RewrittenFrom(log: seq<Operation>, id: string) returns (q: nat)
    requires LastRewriteAt(log, id).Some?
    ensures q < LastRewriteAt(log, id).value && SettlementOf(log[q], id)
    ensures log[q].transactionId != log[LastRewriteAt(log, id).value].transactionId
    decreases |log|
  {
    var before := log[..|log| - 1];
    if LastRewriteAt(log, id) == Some(|before|) {
      assert forall i :: 0 <= i < |before| ==> before[i] == log[i];
      if LastRewriteAt(before, id) == Some(|before|) { assert false; }
      var last := LastSettlement(before, id).value;
      q :| 0 <= q < |before| && before[q] == last;
    } else {
      q := RewrittenFrom(before, id);
    }
  }

  /** In every run on a ledger, whatever crashes and is submitted again, one repair is enough. */
  lemma {:induction false} LedgerRunsRepairOnce(s: Store, events: seq<Event>, openRefund: string -> string)
    requires WellLogged(s) && LedgerLog(s.log, openRefund) && FreshRun(s, events) && LedgerRun(s, events, openRefund)
    ensures Reconcile(Reconcile(Run(s, events))) == Reconcile(Run(s, events))
    decreases |events|
  {
    if events == [] {
      forall id ensures !HasLateMark(s.games, s.log, id) { LedgerHasNoLateMark(s.games, s.log, id, openRefund); }
      RepairTwiceIff(s);
    } else {
      StepWellLogged(s, events[0]);
      StepKeepsLedger(s, events[0], openRefund);
      LedgerRunsRepairOnce(Step(s, events[0]), events[1..], openRefund);
    }
  }
}
