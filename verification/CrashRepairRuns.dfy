/** Runs with crashes and repairs against the same runs without. */
module CrashRepairRuns {
  import opened Outcomes
  import opened CrashRepair

  // --- Up to timestamps ----------------------------------------------------

  function TimelessSafety(s: seq<Safety>): (r: seq<Safety>)
    ensures |r| == |s| && forall i :: 0 <= i < |s| ==> r[i] == s[i].(submittedAt := 0)
  {
    seq(|s|, i requires 0 <= i < |s| => s[i].(submittedAt := 0))
  }

  function Timeless(g: Game): Game {
    g.(createdAt := 0,
       join := if g.join.None? then None else Some(g.join.value.(submittedAt := 0)),
       safety := TimelessSafety(g.safety),
       automatic := if g.automatic.None? then None else Some(g.automatic.value.(submittedAt := 0)))
  }

  /** The same games with the same contents, whatever the clocks said. */
  ghost predicate SameGames(a: map<string, Game>, b: map<string, Game>) {
    a.Keys == b.Keys && forall k :: k in a ==> Timeless(a[k]) == Timeless(b[k])
  }

  ghost predicate SameLog(a: seq<Operation>, b: seq<Operation>) {
    |a| == |b| && forall i :: 0 <= i < |a| ==> a[i].(createdAt := 0, updatedAt := 0)
                                               == b[i].(createdAt := 0, updatedAt := 0)
  }

  ghost predicate SameStores(a: Store, b: Store) {
    SameGames(a.games, b.games) && a.creations == b.creations && SameLog(a.log, b.log)
  }

  // --- A log that is reflected ---------------------------------------------

  /** The games show what the operation did, or can never show it. */
  ghost predicate Shows(games: map<string, Game>, creations: map<string, Preparation>, op: Operation) {
    op.status.Broadcast? && op.transactionId.Some? ==>
      match op.metadata
      case CreationMeta(_) =>
        op.transactionId.value in games || op.preparedHash !in creations || !creations[op.preparedHash].CreationPrep?
      case JoinMeta(_, _, _, _, _, _, _) => op.gameId in games ==> games[op.gameId].join.Some?
      case RefundMeta(_, _, _) => op.gameId in games ==> HasSafety(games[op.gameId], op.transactionId.value)
      case SettlementMeta(_, _, _, _) =>
        op.gameId in games ==> games[op.gameId].automatic.Some?
                               && games[op.gameId].automatic.value.transactionId == op.transactionId.value
      case OtherMeta => true
  }

  /** The repair leaves the games alone exactly when they show the operation. */
  lemma {:induction false} ShowsIff(games: map<string, Game>, creations: map<string, Preparation>, op: Operation)
    ensures RepairOne(games, creations, op) == games <==> Shows(games, creations, op)
  {
    if !Shows(games, creations, op) {
      var next := RepairOne(games, creations, op);
      var id := if op.metadata.CreationMeta? then op.transactionId.value else op.gameId;
      assert id in next;
      if op.metadata.RefundMeta? { assert |next[id].safety| == |games[id].safety| + 1; }
    }
  }

  ghost predicate Settled(s: Store) {
    forall op :: op in s.log ==> Shows(s.games, s.creations, op)
  }

  lemma {:induction false} SettledStays(games: map<string, Game>, creations: map<string, Preparation>,
          log: seq<Operation>)
    requires forall op :: op in log ==> Shows(games, creations, op)
    ensures RepairAll(games, creations, log) == games
    decreases |log|
  {
    if log != [] {
      ShowsIff(games, creations, log[0]);
      SettledStays(games, creations, log[1..]);
    }
  }

  lemma {:induction false} RepairAppend(games: map<string, Game>, creations: map<string, Preparation>,
          log: seq<Operation>, op: Operation)
    ensures RepairAll(games, creations, log + [op]) == RepairOne(RepairAll(games, creations, log), creations, op)
    decreases |log|
  {
    if log == [] {
      assert log + [op] == [op] && [op][1..] == [];
      assert RepairAll(RepairOne(games, creations, op), creations, []) == RepairOne(games, creations, op);
    } else {
      assert (log + [op])[1..] == log[1..] + [op];
      RepairAppend(RepairOne(games, creations, log[0]), creations, log[1..], op);
    }
  }

  lemma {:induction false} RepairConcat(games: map<string, Game>, creations: map<string, Preparation>,
          a: seq<Operation>, b: seq<Operation>)
    ensures RepairAll(games, creations, a + b) == RepairAll(RepairAll(games, creations, a), creations, b)
    decreases |a|
  {
    if a == [] {
      assert a + b == b;
    } else {
      assert (a + b)[1..] == a[1..] + b;
      RepairConcat(RepairOne(games, creations, a[0]), creations, a[1..], b);
    }
  }

  // --- Submissions ---------------------------------------------------------

  /** No confirmed refund has closed the game. */
  predicate Joinable(g: Game) {
    && (forall i :: 0 <= i < |g.safety| ==> !(g.safety[i].action == "creator_refund"
                                            && g.safety[i].status == "confirmed"))
    && !(g.automatic.Some? && g.automatic.value.action in ["refund_open", "refund_all"]
        && g.automatic.value.status == "confirmed")
    && g.status != "creator_refunded"
  }

  predicate Free(g: Game) {
    g.join.None? && Joinable(g)
  }

  /** The match the game belongs to, if any, names it. */
  predicate Named(matches: map<string, Option<string>>, g: Game, id: string) {
    g.matchId.Some? ==> g.matchId.value in matches && matches[g.matchId.value] == Some(id)
  }

  predicate MayJoin(s: Store, id: string) {
    id in s.games && Free(s.games[id]) && Named(s.matches, s.games[id], id)
  }

  /** What a call checks in the games and the preparations.  The keeper leaves a game with a settlement alone. */
  predicate Allowed(s: Store, u: Submission) {
    match u.preparation
    case CreationPrep(_, _, _) => u.preparedHash in s.creations && s.creations[u.preparedHash] == u.preparation
    case JoinPrep(id, _, _, _, _, _, _, _) => id in s.games && Free(s.games[id])
    case RefundPrep(id, _, _, _) => id in s.games
    case SettlementPrep(id, _, _, _) => id in s.games && s.games[id].automatic.None?
  }

  /** A join is also checked against its match. */
  predicate Accepts(s: Store, u: Submission) {
    Allowed(s, u) && (u.preparation.JoinPrep? ==> MayJoin(s, u.preparation.gameId))
  }

  /** The node takes no transaction it has taken before. */
  predicate Fresh(s: Store, u: Submission) {
    match u.preparation
    case CreationPrep(_, _, _) => u.transactionId !in s.games
    case RefundPrep(id, _, _, _) => id in s.games ==> !HasSafety(s.games[id], u.transactionId)
    case _ => true
  }

  predicate Admissible(s: Store, u: Submission) {
    Allowed(s, u) && Fresh(s, u)
  }

  /** The record a submission saves. */
  function SavedGame(s: Store, u: Submission, at: Millis): Game
    requires Allowed(s, u)
  {
    match u.preparation
    case CreationPrep(request, prepared, matchId) =>
      Game(u.transactionId, "broadcast", request, prepared, u.preparedHash, matchId, at, None, [], None, [])
    case JoinPrep(gameId, a, k, c, ja, js, jr, cov) =>
      s.games[gameId].(status := "join_broadcast", join := Some(Join(a, k, c, ja, js, jr, cov, u.transactionId,
          u.preparedHash, at)))
    case RefundPrep(gameId, a, role, cont) =>
      s.games[gameId].(status := "creator_refund_broadcast",
        safety := s.games[gameId].safety + [Safety("creator_refund", a, role, cont, u.transactionId, u.preparedHash,
            "broadcast", at)])
    case SettlementPrep(gameId, action, txJson, payouts) =>
      s.games[gameId].(status := action + "_broadcast",
          automatic := Some(Automatic(action, txJson, payouts, u.transactionId, "broadcast", at)))
  }

  /** The repair of an operation saves the record the call would have saved, stamped from the log. */
  lemma {:induction false} RepairSaves(s: Store, u: Submission, started: Millis, answered: Millis)
    requires Admissible(s, u)
    ensures RepairOne(s.games, s.creations, Logged(u, started, answered))
         == s.games[GameOf(u) := SavedGame(s, u, if u.preparation.CreationPrep? then started else answered)]
  {
  }

  lemma TimelessAppend(a: seq<Safety>, x: Safety)
    ensures TimelessSafety(a + [x]) == TimelessSafety(a) + [x.(submittedAt := 0)]
  {
  }

  lemma {:induction false} SavedGamesAgree(a: Store, b: Store, u: Submission, at: Millis, later: Millis)
    requires Allowed(a, u) && Allowed(b, u) && SameGames(a.games, b.games)
    ensures Timeless(SavedGame(a, u, at)) == Timeless(SavedGame(b, u, later))
  {
    var id := GameOf(u);
    if u.preparation.RefundPrep? {
      TimelessAppend(a.games[id].safety, SavedGame(a, u, at).safety[|a.games[id].safety|]);
      TimelessAppend(b.games[id].safety, SavedGame(b, u, later).safety[|b.games[id].safety|]);
    }
  }

  lemma ReplacedAlike(a: map<string, Game>, b: map<string, Game>, id: string, g: Game, h: Game)
    requires SameGames(a, b) && Timeless(g) == Timeless(h)
    ensures SameGames(a[id := g], b[id := h])
  {
  }

  // --- Guards and marks do not read the clock ------------------------------

  lemma {:induction false} SafetyIsTimeless(g: Game, h: Game, tx: string)
    requires Timeless(g) == Timeless(h)
    ensures HasSafety(g, tx) <==> HasSafety(h, tx)
  {
    assert |g.safety| == |TimelessSafety(g.safety)| == |h.safety|;
    forall i | 0 <= i < |g.safety| ensures g.safety[i].transactionId == h.safety[i].transactionId {
      assert TimelessSafety(g.safety)[i] == TimelessSafety(h.safety)[i];
    }
  }

  lemma {:induction false} FreeIsTimeless(g: Game, h: Game)
    requires Timeless(g) == Timeless(h)
    ensures Free(g) <==> Free(h)
  {
    assert g.join.Some? <==> Timeless(g).join.Some?;
    assert h.join.Some? <==> Timeless(h).join.Some?;
    assert |g.safety| == |TimelessSafety(g.safety)| == |h.safety|;
    forall i | 0 <= i < |g.safety|
      ensures g.safety[i].action == h.safety[i].action && g.safety[i].status == h.safety[i].status
    {
      assert TimelessSafety(g.safety)[i] == TimelessSafety(h.safety)[i];
    }
  }

  lemma {:induction false} ShowsIsTimeless(a: map<string, Game>, b: map<string, Game>, creations: map<string,
          Preparation>, op: Operation, oq: Operation)
    requires SameGames(a, b) && op.(createdAt := 0, updatedAt := 0) == oq.(createdAt := 0, updatedAt := 0)
    ensures Shows(a, creations, op) <==> Shows(b, creations, oq)
  {
    if op.gameId in a && op.transactionId.Some? {
      var g, h := a[op.gameId], b[op.gameId];
      SafetyIsTimeless(g, h, op.transactionId.value);
      assert Timeless(g) == Timeless(h);
      assert g.join.Some? <==> h.join.Some?;
    }
  }

  lemma {:induction false} SettledIsTimeless(a: Store, b: Store)
    requires SameStores(a, b) && Settled(a)
    ensures Settled(b)
  {
    forall op | op in b.log ensures Shows(b.games, b.creations, op) {
      var i :| 0 <= i < |b.log| && b.log[i] == op;
      ShowsIsTimeless(a.games, b.games, a.creations, a.log[i], op);
    }
  }

  lemma {:induction false} AdmissibleIsTimeless(a: Store, b: Store, u: Submission)
    requires SameStores(a, b)
    ensures Allowed(a, u) <==> Allowed(b, u)
    ensures Fresh(a, u) <==> Fresh(b, u)
  {
    var id := GameOf(u);
    if id in a.games {
      var g, h := a.games[id], b.games[id];
      SafetyIsTimeless(g, h, u.transactionId);
      FreeIsTimeless(g, h);
      assert g.automatic.Some? <==> Timeless(g).automatic.Some?;
      assert h.automatic.Some? <==> Timeless(h).automatic.Some?;
    }
  }

  // --- One submission ------------------------------------------------------

  /** The clock readings of one submission, and where its operation stands in the log: at the end, unless it was
      tried before without success and keeps the place of its first attempt. */
  datatype Stamp = Stamp(place: nat, started: Millis, answered: Millis, saved: Millis)

  function PlaceIn(log: seq<Operation>, stamp: Stamp): (k: nat)
    ensures k <= |log| && (stamp.place <= |log| ==> k == stamp.place)
  {
    if stamp.place < |log| then stamp.place else |log|
  }

  function Entered(log: seq<Operation>, u: Submission, stamp: Stamp): (r: seq<Operation>)
    ensures forall op :: op in r <==> op in log || op == Logged(u, stamp.started, stamp.answered)
  {
    var k := PlaceIn(log, stamp);
    assert log == log[..k] + log[k..];
    log[..k] + [Logged(u, stamp.started, stamp.answered)] + log[k..]
  }

  /** A submission that ran to its end: the log, then the record. */
  function Completed(s: Store, u: Submission, stamp: Stamp): Store {
    Submitted(s.(log := Entered(s.log, u, stamp)), u, stamp.saved)
  }

  /** A submission cut off between the log and the record, and the repair at the next start. */
  function CrashedAndRepaired(s: Store, u: Submission, stamp: Stamp): Store {
    Reconcile(s.(log := Entered(s.log, u, stamp)))
  }

  lemma SubmittedIgnoresLog(s: Store, log: seq<Operation>, u: Submission, at: Millis)
    requires Allowed(s, u)
    ensures Submitted(s.(log := log), u, at).games == s.games[GameOf(u) := SavedGame(s, u, at)]
    ensures Submitted(s.(log := log), u, at).creations == s.creations && Submitted(s.(log := log), u, at).log == log
  {
  }

  lemma {:induction false} RepairedGames(s: Store, u: Submission, stamp: Stamp)
    requires Settled(s) && Admissible(s, u) && (stamp.place >= |s.log| || Inv(s))
    ensures CrashedAndRepaired(s, u, stamp).games == s.games[GameOf(u) := SavedGame(s, u, RepairedAt(u, stamp))]
  {
    var k, op := PlaceIn(s.log, stamp), Logged(u, stamp.started, stamp.answered);
    var games := s.games[GameOf(u) := SavedGame(s, u, RepairedAt(u, stamp))];
    SettledStays(s.games, s.creations, s.log[..k]);
    RepairAppend(s.games, s.creations, s.log[..k], op);
    RepairSaves(s, u, stamp.started, stamp.answered);
    RepairConcat(s.games, s.creations, s.log[..k] + [op], s.log[k..]);
    if k < |s.log| {
      forall later | later in s.log[k..] ensures Shows(games, s.creations, later) {
        OldStaysShown(s, u, RepairedAt(u, stamp), later);
      }
    }
    SettledStays(games, s.creations, s.log[k..]);
  }

  /** When the repair stamps what it saves: a creation as of the start, anything else as of the answer. */
  function RepairedAt(u: Submission, stamp: Stamp): Millis {
    if u.preparation.CreationPrep? then stamp.started else stamp.answered
  }

  lemma {:induction false} CompletedGames(s: Store, u: Submission, stamp: Stamp)
    requires Allowed(s, u)
    ensures var done := Completed(s, u, stamp);
      && done.games == s.games[GameOf(u) := SavedGame(s, u, stamp.saved)]
      && done.creations == s.creations && done.log == Entered(s.log, u, stamp)
  {
    SubmittedIgnoresLog(s, Entered(s.log, u, stamp), u, stamp.saved);
  }

  lemma {:induction false} EnteredAlike(a: seq<Operation>, b: seq<Operation>, u: Submission, stamp: Stamp)
    requires SameLog(a, b)
    ensures SameLog(Entered(a, u, stamp), Entered(b, u, stamp))
  {
    var k := PlaceIn(a, stamp);
    forall i | 0 <= i < |Entered(a, u, stamp)|
      ensures Entered(a, u, stamp)[i].(createdAt := 0, updatedAt := 0)
          == Entered(b, u, stamp)[i].(createdAt := 0, updatedAt := 0)
    {
      if i < k {
        assert a[i].(createdAt := 0, updatedAt := 0) == b[i].(createdAt := 0, updatedAt := 0);
      } else if i > k {
        assert a[i - 1].(createdAt := 0, updatedAt := 0) == b[i - 1].(createdAt := 0, updatedAt := 0);
      }
    }
  }

  /** Crash and repair make the record the call would have saved, in whatever settled store. */
  lemma {:induction false} RepairIsTheSave(a: Store, b: Store, u: Submission, stamp: Stamp)
    requires SameStores(a, b) && Settled(a) && Admissible(a, u) && (stamp.place >= |a.log| || Inv(a))
    ensures SameStores(CrashedAndRepaired(a, u, stamp), Completed(b, u, stamp))
  {
    AdmissibleIsTimeless(a, b, u);
    RepairedGames(a, u, stamp);
    CompletedGames(b, u, stamp);
    EnteredAlike(a.log, b.log, u, stamp);
    SavedGamesAgree(a, b, u, RepairedAt(u, stamp), stamp.saved);
    ReplacedAlike(a.games, b.games, GameOf(u), SavedGame(a, u, RepairedAt(u, stamp)), SavedGame(b, u, stamp.saved));
  }

  lemma {:induction false} SavesAgree(a: Store, b: Store, u: Submission, stamp: Stamp)
    requires SameStores(a, b) && Allowed(a, u)
    ensures SameStores(Completed(a, u, stamp), Completed(b, u, stamp))
  {
    AdmissibleIsTimeless(a, b, u);
    CompletedGames(a, u, stamp);
    CompletedGames(b, u, stamp);
    EnteredAlike(a.log, b.log, u, stamp);
    SavedGamesAgree(a, b, u, stamp.saved, stamp.saved);
    ReplacedAlike(a.games, b.games, GameOf(u), SavedGame(a, u, stamp.saved), SavedGame(b, u, stamp.saved));
  }

  // --- The log stays reflected ---------------------------------------------

  /** A record that keeps what the old one showed. */
  ghost predicate KeepsMarks(g: Game, h: Game) {
    && (g.join.Some? ==> h.join.Some?)
    && (forall tx :: HasSafety(g, tx) ==> HasSafety(h, tx))
    && (g.automatic.Some? ==> h.automatic.Some? && h.automatic.value.transactionId == g.automatic.value.transactionId)
  }

  predicate NamesAGame(op: Operation) {
    op.metadata.JoinMeta? || op.metadata.RefundMeta? || op.metadata.SettlementMeta?
  }

  /** The log is reflected, and speaks only of games the store has. */
  ghost predicate Inv(s: Store) {
    Settled(s) && forall op :: op in s.log && NamesAGame(op) ==> op.gameId in s.games
  }

  lemma {:induction false} InvIsTimeless(a: Store, b: Store)
    requires SameStores(a, b) && Inv(b)
    ensures Inv(a)
  {
    SameIsSymmetric(a, b);
    SettledIsTimeless(b, a);
    forall op | op in a.log && NamesAGame(op) ensures op.gameId in a.games {
      var i :| 0 <= i < |a.log| && a.log[i] == op;
      assert a.log[i].(createdAt := 0, updatedAt := 0) == b.log[i].(createdAt := 0, updatedAt := 0);
      assert b.log[i] in b.log;
    }
  }

  /** A record that keeps its marks keeps the log reflected. */
  lemma {:induction false} ShowsAfter(games: map<string, Game>, creations: map<string, Preparation>, op: Operation,
          id: string, h: Game)
    requires Shows(games, creations, op) && (NamesAGame(op) ==> op.gameId in games)
    requires id in games ==> KeepsMarks(games[id], h)
    ensures Shows(games[id := h], creations, op)
  {
  }

  /** So does the game's first settlement, which is the only mark a submission may replace. */
  lemma {:induction false} ShowsAfterSettlement(games: map<string, Game>, creations: map<string, Preparation>,
          op: Operation, id: string, h: Game)
    requires Shows(games, creations, op) && (NamesAGame(op) ==> op.gameId in games)
    requires op.metadata.SettlementMeta? && op.status.Broadcast? && op.transactionId.Some? ==> op.gameId != id
    requires id in games && h.join == games[id].join && h.safety == games[id].safety
    ensures Shows(games[id := h], creations, op)
  {
  }

  lemma SafetyAppend(g: Game, h: Game, x: Safety)
    requires h.safety == g.safety + [x]
    ensures HasSafety(h, x.transactionId)
    ensures forall tx :: HasSafety(g, tx) ==> HasSafety(h, tx)
  {
    assert h.safety[|g.safety|] == x;
    forall tx | HasSafety(g, tx) ensures HasSafety(h, tx) {
      var i :| 0 <= i < |g.safety| && g.safety[i].transactionId == tx;
      assert h.safety[i] == g.safety[i];
    }
  }

  lemma {:induction false} OldStaysShown(s: Store, u: Submission, at: Millis, op: Operation)
    requires Inv(s) && Admissible(s, u) && op in s.log
    ensures Shows(s.games[GameOf(u) := SavedGame(s, u, at)], s.creations, op)
  {
    var id, h := GameOf(u), SavedGame(s, u, at);
    if u.preparation.SettlementPrep? {
      ShowsAfterSettlement(s.games, s.creations, op, id, h);
    } else {
      if u.preparation.RefundPrep? { SafetyAppend(s.games[id], h, h.safety[|s.games[id].safety|]); }
      ShowsAfter(s.games, s.creations, op, id, h);
    }
  }

  lemma {:induction false} NewIsShown(s: Store, u: Submission, started: Millis, answered: Millis, at: Millis)
    requires Admissible(s, u)
    ensures Shows(s.games[GameOf(u) := SavedGame(s, u, at)], s.creations, Logged(u, started, answered))
  {
    var id, h := GameOf(u), SavedGame(s, u, at);
    if u.preparation.RefundPrep? { SafetyAppend(s.games[id], h, h.safety[|s.games[id].safety|]); }
  }

  lemma {:induction false} CompletedKeeps(s: Store, u: Submission, stamp: Stamp)
    requires Inv(s) && Admissible(s, u)
    ensures Inv(Completed(s, u, stamp))
  {
    CompletedGames(s, u, stamp);
    NewIsShown(s, u, stamp.started, stamp.answered, stamp.saved);
    forall op | op in s.log ensures Shows(s.games[GameOf(u) := SavedGame(s, u, stamp.saved)], s.creations, op) {
      OldStaysShown(s, u, stamp.saved, op);
    }
  }

  // --- Whole runs ----------------------------------------------------------

  /** What happens to the store: submissions that may be cut off, submissions made again once their operation
      is in the log, the repair that runs every minute, progress a read writes back, and the end of a game. */
  datatype Event =
    | Submit(submission: Submission, crash: bool, stamp: Stamp)
    | Resubmit(submission: Submission, saved: Millis)
    | Repair
    | Progress(gameId: string, status: string, attempts: seq<string>)
    | Complete(gameId: string, status: string)

  function WithoutGame(log: seq<Operation>, gameId: string): (r: seq<Operation>)
    ensures forall op :: op in r <==> op in log && op.gameId != gameId
  {
    if log == [] then [] else (if log[0].gameId == gameId then [] else [log[0]]) + WithoutGame(log[1..], gameId)
  }

  function WithoutMatch(matches: map<string, Option<string>>, g: Game): map<string, Option<string>> {
    if g.matchId.Some? then matches - {g.matchId.value} else matches
  }

  function Progressed(s: Store, gameId: string, status: string, attempts: seq<string>): Store {
    if gameId !in s.games then s else Saved(s, gameId, s.games[gameId].(status := status, attempts := attempts))
  }

  /** Completing a game keeps the record and drops its operations, its match and its preparation. */
  function Finished(s: Store, gameId: string, status: string): Store {
    if gameId !in s.games then s
    else Saved(s, gameId, s.games[gameId].(status := status))
         .(log := WithoutGame(s.log, gameId), matches := WithoutMatch(s.matches, s.games[gameId]),
           creations := s.creations - {s.games[gameId].creationHash})
  }

  /** The operation is in the log as broadcast, so that the call only saves its record again. */
  predicate InLog(log: seq<Operation>, u: Submission) {
    exists i :: 0 <= i < |log| && log[i] == Logged(u, log[i].createdAt, log[i].updatedAt)
  }

  /** The run as it happened.  Each call looks at the store as the crashes and repairs have left it. */
  function Step(s: Store, e: Event): Store {
    match e
    case Submit(u, crash, stamp) =>
      if !Accepts(s, u) then s
      else if crash then CrashedAndRepaired(s, u, stamp) else Completed(s, u, stamp)
    case Resubmit(u, saved) => if InLog(s.log, u) && Accepts(s, u) then Submitted(s, u, saved) else s
    case Repair => Reconcile(s)
    case Progress(gameId, status, attempts) => Progressed(s, gameId, status, attempts)
    case Complete(gameId, status) => Finished(s, gameId, status)
  }

  /** A refund of the game is confirmed, by its creator or by the keeper. */
  ghost predicate IsRefunded(g: Game) {
    || (exists a :: a in g.safety && a.action == "creator_refund" && a.status == "confirmed")
    || (g.automatic.Some? && g.automatic.value.status == "confirmed"
        && (g.automatic.value.action == "refund_open" || g.automatic.value.action == "refund_all"))
    || g.status == "creator_refunded"
  }

  /** A join is saved exactly if the game has none yet, no refund of it is confirmed, and its match, if it has one,
      names it; and then it is the join that was prepared. */
  lemma {:induction false} JoinIsTakenIff(s: Store, u: Submission, stamp: Stamp)
    requires u.preparation.JoinPrep? && u.preparation.gameId in s.games
    ensures var id, p, next := u.preparation.gameId, u.preparation, Step(s, Submit(u, false, stamp));
      var g := s.games[id];
      var may := g.join.None? && !IsRefunded(g)
        && (g.matchId.Some? ==> g.matchId.value in s.matches && s.matches[g.matchId.value] == Some(id));
      && (!may ==> next == s)
      && (may ==>
            && id in next.games && next.matches == s.matches && next.creations == s.creations
            && next.games == s.games[id := g.(status := "join_broadcast", join := Some(Join(p.joinerAddress,
                 p.joinerPublicKey, p.joinerCommitment, p.joinedAddress, p.joinedScript, p.joinedRedeemScript,
                 p.covenantId, u.transactionId, u.preparedHash, stamp.saved)))])
  {
    var g := s.games[u.preparation.gameId];
    assert (exists a :: a in g.safety && a.action == "creator_refund" && a.status == "confirmed") <==>
      exists i :: 0 <= i < |g.safety| && g.safety[i].action == "creator_refund" && g.safety[i].status == "confirmed";
  }

  /** The end of a game drops its operations, its match and its preparation, and no others. */
  lemma {:induction false} EndDropsOperations(s: Store, id: string, status: string)
    requires id in s.games
    ensures var next := Step(s, Complete(id, status));
      && (forall op :: op in next.log <==> op in s.log && op.gameId != id)
      && next.games == s.games[id := s.games[id].(status := status)]
      && (forall h :: h in next.creations <==> h in s.creations && h != s.games[id].creationHash)
      && (forall h :: h in next.creations ==> next.creations[h] == s.creations[h])
      && (forall m :: m in next.matches <==> m in s.matches && s.games[id].matchId != Some(m))
      && forall m :: m in next.matches ==> next.matches[m] == s.matches[m]
  {
  }

  /** The same call if nothing ever crashed. */
  function SmoothStep(s: Store, e: Event): Store {
    Step(s, if e.Submit? then e.(crash := false) else e)
  }

  function Run(s: Store, events: seq<Event>): Store
    decreases |events|
  {
    if events == [] then s else Run(Step(s, events[0]), events[1..])
  }

  function SmoothRun(s: Store, events: seq<Event>): Store
    decreases |events|
  {
    if events == [] then s else SmoothRun(SmoothStep(s, events[0]), events[1..])
  }

  /** A creation submitted again overwrites its record; here that loses no join, refund or settlement. */
  predicate LosesNothing(s: Store, u: Submission) {
    u.preparation.CreationPrep? && u.transactionId in s.games ==>
      var g := s.games[u.transactionId];
      g.join.None? && g.safety == [] && g.automatic.None?
  }

  ghost predicate PossibleRun(s: Store, events: seq<Event>)
    decreases |events|
  {
    events == []
    || ((events[0].Submit? ==> Fresh(s, events[0].submission))
        && (events[0].Resubmit? ==> LosesNothing(s, events[0].submission))
        && PossibleRun(SmoothStep(s, events[0]), events[1..]))
  }

  // --- Steps that are no submission ----------------------------------------

  lemma {:induction false} LogsShrinkAlike(a: seq<Operation>, b: seq<Operation>, gameId: string)
    requires SameLog(a, b)
    ensures SameLog(WithoutGame(a, gameId), WithoutGame(b, gameId))
    decreases |a|
  {
    if a != [] {
      assert a[0].(createdAt := 0, updatedAt := 0) == b[0].(createdAt := 0, updatedAt := 0);
      assert SameLog(a[1..], b[1..]);
      LogsShrinkAlike(a[1..], b[1..], gameId);
    }
  }

  lemma {:induction false} KnownIsTimeless(a: seq<Operation>, b: seq<Operation>, u: Submission)
    requires SameLog(a, b)
    ensures InLog(a, u) <==> InLog(b, u)
  {
    forall i | 0 <= i < |a|
      ensures a[i] == Logged(u, a[i].createdAt, a[i].updatedAt) <==> b[i] == Logged(u, b[i].createdAt, b[i].updatedAt)
    {
      assert a[i].(createdAt := 0, updatedAt := 0) == b[i].(createdAt := 0, updatedAt := 0);
    }
  }

  lemma {:induction false} ProgressAgrees(a: Store, b: Store, e: Event)
    requires SameStores(a, b) && (e.Progress? || e.Complete?)
    ensures SameStores(Step(a, e), Step(b, e))
  {
    var id := e.gameId;
    if id in a.games {
      var g, h := Step(a, e).games[id], Step(b, e).games[id];
      ProgressedAlike(a.games[id], b.games[id], e.status, if e.Progress? then e.attempts else a.games[id].attempts);
      ReplacedAlike(a.games, b.games, id, g, h);
      if e.Complete? { LogsShrinkAlike(a.log, b.log, id); }
    }
  }

  lemma ProgressedAlike(g: Game, h: Game, status: string, attempts: seq<string>)
    requires Timeless(g) == Timeless(h)
    ensures g.attempts == h.attempts
    ensures Timeless(g.(status := status, attempts := attempts)) == Timeless(h.(status := status, attempts := attempts))
    ensures Timeless(g.(status := status)) == Timeless(h.(status := status))
  {
  }

  lemma {:induction false} ProgressKeeps(s: Store, e: Event)
    requires Inv(s) && (e.Progress? || e.Complete?)
    ensures Inv(Step(s, e))
  {
    var id := e.gameId;
    if id in s.games {
      var h := Step(s, e).games[id];
      forall op | op in s.log
        ensures Shows(s.games[id := h], s.creations, op)
      {
        ShowsAfter(s.games, s.creations, op, id, h);
      }
    }
  }

  /** A reflected log refuses a second join and a second settlement: only creations and refunds can be saved again. */
  lemma {:induction false} KnownIsShown(s: Store, u: Submission)
    requires Inv(s) && InLog(s.log, u) && Allowed(s, u)
    ensures u.preparation.CreationPrep? || u.preparation.RefundPrep?
  {
    var i :| 0 <= i < |s.log| && s.log[i] == Logged(u, s.log[i].createdAt, s.log[i].updatedAt);
    assert Shows(s.games, s.creations, s.log[i]);
  }

  /** The record saved again, which does not need a fresh transaction. */
  lemma {:induction false} AgainAgrees(a: Store, b: Store, u: Submission, at: Millis)
    requires SameStores(a, b) && Allowed(a, u)
    ensures SameStores(Submitted(a, u, at), Submitted(b, u, at))
  {
    AdmissibleIsTimeless(a, b, u);
    SubmittedIgnoresLog(a, a.log, u, at);
    SubmittedIgnoresLog(b, b.log, u, at);
    SavedGamesAgree(a, b, u, at, at);
    ReplacedAlike(a.games, b.games, GameOf(u), SavedGame(a, u, at), SavedGame(b, u, at));
  }

  lemma {:induction false} AgainKeeps(s: Store, u: Submission, at: Millis)
    requires Inv(s) && InLog(s.log, u) && Allowed(s, u) && LosesNothing(s, u)
    ensures Inv(Submitted(s, u, at))
  {
    KnownIsShown(s, u);
    var id := GameOf(u);
    var h := Submitted(s, u, at).games[id];
    if u.preparation.RefundPrep? { SafetyAppend(s.games[id], h, h.safety[|s.games[id].safety|]); }
    forall op | op in s.log
      ensures Shows(s.games[id := h], s.creations, op)
    {
      ShowsAfter(s.games, s.creations, op, id, h);
    }
  }

  // --- One step of both runs -----------------------------------------------

  predicate IsJoin(e: Event) {
    e.Submit? && e.submission.preparation.JoinPrep?
  }

  /** What the step does to the matches of the crashed run, told from the smooth one. */
  function MatchesAfter(matches: map<string, Option<string>>, b: Store, e: Event): map<string, Option<string>> {
    match e
    case Submit(u, crash, _) =>
      if u.preparation.CreationPrep? && Allowed(b, u) && !crash
          then Attached(matches, u.preparation.matchId, u.transactionId) else matches
    case Resubmit(u, _) =>
      if u.preparation.CreationPrep? && Allowed(b, u) && InLog(b.log, u)
          then Attached(matches, u.preparation.matchId, u.transactionId)
      else matches
    case Complete(id, _) => if id in b.games then WithoutMatch(matches, b.games[id]) else matches
    case _ => matches
  }

  lemma SameIsSymmetric(a: Store, b: Store)
    requires SameStores(a, b)
    ensures SameStores(b, a)
  {
  }

  lemma {:induction false} MatchesFollow(a: Store, b: Store, e: Event)
    requires SameStores(a, b)
    ensures Step(a, e).matches == MatchesAfter(a.matches, b, e)
  {
    match e
    case Submit(_, _, _) => SubmitMatches(a, b, e);
    case Resubmit(u, _) => ResubmitMatches(a, b, e);
    case Complete(id, _) => if id in a.games { assert Timeless(a.games[id]).matchId == Timeless(b.games[id]).matchId; }
    case _ =>
  }

  lemma {:induction false} SubmitMatches(a: Store, b: Store, e: Event)
    requires SameStores(a, b) && e.Submit?
    ensures Step(a, e).matches == MatchesAfter(a.matches, b, e)
  {
    AdmissibleIsTimeless(a, b, e.submission);
  }

  lemma {:induction false} ResubmitMatches(a: Store, b: Store, e: Event)
    requires SameStores(a, b) && e.Resubmit?
    ensures Step(a, e).matches == MatchesAfter(a.matches, b, e)
  {
    AdmissibleIsTimeless(a, b, e.submission);
    KnownIsTimeless(a.log, b.log, e.submission);
  }

  /** The join finds its match as it would have found it without the crashes. */
  ghost predicate FindsItsMatch(matches: map<string, Option<string>>, b: Store, e: Event) {
    IsJoin(e) && Allowed(b, e.submission) ==>
      var id := e.submission.preparation.gameId;
      Named(matches, b.games[id], id) <==> Named(b.matches, b.games[id], id)
  }

  lemma {:induction false} AcceptsAlike(a: Store, b: Store, u: Submission)
    requires SameStores(a, b)
    ensures !u.preparation.JoinPrep? ==> (Accepts(a, u) <==> Accepts(b, u))
    ensures u.preparation.JoinPrep? && Allowed(b, u) ==>
      (Accepts(a, u) <==> Named(a.matches, b.games[u.preparation.gameId], u.preparation.gameId))
  {
    AdmissibleIsTimeless(a, b, u);
    if u.preparation.JoinPrep? && u.preparation.gameId in a.games {
      assert Timeless(a.games[u.preparation.gameId]).matchId == Timeless(b.games[u.preparation.gameId]).matchId;
    }
  }

  lemma {:induction false} SubmitAgrees(a: Store, b: Store, e: Event)
    requires SameStores(a, b) && Settled(a) && Inv(b) && e.Submit? && Fresh(b, e.submission)
    requires FindsItsMatch(a.matches, b, e)
    ensures SameStores(Step(a, e), SmoothStep(b, e)) && Inv(SmoothStep(b, e))
  {
    var u := e.submission;
    AcceptsAlike(a, b, u);
    AdmissibleIsTimeless(a, b, u);
    InvIsTimeless(a, b);
    if Accepts(b, u) {
      CompletedKeeps(b, u, e.stamp);
      if e.crash {
        RepairIsTheSave(a, b, u, e.stamp);
      } else {
        SavesAgree(a, b, u, e.stamp);
      }
    }
  }

  lemma {:induction false} ResubmitAgrees(a: Store, b: Store, e: Event)
    requires SameStores(a, b) && Settled(a) && Inv(b) && e.Resubmit? && LosesNothing(b, e.submission)
    ensures SameStores(Step(a, e), SmoothStep(b, e)) && Inv(SmoothStep(b, e))
  {
    var u := e.submission;
    AcceptsAlike(a, b, u);
    AdmissibleIsTimeless(a, b, u);
    KnownIsTimeless(a.log, b.log, u);
    if InLog(b.log, u) && Allowed(b, u) {
      KnownIsShown(b, u);
      AgainKeeps(b, u, e.saved);
      AgainAgrees(a, b, u, e.saved);
    }
  }

  lemma {:induction false} StepAgrees(a: Store, b: Store, e: Event)
    requires SameStores(a, b) && Settled(a) && Inv(b) && FindsItsMatch(a.matches, b, e)
    requires e.Submit? ==> Fresh(b, e.submission)
    requires e.Resubmit? ==> LosesNothing(b, e.submission)
    ensures SameStores(Step(a, e), SmoothStep(b, e)) && Inv(SmoothStep(b, e))
  {
    match e
    case Submit(_, _, _) => SubmitAgrees(a, b, e);
    case Resubmit(_, _) => ResubmitAgrees(a, b, e);
    case Repair =>
      SettledStays(a.games, a.creations, a.log);
      SettledStays(b.games, b.creations, b.log);
    case _ =>
      ProgressAgrees(a, b, e);
      ProgressKeeps(b, e);
  }

  /** A join that one run refuses and the other takes shows in the games at once. */
  lemma {:induction false} StrayJoinShows(a: Store, b: Store, e: Event)
    requires SameStores(a, b) && Inv(b) && !FindsItsMatch(a.matches, b, e)
    ensures !SameGames(Step(a, e).games, SmoothStep(b, e).games)
  {
    var u := e.submission;
    var id := u.preparation.gameId;
    AcceptsAlike(a, b, u);
    AdmissibleIsTimeless(a, b, u);
    InvIsTimeless(a, b);
    if Accepts(a, u) {
      if e.crash { RepairedGames(a, u, e.stamp); }
      assert Step(a, e).games[id].join.Some? && SmoothStep(b, e).games[id].join.None?;
    } else {
      assert Step(a, e).games[id].join.None? && SmoothStep(b, e).games[id].join.Some?;
    }
    assert Timeless(Step(a, e).games[id]) != Timeless(SmoothStep(b, e).games[id]);
  }

  // --- When crashes leave no trace -----------------------------------------

  /** At no moment do the two runs show different games, up to timestamps. */
  ghost predicate AlwaysAlike(a: Store, b: Store, events: seq<Event>)
    decreases |events|
  {
    SameGames(a.games, b.games) && (events == [] || AlwaysAlike(Step(a, events[0]), SmoothStep(b, events[0]),
        events[1..]))
  }

  /** Every join of the smooth run finds its match as the crashes have left it. */
  ghost predicate JoinsFindTheirMatch(matches: map<string, Option<string>>, b: Store, events: seq<Event>)
    decreases |events|
  {
    events == []
    || (FindsItsMatch(matches, b, events[0])
        && JoinsFindTheirMatch(MatchesAfter(matches, b, events[0]), SmoothStep(b, events[0]), events[1..]))
  }

  /** However often the service crashes between a broadcast and its save, the games are at every moment as if
      it never had, up to timestamps, exactly when no join finds its match otherwise than it would have. */
  lemma {:induction false} CrashesLeaveNoTraceIff(a: Store, b: Store, events: seq<Event>)
    requires SameStores(a, b) && Inv(b) && PossibleRun(b, events)
    ensures AlwaysAlike(a, b, events) <==> JoinsFindTheirMatch(a.matches, b, events)
    ensures JoinsFindTheirMatch(a.matches, b, events) ==>
      SameStores(Run(a, events), SmoothRun(b, events)) && Reconcile(Run(a, events)) == Run(a, events)
    decreases |events|
  {
    SameIsSymmetric(a, b);
    SettledIsTimeless(b, a);
    if events == [] {
      SettledStays(a.games, a.creations, a.log);
    } else {
      var e := events[0];
      MatchesFollow(a, b, e);
      if FindsItsMatch(a.matches, b, e) {
        StepAgrees(a, b, e);
        CrashesLeaveNoTraceIff(Step(a, e), SmoothStep(b, e), events[1..]);
      } else {
        StrayJoinShows(a, b, e);
      }
    }
  }
}
