/**
 Submitting a transaction writes an operation log before and after the broadcast, and only then the game
 record.  A crash between the two is repaired from the log, at start-up and every minute after.
 */
module CrashRepair {
  import opened Outcomes

  type Millis = int

  // --- Records -------------------------------------------------------------

  datatype Join = Join(
    joinerAddress: string, joinerPublicKey: string, joinerCommitment: string,
    joinedAddress: string, joinedScript: string, joinedRedeemScript: string, covenantId: string,
    transactionId: string, preparedHash: string, submittedAt: Millis)

  datatype Safety = Safety(
    action: string, playerAddress: string, role: string, continuation: Option<string>,
    transactionId: string, preparedHash: string, status: string, submittedAt: Millis)

  datatype Automatic = Automatic(
    action: string, txJson: string, payouts: seq<string>, transactionId: string, status: string, submittedAt: Millis)

  datatype Game = Game(
    gameId: string, status: string, request: string, prepared: string, creationHash: string, matchId: Option<string>,
    createdAt: Millis, join: Option<Join>, safety: seq<Safety>, automatic: Option<Automatic>, attempts: seq<string>)

  /** What was prepared for the wallet, or built by the timeout keeper. */
  datatype Preparation =
    | CreationPrep(request: string, prepared: string, matchId: Option<string>)
    | JoinPrep(gameId: string, joinerAddress: string, joinerPublicKey: string, joinerCommitment: string,
               joinedAddress: string, joinedScript: string, joinedRedeemScript: string, covenantId: string)
    | RefundPrep(gameId: string, playerAddress: string, role: string, continuation: Option<string>)
    | SettlementPrep(gameId: string, action: string, txJson: string, payouts: seq<string>)

  datatype Metadata =
    | CreationMeta(matchId: Option<string>)
    | JoinMeta(joinerAddress: string, joinerPublicKey: string, joinerCommitment: string,
               joinedAddress: string, joinedScript: string, joinedRedeemScript: string, covenantId: string)
    | RefundMeta(playerAddress: string, role: string, continuation: Option<string>)
    | SettlementMeta(status: string, action: string, txJson: string, payouts: seq<string>)
    | OtherMeta

  datatype OperationStatus = Submitting | Broadcast | Failed

  datatype Operation = Operation(
    metadata: Metadata, gameId: string, preparedHash: string, transactionId: Option<string>, status: OperationStatus,
    createdAt: Millis, updatedAt: Millis)

  /** `matches` tells which game a matched pair was given, if it was given one yet. */
  datatype Store = Store(
    games: map<string, Game>, creations: map<string, Preparation>, log: seq<Operation>,
    matches: map<string, Option<string>>)

  // --- The uninterrupted path ----------------------------------------------

  function MetadataOf(p: Preparation): Metadata {
    match p
    case CreationPrep(_, _, matchId) => CreationMeta(matchId)
    case JoinPrep(_, a, k, c, ja, js, jr, cov) => JoinMeta(a, k, c, ja, js, jr, cov)
    case RefundPrep(_, a, role, cont) => RefundMeta(a, role, cont)
    case SettlementPrep(_, action, txJson, payouts) => SettlementMeta(action + "_broadcast", action, txJson, payouts)
  }

  /** A submission: what was prepared, its hash, and the transaction the node took. */
  datatype Submission = Submission(preparation: Preparation, preparedHash: string, transactionId: string)

  function GameOf(u: Submission): string {
    match u.preparation
    case CreationPrep(_, _, _) => u.transactionId
    case JoinPrep(gameId, _, _, _, _, _, _, _) => gameId
    case RefundPrep(gameId, _, _, _) => gameId
    case SettlementPrep(gameId, _, _, _) => gameId
  }

  /** The operation as it stands in the log once the node has the transaction. */
  function Logged(u: Submission, started: Millis, answered: Millis): Operation {
    Operation(MetadataOf(u.preparation), GameOf(u), u.preparedHash, Some(u.transactionId), Broadcast, started, answered)
  }

  function Saved(s: Store, id: string, game: Game): Store {
    s.(games := s.games[id := game])
  }

  /** A creation gives its game to its match, unless the match is gone or has a game. */
  function Attached(matches: map<string, Option<string>>, matchId: Option<string>,
          gameId: string): map<string, Option<string>>
  {
    if matchId.Some? && matchId.value in matches && matches[matchId.value].None?
        then matches[matchId.value := Some(gameId)] else matches
  }

  /** The record the submitting call saves when nothing goes wrong. */
  function Submitted(s: Store, u: Submission, now: Millis): Store {
    match u.preparation
    case CreationPrep(request, prepared, matchId) =>
      var created := Game(u.transactionId, "broadcast", request, prepared, u.preparedHash, matchId, now, None, [],
          None, []);
      Saved(s, u.transactionId, created).(matches := Attached(s.matches, matchId, u.transactionId))
    case JoinPrep(gameId, a, k, c, ja, js, jr, cov) =>
      if gameId !in s.games then s
      else Saved(s, gameId, s.games[gameId].(status := "join_broadcast",
                                             join := Some(Join(a, k, c, ja, js, jr, cov, u.transactionId,
                                                 u.preparedHash, now))))
    case RefundPrep(gameId, a, role, cont) =>
      if gameId !in s.games then s
      else Saved(s, gameId, s.games[gameId].(status := "creator_refund_broadcast",
        safety := s.games[gameId].safety + [Safety("creator_refund", a, role, cont, u.transactionId, u.preparedHash,
            "broadcast", now)]))
    case SettlementPrep(gameId, action, txJson, payouts) =>
      if gameId !in s.games then s
      else Saved(s, gameId, s.games[gameId].(status := action + "_broadcast",
                                             automatic := Some(Automatic(action, txJson, payouts, u.transactionId,
                                                 "broadcast", now))))
  }

  // --- The repair ----------------------------------------------------------

  predicate HasSafety(game: Game, transactionId: string) {
    exists i :: 0 <= i < |game.safety| && game.safety[i].transactionId == transactionId
  }

  /** The record one operation calls for, if the games do not show it yet. */
  function RepairOne(games: map<string, Game>, creations: map<string, Preparation>, op: Operation): map<string, Game> {
    if !op.status.Broadcast? || op.transactionId.None? then games
    else
      var tx := op.transactionId.value;
      match op.metadata
      case CreationMeta(matchId) =>
        if tx in games || op.preparedHash !in creations || !creations[op.preparedHash].CreationPrep? then games
        else
          var p := creations[op.preparedHash];
          games[tx := Game(tx, "broadcast", p.request, p.prepared, op.preparedHash, matchId, op.createdAt, None, [],
              None, [])]
      case JoinMeta(a, k, c, ja, js, jr, cov) =>
        if op.gameId !in games || games[op.gameId].join.Some? then games
        else games[op.gameId := games[op.gameId].(status := "join_broadcast",
                                                  join := Some(Join(a, k, c, ja, js, jr, cov, tx, op.preparedHash,
                                                      op.updatedAt)))]
      case RefundMeta(a, role, cont) =>
        if op.gameId !in games || HasSafety(games[op.gameId], tx) then games
        else games[op.gameId := games[op.gameId].(status := "creator_refund_broadcast",
          safety := games[op.gameId].safety + [Safety("creator_refund", a, role, cont, tx, op.preparedHash,
              "broadcast", op.updatedAt)])]
      case SettlementMeta(status, action, txJson, payouts) =>
        if op.gameId !in games || (games[op.gameId].automatic.Some?
            && games[op.gameId].automatic.value.transactionId == tx) then games
        else games[op.gameId := games[op.gameId].(status := status,
                                                  automatic := Some(Automatic(action, txJson, payouts, tx, "broadcast",
                                                      op.updatedAt)))]
      case OtherMeta => games
  }

  function RepairAll(games: map<string, Game>, creations: map<string, Preparation>,
          log: seq<Operation>): map<string, Game>
    decreases |log|
  {
    if log == [] then games else RepairAll(RepairOne(games, creations, log[0]), creations, log[1..])
  }

  function Reconcile(s: Store): Store {
    s.(games := RepairAll(s.games, s.creations, s.log))
  }

  /** The repair loop. */
  method ReconcilePendingSubmissions(s: Store) returns (r: Store)
    ensures r == Reconcile(s)
  {
    var games := s.games;
    for i := 0 to |s.log|
      invariant RepairAll(games, s.creations, s.log[i..]) == RepairAll(s.games, s.creations, s.log)
    {
      assert s.log[i..][1..] == s.log[i + 1..];
      games := RepairOne(games, s.creations, s.log[i]);
    }
    return s.(games := games);
  }

  // --- The retry loop ------------------------------------------------------

  const SUBMISSION_RETRY_ATTEMPTS := 4

  /** What the node says to one attempt. */
  datatype Answer = Accepted(transactionId: string) | Transient | Refused

  datatype SubmitResult = Known(transactionId: string) | Pending | Sent(transactionId: string) | NotSent

  /** The attempts a submission makes: up to and including the first that is not a transient refusal. */
  function Attempts(answers: nat -> Answer, n: nat): (last: nat)
    requires n < SUBMISSION_RETRY_ATTEMPTS
    ensures n <= last < 4 && (forall k :: n <= k < last ==> answers(k).Transient?)
    ensures answers(last).Transient? ==> last == 3
    decreases SUBMISSION_RETRY_ATTEMPTS - n
  {
    if answers(n).Transient? && n + 1 < SUBMISSION_RETRY_ATTEMPTS then Attempts(answers, n + 1) else n
  }

  /** The operation as it stands before the first attempt, and when every attempt was refused. */
  function UnderWay(u: Submission, expected: Option<string>, created: Millis, started: Millis): Operation {
    Logged(u, created, started).(transactionId := expected, status := Submitting)
  }

  function GivenUp(u: Submission, expected: Option<string>, created: Millis, answered: Millis): Operation {
    Logged(u, created, answered).(transactionId := expected, status := Failed)
  }

  /** One submission against the log, with the entries it writes in order: a broadcast is never repeated, an
      unfinished one is left alone; anything else is marked as under way first, and ends as broadcast exactly
      when one of at most four attempts was accepted.  A crash leaves a prefix of the writes. */
  method SubmitOperation(existing: Option<Operation>, u: Submission, expected: Option<string>, answers: nat -> Answer,
                         started: Millis, answered: Millis)
    returns (writes: seq<Operation>, r: SubmitResult)
    requires existing.Some? && existing.value.status.Broadcast? ==> existing.value.transactionId.Some?
    ensures existing.Some? && existing.value.status.Broadcast? ==> writes == []
                                                                   && r == Known(existing.value.transactionId.value)
    ensures existing.Some? && existing.value.status.Submitting? ==> writes == [] && r.Pending?
    ensures existing.None? || existing.value.status.Failed? ==>
      var created := if existing.Some? then existing.value.createdAt else started;
      var last := answers(Attempts(answers, 0));
      && |writes| == 2 && writes[0] == UnderWay(u, expected, created, started)
      && (if last.Accepted?
          then r == Sent(last.transactionId) && writes[1]
              == Logged(u.(transactionId := last.transactionId), created, answered)
          else r.NotSent? && writes[1] == GivenUp(u, expected, created, answered))
    ensures forall w :: w in writes ==>
              w.preparedHash == u.preparedHash && (!u.preparation.CreationPrep? ==> w.gameId == GameOf(u))
    ensures |writes| == 2 ==>
      && writes[0].status.Submitting? && writes[0].transactionId == expected
      && (r.Sent? ==> writes[1].status.Broadcast? && writes[1].transactionId == Some(r.transactionId))
      && (r.NotSent? ==> writes[1].status.Failed? && writes[1].transactionId == expected)
      && (existing.Some? ==> writes[0].createdAt == writes[1].createdAt == existing.value.createdAt)
      && writes[0].updatedAt == started && writes[1].updatedAt == answered
    ensures (forall n: nat :: n < SUBMISSION_RETRY_ATTEMPTS ==> !answers(n).Accepted?) ==> !r.Sent?
  {
    if existing.Some? && existing.value.status.Broadcast? { return [], Known(existing.value.transactionId.value); }
    if existing.Some? && existing.value.status.Submitting? { return [], Pending; }
    var created := if existing.Some? then existing.value.createdAt else started;
    writes := [UnderWay(u, expected, created, started)];
    var attempt := 0;
    while true
      invariant attempt < SUBMISSION_RETRY_ATTEMPTS && Attempts(answers, attempt) == Attempts(answers, 0)
      decreases SUBMISSION_RETRY_ATTEMPTS - attempt
    {
      var answer := answers(attempt);
      if answer.Accepted? {
        return writes + [Logged(u.(transactionId := answer.transactionId), created,
            answered)], Sent(answer.transactionId);
      }
      if attempt + 1 == SUBMISSION_RETRY_ATTEMPTS || answer.Refused? { break; }
      attempt := attempt + 1;
    }
    return writes + [GivenUp(u, expected, created, answered)], NotSent;
  }
}
