/**
 One game's escrow on the chain.  The chain is any list of transactions in which no output is spent
 twice; a covenant coin moves only by the transactions the service builds for it.  Whatever such a
 chain does, the escrow is paid out at most once, and to the sompi.
 */
module EscrowLedger {
  import opened Outcomes
  import opened Economics
  import opened Transactions

  const FALLBACK_CLAIM_DAA_OFFSET := 3_000
  const NO_REVEAL_REFUND_DAA_OFFSET := 3_000

  datatype Game = Game(creator: Key, creatorCommit: Commitment, stake: int, deadline: int, creatorEven: bool,
      feeKey: Key, covenantId: CovenantId)

  datatype Stage =
    | Waiting
    | Ready(joiner: Key, joinerCommit: Commitment)
    | Led(joiner: Key, joinerCommit: Commitment, first: Player, choice: Choice)

  /** The ways out of a stage; wallet-funded ones carry the player's coins, fee and change. */
  datatype Move =
    | Join(joiner: Key, joinerCommit: Commitment, funding: seq<Coin>, fee: int, change: Option<Change>)
    | CreatorRefund(funding: seq<Coin>, fee: int, change: Option<Change>)
    | RefundOpen
    | Lead(player: Player, choice: Choice, nonce: string, funding: seq<Coin>, fee: int, change: Option<Change>)
    | RefundAll
    | Settle(player: Player, choice: Choice, nonce: string, funding: seq<Coin>, fee: int, change: Option<Change>)
    | FallbackClaim

  predicate Continues(move: Move) {
    move.Join? || move.Lead?
  }

  // --- Who wins ------------------------------------------------------------

  function Bit(choice: Choice): nat {
    if choice.Zero? then 0 else 1
  }

  function ParityOutcome(creatorChoice: Choice, joinerChoice: Choice, creatorEven: bool): Player {
    if (Bit(creatorChoice) + Bit(joinerChoice)) % 2 == (if creatorEven then 0 else 1) then Creator else Joiner
  }

  /** The creator wins exactly when the choices are equal in an even game, or differ in an odd one. */
  lemma CreatorWinsIff(creatorChoice: Choice, joinerChoice: Choice, creatorEven: bool)
    ensures ParityOutcome(creatorChoice, joinerChoice, creatorEven).Creator?
      <==> (creatorChoice == joinerChoice) == creatorEven
  {
    match creatorChoice { case Zero => case One => }
  }

  /** The wager is fair: whatever the other does, each player's own choice decides who wins. */
  lemma EitherPlayerDecides(mine: Choice, other: Choice, theirs: Choice, creatorEven: bool)
    requires mine != other
    ensures ParityOutcome(mine, theirs, creatorEven) != ParityOutcome(other, theirs, creatorEven)
    ensures ParityOutcome(theirs, mine, creatorEven) != ParityOutcome(theirs, other, creatorEven)
    ensures ParityOutcome(mine, theirs, creatorEven) != ParityOutcome(mine, theirs, !creatorEven)
  {
  }

  function ChoiceOf(who: Player, player: Player, choice: Choice, otherChoice: Choice): Choice {
    if who == player then choice else otherChoice
  }

  function Winner(game: Game, stage: Stage, player: Player, choice: Choice): Player
    requires stage.Led?
  {
    ParityOutcome(ChoiceOf(Creator, player, choice, stage.choice), ChoiceOf(Joiner, player, choice, stage.choice),
        game.creatorEven)
  }

  function KeyOf(game: Game, stage: Stage, player: Player): Key
    requires !stage.Waiting?
  {
    if player.Creator? then game.creator else stage.joiner
  }

  // --- Covenant coins ------------------------------------------------------

  function StateOf(game: Game, stage: Stage): Escrow {
    var base := Open(game.creator, game.creatorCommit, game.stake, game.deadline, game.creatorEven, game.feeKey);
    match stage
    case Waiting => base
    case Ready(joiner, commit) => Joined(base, joiner, commit)
    case Led(joiner, commit, first, choice) =>
      Revealed(Joined(base, joiner, commit), if first.Creator? then game.creator else joiner,
               ChoiceOf(Creator, first, choice, Zero), ChoiceOf(Joiner, first, choice, Zero))
  }

  function Held(game: Game, stage: Stage): int {
    if stage.Waiting? then game.stake else 2 * game.stake
  }

  function EscrowCoin(game: Game, stage: Stage, at: Outpoint): Coin {
    Coin(at, Held(game, stage), Covenant(StateOf(game, stage)), Some(game.covenantId))
  }

  function Next(stage: Stage, move: Move): Stage
    requires Continues(move)
  {
    match move
    case Join(joiner, commit, _, _, _) => Ready(joiner, commit)
    case Lead(player, choice, _, _, _, _) =>
      if stage.Waiting? then Led("", Opaque(""), player, choice)
          else Led(stage.joiner, stage.joinerCommit, player, choice)
  }

  function PlayerOutputs(key: Key, value: int): seq<Output> {
    [Output(value, PayTo(key), None)]
  }

  function FeeOutputs(game: Game, terms: Terms): seq<Output> {
    if terms.gameFee > 0 then [Output(terms.gameFee, PayTo(game.feeKey), None)] else []
  }

  /** The outputs the escrow itself pays for in each move. */
  function EscrowOutputs(game: Game, stage: Stage, move: Move, terms: Terms): seq<Output> {
    match move
    case Join(_, _, _, _, _) => [Output(terms.pot, Covenant(StateOf(game, Next(stage, move))), Some(game.covenantId))]
    case CreatorRefund(_, _, _) => PlayerOutputs(game.creator, terms.refundPayout)
    case RefundOpen => PlayerOutputs(game.creator, terms.refundOpenPayout)
    case Lead(_, _, _, _, _, _) => [Output(terms.pot, Covenant(StateOf(game, Next(stage, move))),
        Some(game.covenantId))]
    case RefundAll =>
      if stage.Waiting? then []
      else PlayerOutputs(game.creator, terms.refundAllPayout) + PlayerOutputs(stage.joiner, terms.refundAllPayout)
    case Settle(player, choice, _, _, _, _) =>
      if !stage.Led? then []
      else
        PlayerOutputs(KeyOf(game, stage, Winner(game, stage, player, choice)), terms.settlementPayout)
        + FeeOutputs(game, terms)
    case FallbackClaim =>
      if !stage.Led? then []
      else PlayerOutputs(KeyOf(game, stage, stage.first), terms.fallbackPayout) + FeeOutputs(game, terms)
  }

  predicate Fits(stage: Stage, move: Move) {
    match move
    case Join(_, _, _, _, _) => stage.Waiting?
    case CreatorRefund(_, _, _) => stage.Waiting?
    case RefundOpen => stage.Waiting?
    case Lead(_, _, _, _, _, _) => stage.Ready?
    case RefundAll => stage.Ready?
    case Settle(player, _, _, _, _, _) => stage.Led? && player != stage.first
    case FallbackClaim => stage.Led?
  }

  function RevealInvocation(game: Game, stage: Stage, player: Player, choice: Choice, nonce: string,
          payout: Key): SignatureScript
    requires !stage.Waiting?
  {
    Invocation(RevealEntry, [KeyArg(KeyOf(game, stage, player)), ChoiceArg(choice), NonceArg(nonce), KeyArg(payout),
        KeyArg(game.feeKey)])
  }

  /** The transaction the service builds for a move. */
  function Build(game: Game, stage: Stage, at: Outpoint, move: Move): Result<Tx, BuildError> {
    var coin := EscrowCoin(game, stage, at);
    match Resolve(game.stake)
    case Err(_) => Err(InvalidStakeAmount)
    case Ok(terms) =>
      if !Fits(stage, move) then Err(InvalidTransaction)
      else
        var outputs := EscrowOutputs(game, stage, move, terms);
        match move
        case Join(joiner, commit, funding, fee, change) =>
          PrepareJoin(coin, game.stake, Invocation(JoinEntry, [KeyArg(joiner), CommitArg(commit)]), outputs[0],
              funding, fee, change)
        case CreatorRefund(funding, fee, change) =>
          PrepareTerminal(coin, 0, 0, Invocation(RefundEntry, [KeyArg(game.creator)]), outputs, funding, fee, change)
        case RefundOpen =>
          PrepareCovenantOnly(coin, 0, game.deadline, Invocation(RefundOpenEntry, [KeyArg(game.creator)]), outputs)
        case Lead(player, choice, nonce, funding, fee, change) =>
          PrepareTerminal(coin, 0, 0, RevealInvocation(game, stage, player, choice, nonce, KeyOf(game, stage, player)),
              outputs, funding, fee, change)
        case RefundAll =>
          PrepareCovenantOnly(coin, NO_REVEAL_REFUND_DAA_OFFSET, 0,
              Invocation(RefundAllEntry, [KeyArg(game.creator), KeyArg(stage.joiner)]), outputs)
        case Settle(player, choice, nonce, funding, fee, change) =>
          PrepareTerminal(coin, 0, 0, RevealInvocation(game, stage, player, choice, nonce,
              KeyOf(game, stage, Winner(game, stage, player, choice))), outputs, funding, fee, change)
        case FallbackClaim =>
          PrepareCovenantOnly(coin, FALLBACK_CLAIM_DAA_OFFSET, 0,
              Invocation(FallbackEntry, [KeyArg(KeyOf(game, stage, stage.first)), KeyArg(game.feeKey)]), outputs)
  }

  // --- One transaction -----------------------------------------------------

  function PaidTo(outputs: seq<Output>, key: Key): int {
    if outputs == [] then 0
    else (if outputs[0].script == PayTo(key) then outputs[0].value else 0) + PaidTo(outputs[1..], key)
  }

  /** The three parties of a game are three different keys. */
  predicate DistinctKeys(game: Game, stage: Stage) {
    game.creator != game.feeKey && (!stage.Waiting? ==> stage.joiner != game.creator && stage.joiner != game.feeKey)
  }

  /** What a transaction takes from the wallets that funded it, after their change: the matching stake
      for a join, nothing but the network fee otherwise. */
  function Funding(move: Move): seq<Coin> {
    match move
    case Join(_, _, funding, _, _) => funding
    case CreatorRefund(funding, _, _) => funding
    case Lead(_, _, _, funding, _, _) => funding
    case Settle(_, _, _, funding, _, _) => funding
    case _ => []
  }

  function NetworkFee(move: Move): int {
    match move
    case Join(_, _, _, fee, _) => fee
    case CreatorRefund(_, fee, _) => fee
    case Lead(_, _, _, _, fee, _) => fee
    case Settle(_, _, _, _, fee, _) => fee
    case _ => AUTOMATION_FEE_SOMPI
  }

  /** A transaction begins with the escrow's own outputs, pays exactly its stated network fee, and
      returns to its wallets what they brought beyond that and beyond what they `added` to the escrow. */
  ghost predicate IsExact(tx: Tx, coin: Coin, outputs: seq<Output>, funding: seq<Coin>, fee: int, added: int) {
    && outputs != [] && outputs <= tx.outputs
    && tx.inputs != [] && tx.inputs[0].coin == coin
    && TotalIn(tx.inputs) - TotalOut(tx.outputs) == fee
    && (funding == [] ==> tx.outputs == outputs)
    && (funding != [] ==> TotalOut(tx.outputs[|outputs|..]) == TotalOf(funding) - fee - added)
  }

  lemma {:induction false} BuildIsExact(game: Game, stage: Stage, at: Outpoint, move: Move)
    requires Build(game, stage, at, move).Ok?
    ensures Resolve(game.stake).Ok? && Fits(stage, move)
    ensures IsExact(Build(game, stage, at, move).value, EscrowCoin(game, stage, at),
                    EscrowOutputs(game, stage, move, Resolve(game.stake).value), Funding(move), NetworkFee(move),
                    if move.Join? then game.stake else 0)
  {
    match move {
      case Join(_, _, _, _, _) => JoinBuildIsExact(game, stage, at, move);
      case RefundOpen => OpenBuildIsExact(game, stage, at, move);
      case RefundAll => OpenBuildIsExact(game, stage, at, move);
      case FallbackClaim => OpenBuildIsExact(game, stage, at, move);
      case _ => FundedBuildIsExact(game, stage, at, move);
    }
  }

  lemma {:induction false} JoinBuildIsExact(game: Game, stage: Stage, at: Outpoint, move: Move)
    requires Build(game, stage, at, move).Ok? && move.Join?
    ensures IsExact(Build(game, stage, at, move).value, EscrowCoin(game, stage, at),
                    EscrowOutputs(game, stage, move, Resolve(game.stake).value), Funding(move),
                    NetworkFee(move), game.stake)
  {
    var outputs := EscrowOutputs(game, stage, move, Resolve(game.stake).value);
    JoinIsExact(EscrowCoin(game, stage, at), game.stake,
        Invocation(JoinEntry, [KeyArg(move.joiner), CommitArg(move.joinerCommit)]),
                outputs[0], move.funding, move.fee, move.change);
  }

  lemma {:induction false} FundedBuildIsExact(game: Game, stage: Stage, at: Outpoint, move: Move)
    requires Build(game, stage, at, move).Ok? && (move.CreatorRefund? || move.Lead? || move.Settle?)
    ensures IsExact(Build(game, stage, at, move).value, EscrowCoin(game, stage, at),
                    EscrowOutputs(game, stage, move, Resolve(game.stake).value), Funding(move), NetworkFee(move), 0)
  {
    var coin := EscrowCoin(game, stage, at);
    var outputs := EscrowOutputs(game, stage, move, Resolve(game.stake).value);
    TwoOutputs(outputs);
    var invocation := Build(game, stage, at, move).value.inputs[0].signature;
    TerminalIsExact(coin, 0, 0, invocation, outputs, Funding(move), NetworkFee(move), move.change);
  }

  lemma {:induction false} OpenBuildIsExact(game: Game, stage: Stage, at: Outpoint, move: Move)
    requires Build(game, stage, at, move).Ok? && (move.RefundOpen? || move.RefundAll? || move.FallbackClaim?)
    ensures IsExact(Build(game, stage, at, move).value, EscrowCoin(game, stage, at),
                    EscrowOutputs(game, stage, move, Resolve(game.stake).value), [], AUTOMATION_FEE_SOMPI, 0)
  {
    var tx := Build(game, stage, at, move).value;
    TwoOutputs(tx.outputs);
    TotalInCons(tx.inputs[0], []);
    assert tx.inputs == [tx.inputs[0]] + [];
  }

  lemma TwoOutputs(outputs: seq<Output>)
    requires |outputs| <= 2
    ensures TotalOut(outputs)
         == (if |outputs| > 0 then outputs[0].value else 0) + (if |outputs| > 1 then outputs[1].value else 0)
  {
    if |outputs| == 1 { assert outputs[1..] == []; }
    if |outputs| == 2 { assert outputs[1..][1..] == []; }
  }

  // --- What can be built ---------------------------------------------------

  /** The wallet pays the fee, and what it adds to the escrow, with positive coins, and gets back what is left. */
  ghost predicate Affords(funding: seq<Coin>, fee: int, added: int, change: Option<Change>) {
    && fee >= 0 && funding != [] && (forall i :: 0 <= i < |funding| ==> funding[i].amount > 0)
    && Returns(TotalOf(funding) - fee - added, change)
  }

  /** Each move is possible from one stage, and if its wallet can afford it. */
  ghost predicate CanBuild(game: Game, stage: Stage, move: Move) {
    game.stake >= 100_000_000 &&
    match move
    case Join(_, _, funding, fee, change) =>
      && stage.Waiting? && Affords(funding, fee, game.stake, change)
      && forall i :: 0 <= i < |funding| ==> funding[i].covenantId.None?
    case CreatorRefund(funding, fee, change) => stage.Waiting? && Affords(funding, fee, 0, change)
    case RefundOpen => stage.Waiting?
    case Lead(_, _, _, funding, fee, change) => stage.Ready? && Affords(funding, fee, 0, change)
    case RefundAll => stage.Ready?
    case Settle(player, _, _, funding, fee, change) =>
      stage.Led? && player != stage.first && Affords(funding, fee, 0, change)
    case FallbackClaim => stage.Led?
  }

  lemma {:induction false} BuiltIff(game: Game, stage: Stage, at: Outpoint, move: Move)
    ensures Build(game, stage, at, move).Ok? <==> CanBuild(game, stage, move)
  {
    if Resolve(game.stake).Ok? && Fits(stage, move) {
      match move {
        case Join(joiner, commit, funding, fee, change) =>
          var outputs := EscrowOutputs(game, stage, move, Resolve(game.stake).value);
          JoinBuiltIff(EscrowCoin(game, stage, at), game.stake,
              Invocation(JoinEntry, [KeyArg(joiner), CommitArg(commit)]), outputs[0], funding, fee, change);
          if funding == [] { assert TotalOf(funding) == 0; }
        case RefundOpen => UnfundedIsBuilt(game, stage, at, move);
        case RefundAll => UnfundedIsBuilt(game, stage, at, move);
        case FallbackClaim => UnfundedIsBuilt(game, stage, at, move);
        case _ => FundedIsBuiltIff(game, stage, at, move);
      }
    }
  }

  lemma {:induction false} UnfundedIsBuilt(game: Game, stage: Stage, at: Outpoint, move: Move)
    requires Resolve(game.stake).Ok? && Fits(stage, move)
    requires move.RefundOpen? || move.RefundAll? || move.FallbackClaim?
    ensures Build(game, stage, at, move).Ok?
  {
    TwoOutputs(EscrowOutputs(game, stage, move, Resolve(game.stake).value));
  }

  lemma {:induction false} FundedIsBuiltIff(game: Game, stage: Stage, at: Outpoint, move: Move)
    requires Resolve(game.stake).Ok? && Fits(stage, move) && (move.CreatorRefund? || move.Lead? || move.Settle?)
    ensures Build(game, stage, at, move).Ok? <==> Affords(move.funding, move.fee, 0, move.change)
  {
    match move {
      case CreatorRefund(_, _, _) => RefundIsBuiltIff(game, stage, at, move);
      case Lead(_, _, _, _, _, _) => LeadIsBuiltIff(game, stage, at, move);
      case Settle(_, _, _, _, _, _) => SettleIsBuiltIff(game, stage, at, move);
    }
  }

  lemma {:induction false} RefundIsBuiltIff(game: Game, stage: Stage, at: Outpoint, move: Move)
    requires Resolve(game.stake).Ok? && stage.Waiting? && move.CreatorRefund?
    ensures Build(game, stage, at, move).Ok? <==> Affords(move.funding, move.fee, 0, move.change)
  {
    var outputs := EscrowOutputs(game, stage, move, Resolve(game.stake).value);
    TwoOutputs(outputs);
    TerminalBuiltIff(EscrowCoin(game, stage, at), 0, 0, Invocation(RefundEntry, [KeyArg(game.creator)]), outputs,
        move.funding, move.fee, move.change);
  }

  lemma {:induction false} LeadIsBuiltIff(game: Game, stage: Stage, at: Outpoint, move: Move)
    requires Resolve(game.stake).Ok? && stage.Ready? && move.Lead?
    ensures Build(game, stage, at, move).Ok? <==> Affords(move.funding, move.fee, 0, move.change)
  {
    var outputs := EscrowOutputs(game, stage, move, Resolve(game.stake).value);
    var invocation := RevealInvocation(game, stage, move.player, move.choice, move.nonce,
        KeyOf(game, stage, move.player));
    TwoOutputs(outputs);
    TerminalBuiltIff(EscrowCoin(game, stage, at), 0, 0, invocation, outputs, move.funding, move.fee, move.change);
  }

  lemma {:induction false} SettleIsBuiltIff(game: Game, stage: Stage, at: Outpoint, move: Move)
    requires Resolve(game.stake).Ok? && stage.Led? && move.Settle? && move.player != stage.first
    ensures Build(game, stage, at, move).Ok? <==> Affords(move.funding, move.fee, 0, move.change)
  {
    var outputs := EscrowOutputs(game, stage, move, Resolve(game.stake).value);
    var invocation := RevealInvocation(game, stage, move.player, move.choice, move.nonce,
        KeyOf(game, stage, Winner(game, stage, move.player, move.choice)));
    TwoOutputs(outputs);
    TerminalBuiltIff(EscrowCoin(game, stage, at), 0, 0, invocation, outputs, move.funding, move.fee, move.change);
  }

  // --- Who is paid ---------------------------------------------------------

  ghost predicate Pays(tx: Tx, i: nat, key: Key, value: int) {
    i < |tx.outputs| && tx.outputs[i] == Output(value, PayTo(key), None)
  }

  /** The game fee follows the payout, if there is one. */
  ghost predicate PaysWinner(game: Game, tx: Tx, key: Key, reserved: int) {
    Resolve(game.stake).Ok? &&
    var fee := Resolve(game.stake).value.gameFee;
    Pays(tx, 0, key, 2 * game.stake - fee - reserved) && (fee > 0 ==> Pays(tx, 1, game.feeKey, fee))
  }

  /** Who gets what by each ending, and how long the covenant makes it wait. */
  ghost predicate PaysAsPromised(game: Game, stage: Stage, move: Move, tx: Tx) {
    tx.inputs != [] &&
    match move
    case CreatorRefund(_, _, _) =>
      Pays(tx, 0, game.creator, game.stake) && tx.lockTime == 0 && tx.inputs[0].sequence == 0
    case RefundOpen =>
      && Pays(tx, 0, game.creator, game.stake - 1_600_000) && |tx.outputs| == 1
      && tx.lockTime == game.deadline && tx.inputs[0].sequence == 0
    case RefundAll =>
      && stage.Ready? && |tx.outputs| == 2
      && Pays(tx, 0, game.creator, game.stake - 800_000) && Pays(tx, 1, stage.joiner, game.stake - 800_000)
      && tx.lockTime == 0 && tx.inputs[0].sequence == 3_000
    case Settle(player, choice, _, _, _, _) =>
      && stage.Led? && player != stage.first
      && PaysWinner(game, tx, if (choice == stage.choice) == game.creatorEven then game.creator else stage.joiner, 0)
      && tx.lockTime == 0 && tx.inputs[0].sequence == 0
    case FallbackClaim =>
      && stage.Led?
      && PaysWinner(game, tx, if stage.first.Creator? then game.creator else stage.joiner, 1_600_000)
      && tx.lockTime == 0 && tx.inputs[0].sequence == 3_000
    case _ => true
  }

  lemma {:induction false} EndingPaysAsPromised(game: Game, stage: Stage, at: Outpoint, move: Move)
    requires Build(game, stage, at, move).Ok? && !Continues(move)
    ensures PaysAsPromised(game, stage, move, Build(game, stage, at, move).value)
  {
    BuildIsExact(game, stage, at, move);
    var tx := Build(game, stage, at, move).value;
    var outputs := EscrowOutputs(game, stage, move, Resolve(game.stake).value);
    assert forall i :: 0 <= i < |outputs| ==> tx.outputs[i] == outputs[i];
    if move.Settle? {
      CreatorWinsIff(move.choice, stage.choice, game.creatorEven);
      CreatorWinsIff(stage.choice, move.choice, game.creatorEven);
    }
  }

  /** What the covenant records of a game: its terms, then the second seat, then the first reveal. */
  ghost function JoinedState(game: Game, joiner: Key, commit: Commitment): Escrow {
    Joined(Open(game.creator, game.creatorCommit, game.stake, game.deadline, game.creatorEven, game.feeKey),
      joiner, commit)
  }

  ghost function RevealedState(game: Game, stage: Stage, player: Player, choice: Choice): Escrow
    requires stage.Ready?
  {
    var joined := JoinedState(game, stage.joiner, stage.joinerCommit);
    if player.Creator? then Revealed(joined, game.creator, choice, Zero)
    else Revealed(joined, stage.joiner, Zero, choice)
  }

  /** What a continuation leaves behind: the whole pot under the same covenant, in the state the move leads to. */
  ghost predicate LeavesBehind(game: Game, stage: Stage, move: Move, tx: Tx) {
    && tx.outputs != [] && tx.inputs != [] && tx.lockTime == 0 && tx.inputs[0].sequence == 0
    && tx.outputs[0].value == 2 * game.stake && tx.outputs[0].covenant == Some(game.covenantId)
    && match move
       case Join(joiner, commit, _, _, _) => tx.outputs[0].script == Covenant(JoinedState(game, joiner, commit))
       case Lead(player, choice, _, _, _, _) =>
         stage.Ready? && tx.outputs[0].script == Covenant(RevealedState(game, stage, player, choice))
       case _ => false
  }

  lemma {:induction false} ContinuationLeavesBehind(game: Game, stage: Stage, at: Outpoint, move: Move)
    requires Build(game, stage, at, move).Ok? && Continues(move)
    ensures LeavesBehind(game, stage, move, Build(game, stage, at, move).value)
  {
    BuildIsExact(game, stage, at, move);
  }

  /** The invocation names the keys it pays: the payout argument of a settlement is the key of its first output. */
  ghost predicate NamesItsPayees(tx: Tx, move: Move) {
    && tx.inputs != [] && tx.inputs[0].signature.Invocation? && tx.outputs != []
    && var entry, args := tx.inputs[0].signature.entry, tx.inputs[0].signature.args;
    match move
    case CreatorRefund(_, _, _) => entry.RefundEntry? && |args| == 1 && PaysArgument(tx, 0, args[0])
    case RefundOpen => entry.RefundOpenEntry? && |args| == 1 && PaysArgument(tx, 0, args[0])
    case RefundAll =>
      entry.RefundAllEntry? && |args| == 2 && PaysArgument(tx, 0, args[0]) && PaysArgument(tx, 1, args[1])
    case FallbackClaim =>
      && entry.FallbackEntry? && |args| == 2 && PaysArgument(tx, 0, args[0])
      && (|tx.outputs| > 1 ==> PaysArgument(tx, 1, args[1]))
    case Join(joiner, commit, _, _, _) => entry.JoinEntry? && args == [KeyArg(joiner), CommitArg(commit)]
    case Lead(_, choice, nonce, _, _, _) =>
      entry.RevealEntry? && |args| == 5 && args[1..3] == [ChoiceArg(choice), NonceArg(nonce)] && args[3] == args[0]
    case Settle(_, choice, nonce, _, _, _) =>
      && entry.RevealEntry? && |args| == 5 && args[1..3] == [ChoiceArg(choice), NonceArg(nonce)]
      && PaysArgument(tx, 0, args[3])
  }

  ghost predicate PaysArgument(tx: Tx, i: nat, arg: Argument) {
    i < |tx.outputs| && arg.KeyArg? && tx.outputs[i].script == PayTo(arg.key)
  }

  ghost function InvocationFor(game: Game, stage: Stage, move: Move): SignatureScript
    requires Fits(stage, move)
  {
    match move
    case Join(joiner, commit, _, _, _) => Invocation(JoinEntry, [KeyArg(joiner), CommitArg(commit)])
    case CreatorRefund(_, _, _) => Invocation(RefundEntry, [KeyArg(game.creator)])
    case RefundOpen => Invocation(RefundOpenEntry, [KeyArg(game.creator)])
    case Lead(player, choice, nonce, _, _, _) =>
      RevealInvocation(game, stage, player, choice, nonce, KeyOf(game, stage, player))
    case RefundAll => Invocation(RefundAllEntry, [KeyArg(game.creator), KeyArg(stage.joiner)])
    case Settle(player, choice, nonce, _, _, _) =>
      RevealInvocation(game, stage, player, choice, nonce, KeyOf(game, stage, Winner(game, stage, player, choice)))
    case FallbackClaim => Invocation(FallbackEntry, [KeyArg(KeyOf(game, stage, stage.first)), KeyArg(game.feeKey)])
  }

  lemma {:induction false} BuildInvokes(game: Game, stage: Stage, at: Outpoint, move: Move)
    requires Build(game, stage, at, move).Ok?
    ensures Fits(stage, move) && Build(game, stage, at, move).value.inputs != []
    ensures Build(game, stage, at, move).value.inputs[0].signature == InvocationFor(game, stage, move)
    ensures Funding(move) == [] ==>
      Build(game, stage, at, move).value.outputs == EscrowOutputs(game, stage, move, Resolve(game.stake).value)
  {
    BuildIsExact(game, stage, at, move);
  }

  /** What the escrow pays agrees with what the invocation names. */
  lemma {:induction false} OutputsAreNamed(game: Game, stage: Stage, move: Move, tx: Tx)
    requires Resolve(game.stake).Ok? && Fits(stage, move)
    requires EscrowOutputs(game, stage, move, Resolve(game.stake).value) <= tx.outputs
    requires Funding(move) == [] ==> tx.outputs == EscrowOutputs(game, stage, move, Resolve(game.stake).value)
    requires tx.inputs != [] && tx.inputs[0].signature == InvocationFor(game, stage, move)
    ensures NamesItsPayees(tx, move)
  {
    var outputs := EscrowOutputs(game, stage, move, Resolve(game.stake).value);
    assert forall i :: 0 <= i < |outputs| ==> tx.outputs[i] == outputs[i];
  }

  lemma {:induction false} BuildNamesItsPayees(game: Game, stage: Stage, at: Outpoint, move: Move)
    requires Build(game, stage, at, move).Ok?
    ensures NamesItsPayees(Build(game, stage, at, move).value, move)
  {
    BuildIsExact(game, stage, at, move);
    BuildInvokes(game, stage, at, move);
    OutputsAreNamed(game, stage, move, Build(game, stage, at, move).value);
  }

  /** A reveal names the player who makes it, and the fee key. */
  lemma {:induction false} RevealNamesThePlayer(game: Game, stage: Stage, at: Outpoint, move: Move)
    requires Build(game, stage, at, move).Ok? && (move.Lead? || move.Settle?)
    ensures var first := Build(game, stage, at, move).value.inputs[0].signature;
      first.Invocation? && |first.args| == 5 && first.args[4] == KeyArg(game.feeKey)
      && !stage.Waiting? && first.args[0] == KeyArg(if move.player.Creator? then game.creator else stage.joiner)
  {
  }

  /** Where the escrow goes when a game ends. */
  datatype Payout = Payout(toCreator: int, toJoiner: int, gameFee: int, automation: int)

  function PayoutOf(game: Game, stage: Stage, move: Move, terms: Terms): Payout {
    var outputs := EscrowOutputs(game, stage, move, terms);
    Payout(PaidTo(outputs, game.creator), if stage.Waiting? then 0 else PaidTo(outputs, stage.joiner),
           PaidTo(outputs, game.feeKey), if Funding(move) == [] then NetworkFee(move) else 0)
  }

  ghost predicate Settles(p: Payout, locked: int) {
    && p.toCreator + p.toJoiner + p.gameFee + p.automation == locked
    && p.toCreator >= 0 && p.toJoiner >= 0 && p.gameFee >= 0 && p.automation >= 0
    && (p.toCreator > 0 || p.toJoiner > 0)
  }

  /** Each ending pays out exactly what the escrow held. */
  lemma {:induction false} EndingConserves(game: Game, stage: Stage, at: Outpoint, move: Move)
    requires Build(game, stage, at, move).Ok? && !Continues(move) && DistinctKeys(game, stage)
    ensures Settles(PayoutOf(game, stage, move, Resolve(game.stake).value), Held(game, stage))
  {
    var terms := Resolve(game.stake).value;
    var outputs := EscrowOutputs(game, stage, move, terms);
    TwoPayouts(outputs, game.creator);
    TwoPayouts(outputs, game.feeKey);
    if !stage.Waiting? { TwoPayouts(outputs, stage.joiner); }
  }

  lemma TwoPayouts(outputs: seq<Output>, key: Key)
    requires |outputs| <= 2
    ensures PaidTo(outputs, key) == (if |outputs| > 0 && outputs[0].script == PayTo(key) then outputs[0].value else 0)
                                  + (if |outputs| > 1 && outputs[1].script == PayTo(key) then outputs[1].value else 0)
  {
    if |outputs| == 1 { assert outputs[1..] == []; }
    if |outputs| == 2 { assert outputs[1..][1..] == []; }
  }
}
