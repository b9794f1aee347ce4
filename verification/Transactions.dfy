/**
 Transactions in the shape the wallets exchange them, and the builders that fill them.
 Serialisation is taken as the identity; a transaction identifier is an injective function of what the
 network hashes, which is everything but the signature scripts.
 */
module Transactions {
  import opened Outcomes
  import opened Economics

  type Key = string
  type CovenantId = string

  datatype Choice = Zero | One
  datatype Player = Creator | Joiner

  /** A 32-byte commitment: the hash of a choice and a nonce, or bytes that are nobody's hash. */
  datatype Commitment = Committed(choice: Choice, nonce: string) | Opaque(bytes: string)

  /** The state a game covenant carries in its script. */
  datatype Escrow =
    | Open(creator: Key, creatorCommit: Commitment, stake: int, deadline: int, creatorEven: bool, feeKey: Key)
    | Joined(base: Escrow, joiner: Key, joinerCommit: Commitment)
    | Revealed(joined: Escrow, first: Key, creatorChoice: Choice, joinerChoice: Choice)

  datatype Script = PayTo(key: Key) | Covenant(state: Escrow) | Raw(hex: string)

  datatype TxId = External(name: string) | IdOf(body: Body)
  datatype Outpoint = Outpoint(txId: TxId, index: nat)
  datatype Body = Body(spends: seq<Outpoint>, sequences: seq<int>, outputs: seq<Output>, lockTime: int)

  datatype Output = Output(value: int, script: Script, covenant: Option<CovenantId>)

  datatype SignatureScript = Unsigned | Invocation(entry: Entry, args: seq<Argument>) | Signature(hex: string)
  datatype Entry = JoinEntry | RevealEntry | RefundEntry | RefundOpenEntry | RefundAllEntry | FallbackEntry
  datatype Argument =
    KeyArg(key: Key) | CommitArg(commit: Commitment) | ChoiceArg(choice: Choice) | NonceArg(nonce: string)

  /** A spendable coin as the node lists it. */
  datatype Coin = Coin(outpoint: Outpoint, amount: int, script: Script, covenantId: Option<CovenantId>)

  datatype Input = Input(coin: Coin, sequence: int, signature: SignatureScript)

  datatype Tx = Tx(inputs: seq<Input>, outputs: seq<Output>, lockTime: int)

  datatype Change = Change(value: int, script: Option<Script>)

  datatype BuildError = InvalidTransaction | InvalidFee | InvalidStakeAmount | InsufficientUtxos | FeeSubstitution

  function BodyOf(tx: Tx): Body {
    Body(seq(|tx.inputs|, i requires 0 <= i < |tx.inputs| => tx.inputs[i].coin.outpoint),
         seq(|tx.inputs|, i requires 0 <= i < |tx.inputs| => tx.inputs[i].sequence),
         tx.outputs, tx.lockTime)
  }

  function TxIdOf(tx: Tx): TxId {
    IdOf(BodyOf(tx))
  }

  /** `signed` is `tx` with anything at all as the signature of each input that `tx` leaves to the wallet. */
  predicate Signs(tx: Tx, signed: Tx) {
    && |signed.inputs| == |tx.inputs| && signed.outputs == tx.outputs && signed.lockTime == tx.lockTime
    && forall i :: 0 <= i < |tx.inputs| ==>
         if tx.inputs[i].signature.Unsigned? then signed.inputs[i]
             == tx.inputs[i].(signature := signed.inputs[i].signature)
         else signed.inputs[i] == tx.inputs[i]
  }

  /** Signing changes neither the identifier nor what is spent. */
  lemma {:induction false} SigningKeepsTheId(tx: Tx, signed: Tx)
    requires Signs(tx, signed)
    ensures TxIdOf(signed) == TxIdOf(tx)
    ensures forall i :: 0 <= i < |tx.inputs| ==> signed.inputs[i].coin == tx.inputs[i].coin
  {
    assert BodyOf(signed).spends == BodyOf(tx).spends && BodyOf(signed).sequences == BodyOf(tx).sequences;
  }

  function TotalIn(inputs: seq<Input>): int {
    if inputs == [] then 0 else inputs[0].coin.amount + TotalIn(inputs[1..])
  }

  function TotalOf(coins: seq<Coin>): int {
    if coins == [] then 0 else coins[0].amount + TotalOf(coins[1..])
  }

  function TotalOut(outputs: seq<Output>): int {
    if outputs == [] then 0 else outputs[0].value + TotalOut(outputs[1..])
  }

  lemma {:induction false} TotalOutAppend(a: seq<Output>, b: seq<Output>)
    ensures TotalOut(a + b) == TotalOut(a) + TotalOut(b)
  {
    if a == [] {
      assert a + b == b;
    } else {
      assert (a + b)[1..] == a[1..] + b;
      TotalOutAppend(a[1..], b);
    }
  }

  // --- Builders ------------------------------------------------------------

  predicate PositiveCoins(coins: seq<Coin>) {
    forall i :: 0 <= i < |coins| ==> coins[i].amount > 0
  }

  predicate PositiveOutputs(outputs: seq<Output>) {
    forall i :: 0 <= i < |outputs| ==> outputs[i].value > 0
  }

  function Ordinary(coins: seq<Coin>): (r: seq<Input>)
    ensures |r| == |coins|
    ensures forall i :: 0 <= i < |r| ==> r[i] == Input(coins[i], 0, Unsigned)
    ensures TotalIn(r) == TotalOf(coins)
  {
    if coins == [] then [] else [Input(coins[0], 0, Unsigned)] + Ordinary(coins[1..])
  }

  /** A player's covenant spend: the covenant pays `outputs`, the player's own coins pay the fee. */
  function PrepareTerminal(gameCoin: Coin, sequence: int, lockTime: int, invocation: SignatureScript,
                           outputs: seq<Output>, feeInputs: seq<Coin>, fee: int, change: Option<Change>)
    : Result<Tx, BuildError>
  {
    if fee < 0 then Err(InvalidFee)
    else if feeInputs == [] then Err(InvalidTransaction)
    else if gameCoin.amount <= 0 || !PositiveCoins(feeInputs) || !PositiveOutputs(outputs) then Err(InvalidTransaction)
    else
      var inputs := [Input(gameCoin, sequence, invocation)] + Ordinary(feeInputs);
      var left := TotalIn(inputs) - TotalOut(outputs) - fee;
      if left < 0 then Err(InsufficientUtxos)
      else if change.Some? && change.value.value != left then Err(FeeSubstitution)
      else if left > 0 && (change.None? || change.value.script.None?) then Err(InvalidTransaction)
      else Ok(Tx(inputs, outputs + ChangeOutput(left, change), lockTime))
  }

  function ChangeOutput(left: int, change: Option<Change>): seq<Output> {
    if left > 0 && change.Some? && change.value.script.Some? then [Output(left, change.value.script.value, None)]
        else []
  }

  /** A permissionless settlement: the covenant is the only input, and what it does not pay out is the fee. */
  function PrepareCovenantOnly(gameCoin: Coin, sequence: int, lockTime: int, invocation: SignatureScript,
          outputs: seq<Output>)
    : Result<Tx, BuildError>
  {
    if outputs == [] || gameCoin.amount <= 0 || !PositiveOutputs(outputs) then Err(InvalidTransaction)
    else if TotalOut(outputs) >= gameCoin.amount then Err(InvalidTransaction)
    else Ok(Tx([Input(gameCoin, sequence, invocation)], outputs, lockTime))
  }

  /** Join funding: ordinary coins only. */
  function JoinFunding(coins: seq<Coin>): (r: Result<seq<Input>, BuildError>)
    ensures r.Ok? ==> r.value == Ordinary(coins) && PositiveCoins(coins)
    ensures r.Ok? ==> forall i :: 0 <= i < |coins| ==> coins[i].covenantId.None?
  {
    if coins == [] then Ok([])
    else if coins[0].amount <= 0 then Err(InvalidTransaction)
    else if coins[0].covenantId.Some? then Err(FeeSubstitution)
    else match JoinFunding(coins[1..])
      case Err(e) => Err(e)
      case Ok(rest) => Ok([Input(coins[0], 0, Unsigned)] + rest)
  }

  /** Taking the second seat: the joiner's coins match the lock and pay the fee.  Covenant coins may not. */
  function PrepareJoin(gameCoin: Coin, stake: int, invocation: SignatureScript, continuation: Output,
                       feeInputs: seq<Coin>, fee: int, change: Option<Change>)
    : Result<Tx, BuildError>
  {
    match Resolve(stake)
    case Err(_) => Err(InvalidStakeAmount)
    case Ok(terms) =>
      if fee < 0 then Err(InvalidFee)
      else if gameCoin.covenantId.None? then Err(InvalidTransaction)
      else match JoinFunding(feeInputs)
      case Err(e) => Err(e)
      case Ok(ordinary) =>
        var inputs := [Input(gameCoin.(amount := terms.lock), 0, invocation)] + ordinary;
        var left := TotalIn(inputs) - terms.pot - fee;
        if left < 0 then Err(InsufficientUtxos)
        else if left > 0 && (change.None? || change.value.script.None?) then Err(InvalidTransaction)
        else if change.Some? && change.value.value != left then Err(FeeSubstitution)
        else Ok(Tx(inputs, [continuation.(value := terms.pot)] + ChangeOutput(left, change), 0))
  }

  // --- What the builders have in common ------------------------------------

  lemma TotalInCons(input: Input, rest: seq<Input>)
    ensures TotalIn([input] + rest) == input.coin.amount + TotalIn(rest)
  {
    assert ([input] + rest)[1..] == rest;
  }

  /** Exact change: what a player transaction does not hand out is its stated fee, to the sompi; the
      covenant's own outputs come first, and only the player's money is ever change. */
  lemma {:induction false} TerminalIsExact(gameCoin: Coin, sequence: int, lockTime: int, invocation: SignatureScript,
                        outputs: seq<Output>, feeInputs: seq<Coin>, fee: int, change: Option<Change>)
    requires PrepareTerminal(gameCoin, sequence, lockTime, invocation, outputs, feeInputs, fee, change).Ok?
    ensures var tx := PrepareTerminal(gameCoin, sequence, lockTime, invocation, outputs, feeInputs, fee, change).value;
      && TotalIn(tx.inputs) - TotalOut(tx.outputs) == fee
      && tx.inputs[0] == Input(gameCoin, sequence, invocation) && tx.inputs[1..] == Ordinary(feeInputs)
      && outputs <= tx.outputs
      && TotalOut(tx.outputs[|outputs|..]) == gameCoin.amount + TotalOf(feeInputs) - TotalOut(outputs) - fee
  {
    var tx := PrepareTerminal(gameCoin, sequence, lockTime, invocation, outputs, feeInputs, fee, change).value;
    TotalInCons(Input(gameCoin, sequence, invocation), Ordinary(feeInputs));
    TotalOutAppend(outputs, tx.outputs[|outputs|..]);
    assert tx.outputs == outputs + tx.outputs[|outputs|..];
  }

  lemma {:induction false} JoinIsExact(gameCoin: Coin, stake: int, invocation: SignatureScript, continuation: Output,
                    feeInputs: seq<Coin>, fee: int, change: Option<Change>)
    requires PrepareJoin(gameCoin, stake, invocation, continuation, feeInputs, fee, change).Ok?
    ensures var tx := PrepareJoin(gameCoin, stake, invocation, continuation, feeInputs, fee, change).value;
      && TotalIn(tx.inputs) - TotalOut(tx.outputs) == fee
      && tx.inputs[0] == Input(gameCoin.(amount := stake), 0, invocation) && tx.inputs[1..] == Ordinary(feeInputs)
      && feeInputs != [] && PositiveCoins(feeInputs)
      && (forall i :: 0 <= i < |feeInputs| ==> feeInputs[i].covenantId.None?)
      && tx.outputs[0] == continuation.(value := 2 * stake)
      && TotalOut(tx.outputs[1..]) == TotalOf(feeInputs) - stake - fee
  {
    var tx := PrepareJoin(gameCoin, stake, invocation, continuation, feeInputs, fee, change).value;
    var first := Input(gameCoin.(amount := stake), 0, invocation);
    var left := TotalIn([first] + Ordinary(feeInputs)) - 2 * stake - fee;
    TotalInCons(first, Ordinary(feeInputs));
    ChangeTotal(left, change);
    TotalOutAppend([continuation.(value := 2 * stake)], ChangeOutput(left, change));
    assert tx.outputs[1..] == ChangeOutput(left, change);
  }

  lemma ChangeTotal(left: int, change: Option<Change>)
    ensures left == 0 || (left > 0 && change.Some? && change.value.script.Some?)
        ==> TotalOut(ChangeOutput(left, change)) == left
  {
  }

  // --- When a transaction can be built -------------------------------------

  /** What is left returns to the wallet: stated to the sompi, with a script to pay it to, unless nothing is left. */
  ghost predicate Returns(left: int, change: Option<Change>) {
    if left == 0 then change.Some? ==> change.value.value == 0
    else left > 0 && change.Some? && change.value.value == left && change.value.script.Some?
  }

  ghost predicate ReturnedBy(outputs: seq<Output>, left: int, change: Option<Change>) {
    && (left == 0 ==> outputs == [])
    && (left > 0 && change.Some? && change.value.script.Some? ==>
          outputs == [Output(left, change.value.script.value, None)])
  }

  /** A player's covenant spend is built exactly when its wallet pays in, everything is positive, and what is left is
      returned; what is wrong otherwise is told in this order. */
  lemma {:induction false} TerminalBuiltIff(gameCoin: Coin, sequence: int, lockTime: int, invocation: SignatureScript,
          outputs: seq<Output>, feeInputs: seq<Coin>, fee: int, change: Option<Change>)
    ensures var r := PrepareTerminal(gameCoin, sequence, lockTime, invocation, outputs, feeInputs, fee, change);
      var left := gameCoin.amount + TotalOf(feeInputs) - TotalOut(outputs) - fee;
      var positive := feeInputs != [] && gameCoin.amount > 0
        && (forall i :: 0 <= i < |feeInputs| ==> feeInputs[i].amount > 0)
        && (forall i :: 0 <= i < |outputs| ==> outputs[i].value > 0);
      && (r.Ok? <==> fee >= 0 && positive && Returns(left, change))
      && (r == Err(InvalidFee) <==> fee < 0)
      && (r == Err(InsufficientUtxos) <==> fee >= 0 && positive && left < 0)
      && (r == Err(FeeSubstitution) <==>
            fee >= 0 && positive && left >= 0 && change.Some? && change.value.value != left)
      && (r.Err? && r.error !in {InvalidFee, InsufficientUtxos, FeeSubstitution} ==> r.error == InvalidTransaction)
      && (r.Ok? ==> r.value.lockTime == lockTime && |r.value.outputs| >= |outputs|
                    && ReturnedBy(r.value.outputs[|outputs|..], left, change))
  {
    TotalInCons(Input(gameCoin, sequence, invocation), Ordinary(feeInputs));
  }

  /** A permissionless settlement is built exactly when everything is positive and something is left for the fee. */
  lemma {:induction false} CovenantOnlyBuiltIff(gameCoin: Coin, sequence: int, lockTime: int,
          invocation: SignatureScript, outputs: seq<Output>)
    ensures var r := PrepareCovenantOnly(gameCoin, sequence, lockTime, invocation, outputs);
      && (r.Ok? <==>
            && outputs != [] && (forall i :: 0 <= i < |outputs| ==> outputs[i].value > 0)
            && TotalOut(outputs) < gameCoin.amount)
      && (r.Err? ==> r.error == InvalidTransaction)
      && (r.Ok? ==> r.value == Tx([Input(gameCoin, sequence, invocation)], outputs, lockTime))
  {
    if forall i :: 0 <= i < |outputs| ==> outputs[i].value > 0 { PositiveTotal(outputs); }
  }

  lemma {:induction false} PositiveTotal(outputs: seq<Output>)
    requires forall i :: 0 <= i < |outputs| ==> outputs[i].value > 0
    ensures TotalOut(outputs) >= 0
  {
    if outputs != [] { PositiveTotal(outputs[1..]); }
  }

  /** The first coin that is worth nothing or belongs to a covenant. */
  ghost predicate IsFirstBad(coins: seq<Coin>, i: int) {
    0 <= i < |coins| && (coins[i].amount <= 0 || coins[i].covenantId.Some?)
    && forall j :: 0 <= j < i ==> coins[j].amount > 0 && coins[j].covenantId.None?
  }

  /** The first coin that may not fund a join, if there is one, decides the error. */
  lemma {:induction false} JoinFundingIff(coins: seq<Coin>)
    ensures JoinFunding(coins).Ok? <==>
      forall i :: 0 <= i < |coins| ==> coins[i].amount > 0 && coins[i].covenantId.None?
    ensures JoinFunding(coins).Err? ==>
      exists i ::
        IsFirstBad(coins, i)
        && JoinFunding(coins) == Err(if coins[i].amount <= 0 then InvalidTransaction else FeeSubstitution)
  {
    if coins != [] {
      JoinFundingIff(coins[1..]);
      var tail := coins[1..];
      if coins[0].amount > 0 && coins[0].covenantId.None? && JoinFunding(tail).Err? {
        var i :| IsFirstBad(tail, i)
                 && JoinFunding(tail) == Err(if tail[i].amount <= 0 then InvalidTransaction else FeeSubstitution);
        assert coins[i + 1] == tail[i];
        forall j | 0 <= j < i + 1 ensures coins[j].amount > 0 && coins[j].covenantId.None? {
          if j > 0 { assert coins[j] == tail[j - 1]; }
        }
        assert IsFirstBad(coins, i + 1);
      } else if JoinFunding(coins).Err? {
        assert IsFirstBad(coins, 0);
      }
    }
  }

  /** A join is built exactly when the stake is one, ordinary positive coins pay the other half of the pot and the fee,
      and what is left is returned. */
  lemma {:induction false} JoinBuiltIff(gameCoin: Coin, stake: int, invocation: SignatureScript, continuation: Output,
          feeInputs: seq<Coin>, fee: int, change: Option<Change>)
    ensures var r := PrepareJoin(gameCoin, stake, invocation, continuation, feeInputs, fee, change);
      var left := TotalOf(feeInputs) - stake - fee;
      var asked := stake >= 100_000_000 && fee >= 0 && gameCoin.covenantId.Some?;
      var ordinary := forall i :: 0 <= i < |feeInputs| ==> feeInputs[i].amount > 0 && feeInputs[i].covenantId.None?;
      && (r.Ok? <==> asked && ordinary && Returns(left, change))
      && (r == Err(InvalidStakeAmount) <==> stake < 100_000_000)
      && (r == Err(InvalidFee) <==> stake >= 100_000_000 && fee < 0)
      && (r == Err(InsufficientUtxos) <==> asked && ordinary && left < 0)
      && (asked && ordinary && left > 0 && (change.None? || change.value.script.None?) ==>
            r == Err(InvalidTransaction))
      && (asked && ordinary && left >= 0 && change.Some? && (left == 0 || change.value.script.Some?) ==>
            (r == Err(FeeSubstitution) <==> change.value.value != left))
      && (r.Ok? ==> r.value.lockTime == 0 && |r.value.outputs| >= 1
                    && ReturnedBy(r.value.outputs[1..], left, change))
  {
    JoinFundingIff(feeInputs);
    TotalInCons(Input(gameCoin.(amount := stake), 0, invocation), Ordinary(feeInputs));
  }
}
