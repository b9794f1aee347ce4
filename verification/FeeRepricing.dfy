/**
 The two loops that price a transaction whose fee depends on its own mass.  Mass is any function of the
 transaction; rates are reals.  Both loops can only stop on a fixed point.
 */
module FeeRepricing {
  import opened Outcomes
  import opened Transactions

  const DEFAULT_RELAY_FLOOR_RATE := 100.0
  const MAX_REPRICING_ROUNDS: nat := 8
  const MAX_GENESIS_ITERATIONS: nat := 8

  /** Hexadecimal length of the wallets' signature script: one push byte, 64 signature bytes, one sighash byte. */
  const SIGNATURE_HEX_LENGTH := 132

  datatype FeeError =
    CannotBuild(cause: BuildError) | RepricingFailed | InsufficientFee | InsufficientFunds | Inconsistent

  datatype Priced = Priced(tx: Tx, fee: int)

  type Builder = (int, Option<Change>) -> Result<Tx, BuildError>

  function Ceil(x: real): (c: int)
    ensures c as real - 1.0 < x <= c as real
  {
    -(-x).Floor
  }

  function RateOf(priority: Option<real>): (r: real)
    ensures r >= 100.0 && (priority.Some? ==> r >= priority.value)
    ensures r == 100.0 || priority == Some(r)
  {
    if priority.Some? && priority.value > DEFAULT_RELAY_FLOOR_RATE then priority.value else DEFAULT_RELAY_FLOOR_RATE
  }

  function PlaceholderHex(n: nat): (s: string)
    ensures |s| == n
  {
    seq(n, i => '0')
  }

  /** The transaction as it will be once the wallet has signed every input left open. */
  function AssumeSigned(tx: Tx): Tx {
    tx.(inputs := seq(|tx.inputs|, i requires 0 <= i < |tx.inputs| =>
        Sign(tx.inputs[i], PlaceholderHex(SIGNATURE_HEX_LENGTH))))
  }

  function Sign(input: Input, hex: string): Input {
    if input.signature.Unsigned? then input.(signature := Signature(hex)) else input
  }

  function FeeFor(tx: Tx, mass: Tx -> nat, rate: real): int {
    Ceil(mass(AssumeSigned(tx)) as real * rate)
  }

  // --- Player transactions -------------------------------------------------

  function ChangeAt(available: int, fee: int, script: Option<Script>): Option<Change> {
    if available > fee then Some(Change(available - fee, script)) else None
  }

  /** The fee one round of repricing asks for, if the transaction can be built at the current fee. */
  function NextFee(build: Builder, mass: Tx -> nat, rate: real, available: int, script: Option<Script>,
          fee: int): Option<int>
  {
    match build(fee, ChangeAt(available, fee, script))
    case Err(_) => None
    case Ok(tx) => Some(FeeFor(tx, mass, rate))
  }

  function Reprice(build: Builder, mass: Tx -> nat, rate: real, available: int, script: Option<Script>, fee: int,
          rounds: nat)
    : Result<Priced, FeeError>
    decreases rounds
  {
    if rounds == 0 then Err(RepricingFailed)
    else match build(fee, ChangeAt(available, fee, script))
      case Err(e) => Err(CannotBuild(e))
      case Ok(tx) =>
        var repriced := FeeFor(tx, mass, rate);
        if repriced == fee then Ok(Priced(tx, fee))
        else Reprice(build, mass, rate, available, script, repriced, rounds - 1)
  }

  /** The repricing loop, over any number of rounds. */
  method RepriceWithin(build: Builder, mass: Tx -> nat, rate: real, available: int, script: Option<Script>, rounds: nat)
    returns (r: Result<Priced, FeeError>)
    ensures r == Reprice(build, mass, rate, available, script, 0, rounds)
  {
    var fee := 0;
    for round := 0 to rounds
      invariant Reprice(build, mass, rate, available, script, 0, rounds)
             == Reprice(build, mass, rate, available, script, fee, rounds - round)
    {
      var prepared := build(fee, ChangeAt(available, fee, script));
      if prepared.Err? {
        return Err(CannotBuild(prepared.error));
      }
      var repriced := FeeFor(prepared.value, mass, rate);
      if repriced == fee {
        return Ok(Priced(prepared.value, fee));
      }
      fee := repriced;
    }
    return Err(RepricingFailed);
  }

  method PrepareWithDynamicFee(build: Builder, mass: Tx -> nat, priority: Option<real>, funding: int, reserved: int,
                               script: Option<Script>) returns (r: Result<Priced, FeeError>)
    ensures r == Reprice(build, mass, RateOf(priority), funding - reserved, script, 0, 8)
  {
    r := RepriceWithin(build, mass, RateOf(priority), funding - reserved, script, MAX_REPRICING_ROUNDS);
  }

  lemma {:induction false} StopsAtFixedPoint(build: Builder, mass: Tx -> nat, rate: real, available: int,
          script: Option<Script>, fee: int, rounds: nat)
    requires Reprice(build, mass, rate, available, script, fee, rounds).Ok?
    ensures var p := Reprice(build, mass, rate, available, script, fee, rounds).value;
      && build(p.fee, ChangeAt(available, p.fee, script)) == Ok(p.tx)
      && p.fee == FeeFor(p.tx, mass, rate)
    decreases rounds
  {
    var tx := build(fee, ChangeAt(available, fee, script)).value;
    if FeeFor(tx, mass, rate) != fee {
      StopsAtFixedPoint(build, mass, rate, available, script, FeeFor(tx, mass, rate), rounds - 1);
    }
  }

  /** Only a fixed point is ever returned: the fee is the price of the very transaction built at that fee, with the
      rest of what is available as its change. */
  lemma {:induction false} OnlyFixedPoints(build: Builder, mass: Tx -> nat, rate: real, available: int,
          script: Option<Script>, fee: int, rounds: nat)
    requires Reprice(build, mass, rate, available, script, fee, rounds).Ok?
    ensures var p := Reprice(build, mass, rate, available, script, fee, rounds).value;
      && build(p.fee, if available > p.fee then Some(Change(available - p.fee, script)) else None) == Ok(p.tx)
      && var price := mass(AssumeSigned(p.tx)) as real * rate;
        p.fee as real - 1.0 < price <= p.fee as real
  {
    StopsAtFixedPoint(build, mass, rate, available, script, fee, rounds);
  }

  /** The fee after `k` rounds that all could be built. */
  function FeeAfter(build: Builder, mass: Tx -> nat, rate: real, available: int, script: Option<Script>, fee: int,
          k: nat): Option<int>
    decreases k
  {
    if k == 0 then Some(fee)
    else match NextFee(build, mass, rate, available, script, fee)
      case None => None
      case Some(next) => FeeAfter(build, mass, rate, available, script, next, k - 1)
  }

  ghost predicate SettlesAt(build: Builder, mass: Tx -> nat, rate: real, available: int, script: Option<Script>,
          fee: int, k: nat)
  {
    var reached := FeeAfter(build, mass, rate, available, script, fee, k);
    reached.Some? && NextFee(build, mass, rate, available, script, reached.value) == reached
  }

  ghost predicate SettlesWithin(build: Builder, mass: Tx -> nat, rate: real, available: int, script: Option<Script>,
          fee: int, rounds: nat)
  {
    exists k: nat :: k < rounds && SettlesAt(build, mass, rate, available, script, fee, k)
  }

  /** And it is returned exactly when the sequence of fees reaches one within the round bound. */
  lemma {:induction false} FoundIfReached(build: Builder, mass: Tx -> nat, rate: real, available: int,
          script: Option<Script>, fee: int, rounds: nat)
    ensures Reprice(build, mass, rate, available, script, fee, rounds).Ok?
       <==> SettlesWithin(build, mass, rate, available, script, fee, rounds)
    decreases rounds
  {
    if rounds > 0 {
      var next := NextFee(build, mass, rate, available, script, fee);
      assert SettlesAt(build, mass, rate, available, script, fee, 0) <==> next == Some(fee);
      if next.None? {
        assert forall k: nat :: k > 0 ==> !SettlesAt(build, mass, rate, available, script, fee, k);
      } else if next != Some(fee) {
        FoundIfReached(build, mass, rate, available, script, next.value, rounds - 1);
        forall k: nat
          ensures SettlesAt(build, mass, rate, available, script, fee, k + 1)
              <==> SettlesAt(build, mass, rate, available, script, next.value, k)
        {
        }
        if k: nat :| k < rounds && SettlesAt(build, mass, rate, available, script, fee, k) {
          assert k != 0 && SettlesAt(build, mass, rate, available, script, next.value, k - 1);
        }
        if k: nat :| k < rounds - 1 && SettlesAt(build, mass, rate, available, script, next.value, k) {
          assert SettlesAt(build, mass, rate, available, script, fee, k + 1);
        }
      }
    }
  }

  // --- Why the signed transaction passes the broadcast check ----------------

  /** `signed` is `tx` with standard-size signatures in the inputs left open. */
  predicate SignedCopy(tx: Tx, signed: Tx) {
    && Signs(tx, signed)
    && forall i :: 0 <= i < |tx.inputs| && tx.inputs[i].signature.Unsigned? ==>
         signed.inputs[i].signature.Signature? && |signed.inputs[i].signature.hex| == 132
  }

  /** Mass sees the length of a signature, not its bytes. */
  ghost predicate MassIgnoresSignatureBytes(mass: Tx -> nat) {
    forall tx, a, b :: SignedCopy(tx, a) && SignedCopy(tx, b) ==> mass(a) == mass(b)
  }

  function AssertSignedFee(tx: Tx, mass: Tx -> nat, rate: real): Result<int, FeeError> {
    var paid := TotalIn(tx.inputs) - TotalOut(tx.outputs);
    if paid < Ceil(mass(tx) as real * rate) then Err(InsufficientFee) else Ok(paid)
  }

  /** The broadcast check lets a transaction through exactly when it pays the price of its own mass. */
  lemma BroadcastIff(tx: Tx, mass: Tx -> nat, rate: real)
    ensures var paid := TotalIn(tx.inputs) - TotalOut(tx.outputs);
      AssertSignedFee(tx, mass, rate) ==
      if mass(tx) as real * rate <= paid as real then Ok(paid) else Err(InsufficientFee)
  {
  }

  lemma {:induction false} SameTotal(a: seq<Input>, b: seq<Input>)
    requires |a| == |b| && forall i :: 0 <= i < |a| ==> a[i].coin == b[i].coin
    ensures TotalIn(a) == TotalIn(b)
  {
    if a != [] {
      SameTotal(a[1..], b[1..]);
    }
  }

  lemma AssumeSignedIsCopy(tx: Tx)
    ensures SignedCopy(tx, AssumeSigned(tx))
  {
    var s := AssumeSigned(tx);
    forall i | 0 <= i < |tx.inputs| && tx.inputs[i].signature.Unsigned?
      ensures s.inputs[i] == tx.inputs[i].(signature := Signature(PlaceholderHex(SIGNATURE_HEX_LENGTH)))
    {
    }
  }

  lemma {:induction false} FixedPointPassesBroadcastCheck(tx: Tx, signed: Tx, fee: int, mass: Tx -> nat, rate: real)
    requires MassIgnoresSignatureBytes(mass) && SignedCopy(tx, signed)
    requires fee == FeeFor(tx, mass, rate) && TotalIn(tx.inputs) - TotalOut(tx.outputs) == fee
    ensures AssertSignedFee(signed, mass, rate) == Ok(fee)
  {
    AssumeSignedIsCopy(tx);
    SameTotal(tx.inputs, signed.inputs);
  }

  /** A repriced reveal or refund, signed at standard size, is broadcast at the rate it was priced at. */
  lemma {:induction false} RepricedTerminalPasses(gameCoin: Coin, sequence: int, lockTime: int,
          invocation: SignatureScript, outputs: seq<Output>, feeInputs: seq<Coin>, script: Option<Script>,
          mass: Tx -> nat, rate: real, signed: Tx)
    requires MassIgnoresSignatureBytes(mass)
    requires var build := (fee, change) => PrepareTerminal(gameCoin, sequence, lockTime, invocation, outputs,
        feeInputs, fee, change);
      var r := Reprice(build, mass, rate, TotalOf(feeInputs), script, 0, MAX_REPRICING_ROUNDS);
      r.Ok? && SignedCopy(r.value.tx, signed)
    ensures AssertSignedFee(signed, mass, rate).Ok?
  {
    var build := (fee, change) => PrepareTerminal(gameCoin, sequence, lockTime, invocation, outputs, feeInputs, fee,
        change);
    var p := Reprice(build, mass, rate, TotalOf(feeInputs), script, 0, MAX_REPRICING_ROUNDS).value;
    StopsAtFixedPoint(build, mass, rate, TotalOf(feeInputs), script, 0, MAX_REPRICING_ROUNDS);
    TerminalIsExact(gameCoin, sequence, lockTime, invocation, outputs, feeInputs, p.fee,
        ChangeAt(TotalOf(feeInputs), p.fee, script));
    FixedPointPassesBroadcastCheck(p.tx, signed, p.fee, mass, rate);
  }

  /** The same for a join, which also reserves the matching stake. */
  lemma {:induction false} RepricedJoinPasses(gameCoin: Coin, stake: int, invocation: SignatureScript,
          continuation: Output, feeInputs: seq<Coin>, script: Option<Script>, mass: Tx -> nat, rate: real, signed: Tx)
    requires MassIgnoresSignatureBytes(mass)
    requires var build := (fee, change) => PrepareJoin(gameCoin, stake, invocation, continuation, feeInputs, fee,
        change);
      var r := Reprice(build, mass, rate, TotalOf(feeInputs) - stake, script, 0, MAX_REPRICING_ROUNDS);
      r.Ok? && SignedCopy(r.value.tx, signed)
    ensures AssertSignedFee(signed, mass, rate).Ok?
  {
    var available := TotalOf(feeInputs) - stake;
    var build := (fee, change) => PrepareJoin(gameCoin, stake, invocation, continuation, feeInputs, fee, change);
    var p := Reprice(build, mass, rate, available, script, 0, MAX_REPRICING_ROUNDS).value;
    StopsAtFixedPoint(build, mass, rate, available, script, 0, MAX_REPRICING_ROUNDS);
    JoinIsExact(gameCoin, stake, invocation, continuation, feeInputs, p.fee, ChangeAt(available, p.fee, script));
    FixedPointPassesBroadcastCheck(p.tx, signed, p.fee, mass, rate);
  }

  // --- The creation transaction --------------------------------------------

  /** The wallet's coins, none of them signed yet, lock the stake in output zero. */
  function GenesisTx(coins: seq<Coin>, outputs: seq<Output>): Tx {
    Tx(Ordinary(coins), outputs, 0)
  }

  function GenesisChange(value: int, script: Script): Output {
    Output(value, script, None)
  }

  /** What one draft leaves over once the stake is locked and its own price is paid. */
  function LeftBy(coins: seq<Coin>, stakeOutput: Output, outputs: seq<Output>, mass: Tx -> nat, rate: real): int {
    TotalOf(coins) - stakeOutput.value - FeeFor(GenesisTx(coins, outputs), mass, rate)
  }

  /** The change the draft with this change implies, if any is left. */
  function NextChange(coins: seq<Coin>, stakeOutput: Output, script: Script, mass: Tx -> nat, rate: real,
          change: int): (r: Option<int>)
    ensures r.Some? ==> r.value > 0
  {
    var left := LeftBy(coins, stakeOutput, [stakeOutput, GenesisChange(change, script)], mass, rate);
    if left > 0 then Some(left) else None
  }

  /** Repricing with a change output, until the change it leaves is the change it carries. */
  function SettleChange(coins: seq<Coin>, stakeOutput: Output, script: Script, mass: Tx -> nat, rate: real,
          change: int, rounds: nat)
    : Result<Priced, FeeError>
    decreases rounds
  {
    if rounds == 0 then Err(Inconsistent)
    else
      var tx := GenesisTx(coins, [stakeOutput, GenesisChange(change, script)]);
      match NextChange(coins, stakeOutput, script, mass, rate, change)
      case None => Err(InsufficientFunds)
      case Some(left) =>
        if left == change then Ok(Priced(tx, FeeFor(tx, mass, rate)))
        else SettleChange(coins, stakeOutput, script, mass, rate, left, rounds - 1)
  }

  /** The script change goes to: the one asked for, or that of the first coin. */
  function ChangeScript(coins: seq<Coin>, asked: Option<Script>): Script
    requires coins != []
  {
    if asked.Some? then asked.value else coins[0].script
  }

  function PriceWithin(coins: seq<Coin>, stakeOutput: Output, asked: Option<Script>, mass: Tx -> nat, rate: real,
          rounds: nat): Result<Priced, FeeError>
  {
    if coins == [] || !PositiveCoins(coins) then Err(CannotBuild(InvalidTransaction))
    else
      var bare := GenesisTx(coins, [stakeOutput]);
      var left := LeftBy(coins, stakeOutput, [stakeOutput], mass, rate);
      if left < 0 then Err(InsufficientFunds)
      else if left == 0 then Ok(Priced(bare, FeeFor(bare, mass, rate)))
      else SettleChange(coins, stakeOutput, ChangeScript(coins, asked), mass, rate, left, rounds)
  }

  function PriceGenesis(coins: seq<Coin>, stakeOutput: Output, asked: Option<Script>, mass: Tx -> nat,
          rate: real): Result<Priced, FeeError>
  {
    PriceWithin(coins, stakeOutput, asked, mass, rate, MAX_GENESIS_ITERATIONS)
  }

  /** The loop falls out of its bound without complaint, and a last comparison catches that. */
  method SettleWithin(coins: seq<Coin>, stakeOutput: Output, script: Script, mass: Tx -> nat, rate: real, first: int,
          rounds: nat)
    returns (r: Result<Priced, FeeError>)
    requires rounds > 0
    ensures r == SettleChange(coins, stakeOutput, script, mass, rate, first, rounds)
  {
    var change, carried := first, first;
    var tx := GenesisTx(coins, [stakeOutput, GenesisChange(first, script)]);
    var fee := FeeFor(tx, mass, rate);
    var i: nat := 0;
    var stable := false;
    while i < rounds && !stable
      invariant i <= rounds && tx == GenesisTx(coins, [stakeOutput, GenesisChange(carried, script)])
      invariant fee == FeeFor(tx, mass, rate)
      invariant i > 0 ==> change == TotalOf(coins) - stakeOutput.value - fee
      invariant i > 0 ==> (stable <==> change == carried)
      invariant i == 0 ==> !stable
      invariant SettleChange(coins, stakeOutput, script, mass, rate, first, rounds)
             == if stable then Ok(Priced(tx, fee)) else SettleChange(coins, stakeOutput, script, mass, rate, change,
                 rounds - i)
      decreases rounds - i, !stable
    {
      carried := change;
      tx := GenesisTx(coins, [stakeOutput, GenesisChange(carried, script)]);
      fee := FeeFor(tx, mass, rate);
      var left := TotalOf(coins) - stakeOutput.value - fee;
      if left <= 0 {
        return Err(InsufficientFunds);
      }
      stable := left == carried;
      change := left;
      i := i + 1;
    }
    if tx.outputs[1].value != TotalOf(coins) - stakeOutput.value - fee {
      return Err(Inconsistent);
    }
    return Ok(Priced(tx, fee));
  }

  method CreateWithin(coins: seq<Coin>, stakeOutput: Output, asked: Option<Script>, mass: Tx -> nat, rate: real,
          rounds: nat)
    returns (r: Result<Priced, FeeError>)
    requires rounds > 0
    ensures r == PriceWithin(coins, stakeOutput, asked, mass, rate, rounds)
  {
    if coins == [] || !PositiveCoins(coins) {
      return Err(CannotBuild(InvalidTransaction));
    }
    var bare := GenesisTx(coins, [stakeOutput]);
    var fee := FeeFor(bare, mass, rate);
    var change := TotalOf(coins) - stakeOutput.value - fee;
    if change < 0 {
      return Err(InsufficientFunds);
    }
    if change == 0 {
      return Ok(Priced(bare, fee));
    }
    r := SettleWithin(coins, stakeOutput, ChangeScript(coins, asked), mass, rate, change, rounds);
  }

  method CreateGenesis(coins: seq<Coin>, stakeOutput: Output, asked: Option<Script>, mass: Tx -> nat,
          priority: Option<real>)
    returns (r: Result<Priced, FeeError>)
    ensures r == PriceGenesis(coins, stakeOutput, asked, mass, RateOf(priority))
  {
    r := CreateWithin(coins, stakeOutput, asked, mass, RateOf(priority), MAX_GENESIS_ITERATIONS);
  }

  /** A priced creation locks exactly the stake, pays exactly the price of its own mass, and gives the
      rest, if there is any, back in one positive change output. */
  lemma {:induction false} GenesisIsExact(coins: seq<Coin>, stakeOutput: Output, asked: Option<Script>,
          mass: Tx -> nat, rate: real)
    requires PriceGenesis(coins, stakeOutput, asked, mass, rate).Ok?
    ensures var p := PriceGenesis(coins, stakeOutput, asked, mass, rate).value;
      && coins != [] && p.tx.inputs == Ordinary(coins) && p.tx.lockTime == 0
      && p.tx.outputs != [] && p.tx.outputs[0] == stakeOutput
      && TotalIn(p.tx.inputs) - TotalOut(p.tx.outputs) == p.fee == FeeFor(p.tx, mass, rate)
      && (|p.tx.outputs| == 1 || (|p.tx.outputs| == 2 && p.tx.outputs[1].value > 0
                                  && p.tx.outputs[1] == Output(p.tx.outputs[1].value,
                                      if asked.Some? then asked.value else coins[0].script, None)))
  {
    assert [stakeOutput][1..] == [];
    var left := LeftBy(coins, stakeOutput, [stakeOutput], mass, rate);
    if left > 0 {
      SettledChangeIsExact(coins, stakeOutput, ChangeScript(coins, asked), mass, rate, left, MAX_GENESIS_ITERATIONS);
    }
  }

  lemma {:induction false} SettledChangeIsExact(coins: seq<Coin>, stakeOutput: Output, script: Script, mass: Tx -> nat,
                                                rate: real, change: int, rounds: nat)
    requires SettleChange(coins, stakeOutput, script, mass, rate, change, rounds).Ok?
    ensures var p := SettleChange(coins, stakeOutput, script, mass, rate, change, rounds).value;
      && p.tx.inputs == Ordinary(coins) && p.tx.lockTime == 0 && |p.tx.outputs| == 2
      && p.tx.outputs[0] == stakeOutput
      && p.tx.outputs[1] == GenesisChange(p.tx.outputs[1].value, script) && p.tx.outputs[1].value > 0
      && TotalIn(p.tx.inputs) - TotalOut(p.tx.outputs) == p.fee == FeeFor(p.tx, mass, rate)
    decreases rounds
  {
    var outputs := [stakeOutput, GenesisChange(change, script)];
    var left := LeftBy(coins, stakeOutput, outputs, mass, rate);
    if left != change {
      SettledChangeIsExact(coins, stakeOutput, script, mass, rate, left, rounds - 1);
    } else {
      assert outputs[1..] == [GenesisChange(change, script)] && outputs[1..][1..] == [];
      assert TotalOut(outputs) == stakeOutput.value + (change + TotalOut([]));
    }
  }

  /** A creation signed at standard size is broadcast at the rate it was priced at. */
  lemma {:induction false} PricedGenesisPasses(coins: seq<Coin>, stakeOutput: Output, asked: Option<Script>,
          mass: Tx -> nat, rate: real, signed: Tx)
    requires MassIgnoresSignatureBytes(mass)
    requires var r := PriceGenesis(coins, stakeOutput, asked, mass, rate);
      r.Ok? && SignedCopy(r.value.tx, signed)
    ensures AssertSignedFee(signed, mass, rate) == Ok(PriceGenesis(coins, stakeOutput, asked, mass, rate).value.fee)
  {
    var p := PriceGenesis(coins, stakeOutput, asked, mass, rate).value;
    GenesisIsExact(coins, stakeOutput, asked, mass, rate);
    FixedPointPassesBroadcastCheck(p.tx, signed, p.fee, mass, rate);
  }

  /** The change after `k` rounds, as long as every round leaves some. */
  function ChangeAfter(coins: seq<Coin>, stakeOutput: Output, script: Script, mass: Tx -> nat, rate: real, change: int,
          k: nat): Option<int>
    decreases k
  {
    if k == 0 then Some(change)
    else match NextChange(coins, stakeOutput, script, mass, rate, change)
      case None => None
      case Some(next) => ChangeAfter(coins, stakeOutput, script, mass, rate, next, k - 1)
  }

  ghost predicate ChangeSettlesAt(coins: seq<Coin>, stakeOutput: Output, script: Script, mass: Tx -> nat, rate: real,
          change: int, k: nat)
  {
    var reached := ChangeAfter(coins, stakeOutput, script, mass, rate, change, k);
    reached.Some? && NextChange(coins, stakeOutput, script, mass, rate, reached.value) == reached
  }

  ghost predicate ChangeRunsOutAt(coins: seq<Coin>, stakeOutput: Output, script: Script, mass: Tx -> nat, rate: real,
          change: int, k: nat)
  {
    ChangeAfter(coins, stakeOutput, script, mass, rate, change, k).None?
  }

  lemma {:induction false} SettledStaysSettled(coins: seq<Coin>, stakeOutput: Output, script: Script, mass: Tx -> nat,
          rate: real, change: int, k: nat)
    requires NextChange(coins, stakeOutput, script, mass, rate, change) == Some(change)
    ensures ChangeAfter(coins, stakeOutput, script, mass, rate, change, k) == Some(change)
    decreases k
  {
    if k > 0 { SettledStaysSettled(coins, stakeOutput, script, mass, rate, change, k - 1); }
  }

  /** The loop succeeds exactly when the change settles within the bound, and fails for want of funds exactly
      when it runs out within the bound. */
  lemma {:induction false} SettlesIff(coins: seq<Coin>, stakeOutput: Output, script: Script, mass: Tx -> nat,
          rate: real, change: int, rounds: nat)
    ensures SettleChange(coins, stakeOutput, script, mass, rate, change, rounds).Ok?
       <==> exists k: nat :: k < rounds && ChangeSettlesAt(coins, stakeOutput, script, mass, rate, change, k)
    ensures SettleChange(coins, stakeOutput, script, mass, rate, change, rounds) == Err(InsufficientFunds)
       <==> exists k: nat :: k <= rounds && ChangeRunsOutAt(coins, stakeOutput, script, mass, rate, change, k)
    decreases rounds
  {
    var next := NextChange(coins, stakeOutput, script, mass, rate, change);
    if rounds == 0 {
      assert !ChangeRunsOutAt(coins, stakeOutput, script, mass, rate, change, 0);
    } else if next.None? {
      assert ChangeRunsOutAt(coins, stakeOutput, script, mass, rate, change, 1);
      assert forall k: nat :: k > 0 ==> !ChangeSettlesAt(coins, stakeOutput, script, mass, rate, change, k);
    } else if next == Some(change) {
      assert ChangeSettlesAt(coins, stakeOutput, script, mass, rate, change, 0);
      forall k: nat ensures !ChangeRunsOutAt(coins, stakeOutput, script, mass, rate, change, k) {
        SettledStaysSettled(coins, stakeOutput, script, mass, rate, change, k);
      }
    } else {
      SettlesIff(coins, stakeOutput, script, mass, rate, next.value, rounds - 1);
      OneRoundOn(coins, stakeOutput, script, mass, rate, change, rounds);
    }
  }

  /** What happens from the next change on happens one round later from this one. */
  lemma {:induction false} OneRoundOn(coins: seq<Coin>, stakeOutput: Output, script: Script, mass: Tx -> nat,
          rate: real, change: int, rounds: nat)
    requires rounds > 0
    requires var next := NextChange(coins, stakeOutput, script, mass, rate, change); next.Some? && next != Some(change)
    ensures var next := NextChange(coins, stakeOutput, script, mass, rate, change).value;
      && ((exists k: nat :: k < rounds && ChangeSettlesAt(coins, stakeOutput, script, mass, rate, change, k))
          <==> (exists k: nat :: k < rounds - 1 && ChangeSettlesAt(coins, stakeOutput, script, mass, rate, next, k)))
      && ((exists k: nat :: k <= rounds && ChangeRunsOutAt(coins, stakeOutput, script, mass, rate, change, k))
          <==> (exists k: nat :: k <= rounds - 1 && ChangeRunsOutAt(coins, stakeOutput, script, mass, rate, next, k)))
  {
    var next := NextChange(coins, stakeOutput, script, mass, rate, change).value;
    forall k: nat
      ensures ChangeSettlesAt(coins, stakeOutput, script, mass, rate, change, k + 1)
          <==> ChangeSettlesAt(coins, stakeOutput, script, mass, rate, next, k)
      ensures ChangeRunsOutAt(coins, stakeOutput, script, mass, rate, change, k + 1)
          <==> ChangeRunsOutAt(coins, stakeOutput, script, mass, rate, next, k)
    {
    }
    if k: nat :| k < rounds && ChangeSettlesAt(coins, stakeOutput, script, mass, rate, change, k) {
      assert k != 0 && ChangeSettlesAt(coins, stakeOutput, script, mass, rate, next, k - 1);
    }
    if k: nat :| k < rounds - 1 && ChangeSettlesAt(coins, stakeOutput, script, mass, rate, next, k) {
      assert ChangeSettlesAt(coins, stakeOutput, script, mass, rate, change, k + 1);
    }
    if k: nat :| k <= rounds && ChangeRunsOutAt(coins, stakeOutput, script, mass, rate, change, k) {
      assert k != 0 && ChangeRunsOutAt(coins, stakeOutput, script, mass, rate, next, k - 1);
    }
    if k: nat :| k <= rounds - 1 && ChangeRunsOutAt(coins, stakeOutput, script, mass, rate, next, k) {
      assert ChangeRunsOutAt(coins, stakeOutput, script, mass, rate, change, k + 1);
    }
  }

  /** A creation is priced exactly when its coins are sound and either pay the bare transaction to the sompi or
      leave change that settles within the bound; it is refused for want of funds exactly when they do not pay
      the bare transaction or the change runs out; otherwise the pricing is given up. */
  lemma {:induction false} GenesisFoundIfReached(coins: seq<Coin>, stakeOutput: Output, asked: Option<Script>,
          mass: Tx -> nat, rate: real)
    requires coins != [] && PositiveCoins(coins)
    ensures var r, left := PriceGenesis(coins, stakeOutput, asked, mass, rate), LeftBy(coins, stakeOutput,
        [stakeOutput], mass, rate);
      var script := ChangeScript(coins, asked);
      && (r.Ok? <==>
            left == 0 || (left > 0 && exists k: nat ::
              k < 8 && ChangeSettlesAt(coins, stakeOutput, script, mass, rate, left, k)))
      && (r == Err(InsufficientFunds) <==>
            left < 0 || (left > 0 && exists k: nat ::
              k <= 8 && ChangeRunsOutAt(coins, stakeOutput, script, mass, rate, left, k)))
      && (r.Err? && r != Err(InsufficientFunds) ==> r == Err(Inconsistent))
  {
    var left := LeftBy(coins, stakeOutput, [stakeOutput], mass, rate);
    if left > 0 {
      SettlesIff(coins, stakeOutput, ChangeScript(coins, asked), mass, rate, left, MAX_GENESIS_ITERATIONS);
      OnlyThreeWays(coins, stakeOutput, ChangeScript(coins, asked), mass, rate, left, MAX_GENESIS_ITERATIONS);
    }
  }

  lemma {:induction false} OnlyThreeWays(coins: seq<Coin>, stakeOutput: Output, script: Script, mass: Tx -> nat,
          rate: real, change: int, rounds: nat)
    ensures var r := SettleChange(coins, stakeOutput, script, mass, rate, change, rounds);
      r.Ok? || r == Err(InsufficientFunds) || r == Err(Inconsistent)
    decreases rounds
  {
    var next := NextChange(coins, stakeOutput, script, mass, rate, change);
    if rounds > 0 && next.Some? && next.value != change {
      OnlyThreeWays(coins, stakeOutput, script, mass, rate, next.value, rounds - 1);
    }
  }
}
