/**
 The browser-side check of a prepared transaction against the intent it was announced with, and the
 proof that it accepts exactly the exact-change transactions whose only covenant input is the first.
 */
module Intent {
  import opened Outcomes
  import opened Economics
  import opened Transactions

  datatype VerifyError = InvalidTx | Mismatch

  datatype CovenantInput = CovenantInput(outpoint: Outpoint, amount: int, script: Script,
                                         covenantId: Option<CovenantId>, signature: Option<SignatureScript>)

  datatype Intended = Intended(
    covenantInputIndex: nat,
    covenantInput: Option<CovenantInput>,
    lockTime: Option<int>,
    sequence: Option<int>,
    fixedOutputs: Option<seq<Output>>,
    feeSompi: int,
    changeScript: Option<Script>,
    signingIndexes: Option<seq<nat>>)

  // --- The announced intent ------------------------------------------------

  /** The wallet inputs after the first that still await a signature, by index. */
  function UnsignedAfterFirst(inputs: seq<Input>, i: nat): seq<nat>
    requires i <= |inputs|
    decreases |inputs| - i
  {
    if i == |inputs| then []
    else (if i > 0 && inputs[i].signature.Unsigned? then [i] else []) + UnsignedAfterFirst(inputs, i + 1)
  }

  function CreateIntent(tx: Tx, feeSompi: int): Result<Intended, VerifyError> {
    if tx.inputs == [] then Err(InvalidTx)
    else
      var first := tx.inputs[0];
      Ok(Intended(0,
                  Some(CovenantInput(first.coin.outpoint, first.coin.amount, first.coin.script, first.coin.covenantId,
                      Some(first.signature))),
                  None, Some(first.sequence), Some(tx.outputs), feeSompi, None,
                  Some(UnsignedAfterFirst(tx.inputs, 0))))
  }

  // --- The check -----------------------------------------------------------

  predicate SameInput(actual: Input, expected: CovenantInput) {
    && actual.coin.outpoint == expected.outpoint
    && actual.coin.amount == expected.amount
    && actual.coin.script == expected.script
    && (expected.covenantId.Some? ==> actual.coin.covenantId == expected.covenantId)
    && (expected.signature.Some? ==> actual.signature == expected.signature.value)
  }

  predicate NonNegative(tx: Tx, fixedOutputs: seq<Output>) {
    && (forall i :: 0 <= i < |tx.inputs| ==> tx.inputs[i].coin.amount >= 0)
    && (forall i :: 0 <= i < |fixedOutputs| ==> fixedOutputs[i].value >= 0)
    && (forall i :: 0 <= i < |tx.outputs| ==> tx.outputs[i].value >= 0)
  }

  /** Input, outputs and money: everything the check asks before it looks at who signs what. */
  function CheckMoney(tx: Tx, intent: Intended): Result<(), VerifyError> {
    if intent.covenantInputIndex >= |tx.inputs| then Err(InvalidTx)
    else
      var covenantInput := tx.inputs[intent.covenantInputIndex];
      if intent.covenantInput.None? then Err(InvalidTx)
      else if !SameInput(covenantInput, intent.covenantInput.value) then Err(Mismatch)
      else if intent.lockTime.Some? && tx.lockTime != intent.lockTime.value then Err(Mismatch)
      else if intent.sequence.Some? && covenantInput.sequence != intent.sequence.value then Err(Mismatch)
      else if intent.fixedOutputs.None? || intent.fixedOutputs.value == [] then Err(InvalidTx)
      else CheckOutputs(tx, intent.fixedOutputs.value, intent.feeSompi, intent.changeScript)
  }

  function CheckOutputs(tx: Tx, fixedOutputs: seq<Output>, fee: int,
          changeScript: Option<Script>): Result<(), VerifyError>
  {
    if |tx.outputs| < |fixedOutputs| || |tx.outputs| > |fixedOutputs| + 1 then Err(Mismatch)
    else if !(fixedOutputs <= tx.outputs) then Err(Mismatch)
    else if fee < 0 || !NonNegative(tx, fixedOutputs) then Err(InvalidTx)
    else
      var change := TotalIn(tx.inputs) - TotalOut(fixedOutputs) - fee;
      if change < 0 then Err(Mismatch)
      else if change == 0 && |tx.outputs| != |fixedOutputs| then Err(Mismatch)
      else if change > 0 && |tx.outputs| != |fixedOutputs| + 1 then Err(Mismatch)
      else if change > 0 && !(changeScript.Some? && tx.outputs[|fixedOutputs|]
          == Output(change, changeScript.value, None)) then Err(Mismatch)
      else if TotalIn(tx.inputs) - TotalOut(tx.outputs) != fee then Err(Mismatch)
      else Ok(())
  }

  /** Which inputs the wallet signs: all but the covenant input, which must already carry its invocation. */
  function SigningInputs(inputs: seq<Input>, covenantIndex: nat, i: nat): Result<seq<nat>, VerifyError>
    requires i <= |inputs|
    decreases |inputs| - i
  {
    if i == |inputs| then Ok([])
    else if i == covenantIndex then
      if inputs[i].signature.Unsigned? then Err(InvalidTx) else SigningInputs(inputs, covenantIndex, i + 1)
    else if inputs[i].coin.covenantId.Some? then Err(Mismatch)
    else if !inputs[i].signature.Unsigned? then Err(Mismatch)
    else match SigningInputs(inputs, covenantIndex, i + 1)
      case Err(e) => Err(e)
      case Ok(rest) => Ok([i] + rest)
  }

  function Verify(tx: Tx, intent: Intended): Result<seq<nat>, VerifyError> {
    match CheckMoney(tx, intent)
    case Err(e) => Err(e)
    case Ok(_) =>
      match SigningInputs(tx.inputs, intent.covenantInputIndex, 0)
      case Err(e) => Err(e)
      case Ok(signing) =>
        if signing == [] then Err(InvalidTx)
        else if intent.signingIndexes.Some? && signing != intent.signingIndexes.value then Err(Mismatch)
        else Ok(signing)
  }

  /** The verifier as it runs: one pass over the inputs that stops at the first offence. */
  method VerifyTransactionIntent(tx: Tx, intent: Intended) returns (r: Result<seq<nat>, VerifyError>)
    ensures r == Verify(tx, intent)
  {
    var money := CheckMoney(tx, intent);
    if money.Err? {
      return Err(money.error);
    }
    var signInputs: seq<nat> := [];
    ExtendedByNothing(SigningInputs(tx.inputs, intent.covenantInputIndex, 0));
    for i := 0 to |tx.inputs|
      invariant Extended(signInputs, SigningInputs(tx.inputs, intent.covenantInputIndex, i))
             == SigningInputs(tx.inputs, intent.covenantInputIndex, 0)
    {
      var input := tx.inputs[i];
      if i == intent.covenantInputIndex {
        if input.signature.Unsigned? {
          return Err(InvalidTx);
        }
      } else {
        if input.coin.covenantId.Some? {
          return Err(Mismatch);
        }
        if !input.signature.Unsigned? {
          return Err(Mismatch);
        }
        ExtendedOnce(signInputs, i, SigningInputs(tx.inputs, intent.covenantInputIndex, i + 1));
        signInputs := signInputs + [i];
      }
    }
    assert signInputs + [] == signInputs;
    if signInputs == [] {
      return Err(InvalidTx);
    }
    if intent.signingIndexes.Some? && signInputs != intent.signingIndexes.value {
      return Err(Mismatch);
    }
    return Ok(signInputs);
  }

  ghost function Extended(prefix: seq<nat>, r: Result<seq<nat>, VerifyError>): Result<seq<nat>, VerifyError> {
    match r
    case Err(e) => Err(e)
    case Ok(rest) => Ok(prefix + rest)
  }

  lemma ExtendedByNothing(r: Result<seq<nat>, VerifyError>)
    ensures Extended([], r) == r
  {
    if r.Ok? { assert [] + r.value == r.value; }
  }

  lemma ExtendedOnce(prefix: seq<nat>, i: nat, r: Result<seq<nat>, VerifyError>)
    ensures r.Ok? ==> Extended(prefix, Ok([i] + r.value)) == Extended(prefix + [i], r)
  {
    if r.Ok? { assert prefix + ([i] + r.value) == prefix + [i] + r.value; }
  }

  // --- What acceptance means -----------------------------------------------

  /** The indices from `i` on, without the covenant input. */
  function AllBut(n: nat, covenantIndex: nat, i: nat): seq<nat>
    requires i <= n
    decreases n - i
  {
    if i == n then [] else (if i == covenantIndex then [] else [i]) + AllBut(n, covenantIndex, i + 1)
  }

  ghost predicate WalletInputsClean(inputs: seq<Input>, covenantIndex: nat, i: nat) {
    forall k :: i <= k < |inputs| && k != covenantIndex ==> inputs[k].coin.covenantId.None?
                                                            && inputs[k].signature.Unsigned?
  }

  lemma {:induction false} SigningInputsMeans(inputs: seq<Input>, covenantIndex: nat, i: nat)
    requires i <= |inputs|
    ensures SigningInputs(inputs, covenantIndex, i).Ok? <==>
            WalletInputsClean(inputs, covenantIndex, i)
                && (i <= covenantIndex < |inputs| ==> !inputs[covenantIndex].signature.Unsigned?)
    ensures SigningInputs(inputs, covenantIndex, i).Ok?
        ==> SigningInputs(inputs, covenantIndex, i).value == AllBut(|inputs|, covenantIndex, i)
    decreases |inputs| - i
  {
    if i < |inputs| {
      SigningInputsMeans(inputs, covenantIndex, i + 1);
    }
  }

  lemma {:induction false} UnsignedAfterFirstMeans(inputs: seq<Input>, i: nat)
    requires i <= |inputs| && WalletInputsClean(inputs, 0, i)
    ensures UnsignedAfterFirst(inputs, i) == AllBut(|inputs|, 0, i)
    decreases |inputs| - i
  {
    if i < |inputs| {
      UnsignedAfterFirstMeans(inputs, i + 1);
    }
  }

  /** The covenant input is the one announced, field by field: the coin of that very game at that very outpoint,
      with the announced invocation, sequence and lock time. */
  ghost predicate SpendsAnnounced(tx: Tx, intent: Intended) {
    && intent.covenantInput.Some? && intent.covenantInputIndex < |tx.inputs|
    && var input, told := tx.inputs[intent.covenantInputIndex], intent.covenantInput.value;
    && input.coin.outpoint == told.outpoint && input.coin.amount == told.amount && input.coin.script == told.script
    && (told.covenantId.Some? ==> input.coin.covenantId == told.covenantId)
    && (told.signature.Some? ==> input.signature == told.signature.value)
    && (intent.lockTime.Some? ==> tx.lockTime == intent.lockTime.value)
    && (intent.sequence.Some? ==> input.sequence == intent.sequence.value)
  }

  /** No amount is negative, and the outputs are the announced ones, followed by the exact change if there is any. */
  ghost predicate PaysAnnounced(tx: Tx, intent: Intended) {
    && intent.fixedOutputs.Some? && intent.fixedOutputs.value != []
    && var change := TotalIn(tx.inputs) - TotalOut(intent.fixedOutputs.value) - intent.feeSompi;
    && change >= 0
    && (change == 0 ==> tx.outputs == intent.fixedOutputs.value)
    && (change > 0 ==>
          && intent.changeScript.Some?
          && tx.outputs == intent.fixedOutputs.value + [Output(change, intent.changeScript.value, None)])
  }

  ghost predicate AmountsAreNatural(tx: Tx, intent: Intended) {
    && intent.feeSompi >= 0
    && (forall i :: 0 <= i < |tx.inputs| ==> tx.inputs[i].coin.amount >= 0)
    && (forall i :: 0 <= i < |tx.outputs| ==> tx.outputs[i].value >= 0)
  }

  /** The wallet signs exactly the other inputs, in order. */
  ghost predicate SignsTheRest(n: nat, covenantIndex: nat, signing: seq<nat>) {
    && (forall k :: k in signing <==> 0 <= k < n && k != covenantIndex)
    && Increasing(signing)
  }

  ghost predicate Increasing(list: seq<nat>) {
    forall a, b :: 0 <= a < b < |list| ==> list[a] < list[b]
  }

  lemma {:induction false} AllButSignsTheRest(n: nat, covenantIndex: nat, i: nat)
    requires i <= n
    ensures forall k :: k in AllBut(n, covenantIndex, i) <==> i <= k < n && k != covenantIndex
    ensures Increasing(AllBut(n, covenantIndex, i))
    decreases n - i
  {
    if i < n {
      AllButSignsTheRest(n, covenantIndex, i + 1);
      var all, rest := AllBut(n, covenantIndex, i), AllBut(n, covenantIndex, i + 1);
      forall a, b | 0 <= a < b < |all| ensures all[a] < all[b] {
        if i != covenantIndex { assert all[b] == rest[b - 1] && rest[b - 1] in rest; }
      }
    }
  }

  lemma {:induction false} SortedListIsUnique(a: seq<nat>, b: seq<nat>)
    requires forall k :: k in a <==> k in b
    requires Increasing(a) && Increasing(b)
    ensures a == b
    decreases |a|
  {
    assert a != [] ==> a[0] in a;
    assert b != [] ==> b[0] in b;
    if a != [] {
      assert a[0] in b && b[0] in a;
      assert a[0] == b[0];
      forall k ensures k in a[1..] <==> k in b[1..] {
        assert k in a[1..] <==> k in a && k != a[0];
        assert k in b[1..] <==> k in b && k != b[0];
      }
      SortedListIsUnique(a[1..], b[1..]);
    }
  }

  lemma {:induction false} MoneyIff(tx: Tx, intent: Intended)
    ensures CheckMoney(tx, intent).Ok? <==>
      SpendsAnnounced(tx, intent) && PaysAnnounced(tx, intent) && AmountsAreNatural(tx, intent)
  {
    if intent.fixedOutputs.Some? {
      var fixedOutputs := intent.fixedOutputs.value;
      if |fixedOutputs| <= |tx.outputs| { TotalOutAppend(fixedOutputs, tx.outputs[|fixedOutputs|..]); }
    }
  }

  /** Soundness, for any intent whatever: an accepted transaction pays exactly the stated fee, hands out
      the stated outputs and at most the exact change to the approved script, and asks the wallet to sign
      every input but the covenant's, none of which is a covenant coin. */
  lemma {:induction false} AcceptedMeansExact(tx: Tx, intent: Intended)
    requires Verify(tx, intent).Ok?
    ensures TotalIn(tx.inputs) - TotalOut(tx.outputs) == intent.feeSompi
    ensures intent.fixedOutputs.Some? && intent.fixedOutputs.value <= tx.outputs
    ensures var fixedOutputs := intent.fixedOutputs.value;
      var change := TotalIn(tx.inputs) - TotalOut(fixedOutputs) - intent.feeSompi;
      tx.outputs == if change == 0 then fixedOutputs
                    else fixedOutputs + [Output(change, if intent.changeScript.Some? then intent.changeScript.value
                        else PayTo(""), None)]
    ensures intent.fixedOutputs.value != tx.outputs ==> intent.changeScript.Some?
    ensures Verify(tx, intent).value == AllBut(|tx.inputs|, intent.covenantInputIndex, 0)
    ensures WalletInputsClean(tx.inputs, intent.covenantInputIndex, 0)
    ensures SpendsAnnounced(tx, intent) && !tx.inputs[intent.covenantInputIndex].signature.Unsigned?
    ensures intent.signingIndexes.Some? ==> Verify(tx, intent).value == intent.signingIndexes.value
    ensures SignsTheRest(|tx.inputs|, intent.covenantInputIndex, Verify(tx, intent).value)
  {
    SigningInputsMeans(tx.inputs, intent.covenantInputIndex, 0);
    AllButSignsTheRest(|tx.inputs|, intent.covenantInputIndex, 0);
    var fixedOutputs := intent.fixedOutputs.value;
    assert tx.outputs[..|fixedOutputs|] == fixedOutputs;
  }

  ghost predicate Acceptable(tx: Tx, intent: Intended) {
    && SpendsAnnounced(tx, intent) && PaysAnnounced(tx, intent) && AmountsAreNatural(tx, intent)
    && !tx.inputs[intent.covenantInputIndex].signature.Unsigned? && |tx.inputs| >= 2
    && (forall k :: 0 <= k < |tx.inputs| && k != intent.covenantInputIndex ==>
          tx.inputs[k].coin.covenantId.None? && tx.inputs[k].signature.Unsigned?)
    && (intent.signingIndexes.Some? ==>
          SignsTheRest(|tx.inputs|, intent.covenantInputIndex, intent.signingIndexes.value))
  }

  /** Exactly what is accepted: the announced covenant input and outputs, exact change, and wallet inputs that are
      ordinary coins still to be signed, which are the announced ones. */
  lemma {:induction false} AcceptedIff(tx: Tx, intent: Intended)
    ensures Verify(tx, intent).Ok? <==> Acceptable(tx, intent)
  {
    MoneyIff(tx, intent);
    var n, c := |tx.inputs|, intent.covenantInputIndex;
    SigningInputsMeans(tx.inputs, c, 0);
    AllButSignsTheRest(n, c, 0);
    var rest := AllBut(n, c, 0);
    assert rest != [] ==> rest[0] in rest;
    assert c < n && n >= 2 ==> (if c == 0 then 1 else 0) in rest;
    if intent.signingIndexes.Some? && SignsTheRest(n, c, intent.signingIndexes.value) {
      SortedListIsUnique(rest, intent.signingIndexes.value);
    }
  }

  /** Why a transaction is refused: as invalid when the announcement or the signatures are incomplete, as a mismatch
      when it is not the announced one. */
  lemma {:induction false} RefusedAs(tx: Tx, intent: Intended)
    ensures var r, c := Verify(tx, intent), intent.covenantInputIndex;
      && (c >= |tx.inputs| || intent.covenantInput.None? ==> r == Err(InvalidTx))
      && (c < |tx.inputs| && intent.covenantInput.Some? && !SpendsAnnounced(tx, intent) ==> r == Err(Mismatch))
      && (SpendsAnnounced(tx, intent) && (intent.fixedOutputs.None? || intent.fixedOutputs.value == []) ==>
            r == Err(InvalidTx))
      && (SpendsAnnounced(tx, intent) && intent.fixedOutputs.Some? && intent.fixedOutputs.value != []
          && AmountsAreNatural(tx, intent) && NaturalOutputs(intent.fixedOutputs.value) && !PaysAnnounced(tx, intent)
          ==> r == Err(Mismatch))
      && (SpendsAnnounced(tx, intent) && PaysAnnounced(tx, intent) && AmountsAreNatural(tx, intent) ==>
            && (WalletInputsClean(tx.inputs, c, 0) && tx.inputs[c].signature.Unsigned? ==> r == Err(InvalidTx))
            && (!WalletInputsClean(tx.inputs, c, 0) && !tx.inputs[c].signature.Unsigned? ==> r == Err(Mismatch))
            && (WalletInputsClean(tx.inputs, c, 0) && |tx.inputs| == 1 ==> r == Err(InvalidTx)))
  {
    MoneyIff(tx, intent);
    if SigningInputs(tx.inputs, intent.covenantInputIndex, 0).Err? {
      RefusedSigning(tx.inputs, intent.covenantInputIndex, 0);
    }
    SigningInputsMeans(tx.inputs, intent.covenantInputIndex, 0);
    AllButSignsTheRest(|tx.inputs|, intent.covenantInputIndex, 0);
    if intent.fixedOutputs.Some? && intent.fixedOutputs.value <= tx.outputs {
      var fixedOutputs := intent.fixedOutputs.value;
      TotalOutAppend(fixedOutputs, tx.outputs[|fixedOutputs|..]);
      assert tx.outputs == fixedOutputs + tx.outputs[|fixedOutputs|..];
    }
  }

  predicate NaturalOutputs(outputs: seq<Output>) {
    forall i :: 0 <= i < |outputs| ==> outputs[i].value >= 0
  }

  lemma {:induction false} RefusedSigning(inputs: seq<Input>, covenantIndex: nat, i: nat)
    requires i <= |inputs| && SigningInputs(inputs, covenantIndex, i).Err?
    ensures WalletInputsClean(inputs, covenantIndex, i) ==> SigningInputs(inputs, covenantIndex, i) == Err(InvalidTx)
    ensures covenantIndex >= |inputs| || covenantIndex < i || !inputs[covenantIndex].signature.Unsigned? ==>
      SigningInputs(inputs, covenantIndex, i) == Err(Mismatch)
    decreases |inputs| - i
  {
    if i < |inputs| && SigningInputs(inputs, covenantIndex, i + 1).Err? {
      RefusedSigning(inputs, covenantIndex, i + 1);
    }
  }

  /** A transaction is accepted against its own intent exactly when it is exact and only its first input
      is, and already carries, a covenant invocation. */
  lemma {:induction false} OwnIntentAccepted(tx: Tx, fee: int)
    requires tx.inputs != [] && NonNegative(tx, tx.outputs)
    ensures Verify(tx, CreateIntent(tx, fee).value).Ok? <==>
      && tx.outputs != [] && fee >= 0 && TotalIn(tx.inputs) - TotalOut(tx.outputs) == fee
      && |tx.inputs| >= 2 && !tx.inputs[0].signature.Unsigned? && WalletInputsClean(tx.inputs, 0, 1)
    ensures Verify(tx, CreateIntent(tx, fee).value).Ok? ==>
      Verify(tx, CreateIntent(tx, fee).value).value == AllBut(|tx.inputs|, 0, 0)
  {
    var intent := CreateIntent(tx, fee).value;
    SigningInputsMeans(tx.inputs, 0, 0);
    if WalletInputsClean(tx.inputs, 0, 0) {
      UnsignedAfterFirstMeans(tx.inputs, 0);
    }
    AllButFirst(|tx.inputs|, 0);
    assert tx.outputs != [] ==> (CheckMoney(tx, intent).Ok? <==> fee >= 0
                                                                 && TotalIn(tx.inputs) - TotalOut(tx.outputs) == fee);
  }

  predicate AwaitsSignature(tx: Tx, k: int) {
    1 <= k < |tx.inputs| && tx.inputs[k].signature.Unsigned?
  }

  /** The intent announced for one transaction accepts another only if both pay the same outputs at the same fee and
      begin with the same input: the same game coin, the same invocation and the same sequence. */
  lemma {:induction false} OwnIntentFixes(tx: Tx, fee: int, other: Tx)
    requires tx.inputs != [] && Verify(other, CreateIntent(tx, fee).value).Ok?
    ensures other.outputs == tx.outputs && TotalIn(other.inputs) - TotalOut(other.outputs) == fee
    ensures |other.inputs| >= 2
    ensures var told := tx.inputs[0].coin.covenantId;
      other.inputs[0] == tx.inputs[0].(coin := tx.inputs[0].coin.(covenantId :=
          if told.Some? then told else other.inputs[0].coin.covenantId))
    ensures WalletInputsClean(other.inputs, 0, 0)
    ensures forall k :: AwaitsSignature(tx, k) <==> 1 <= k < |other.inputs|
  {
    var intent := CreateIntent(tx, fee).value;
    AcceptedIff(other, intent);
    UnsignedAre(tx.inputs, 0);
    AcceptedMeansExact(other, intent);
    forall k ensures AwaitsSignature(tx, k) <==> 1 <= k < |other.inputs| {
      assert k in UnsignedAfterFirst(tx.inputs, 0) <==> 1 <= k < |other.inputs|;
    }
  }

  lemma {:induction false} UnsignedAre(inputs: seq<Input>, i: nat)
    requires i <= |inputs|
    ensures forall k :: k in UnsignedAfterFirst(inputs, i) <==>
        i <= k < |inputs| && k > 0 && inputs[k].signature.Unsigned?
    decreases |inputs| - i
  {
    if i < |inputs| { UnsignedAre(inputs, i + 1); }
  }

  lemma {:induction false} AllButFirst(n: nat, i: nat)
    requires i <= n
    ensures |AllBut(n, 0, i)| == if i == 0 && n > 0 then n - 1 else n - i
    decreases n - i
  {
    if i < n {
      AllButFirst(n, i + 1);
    }
  }

  // --- The builders against the check --------------------------------------

  predicate NoCovenantCoin(coins: seq<Coin>) {
    forall i :: 0 <= i < |coins| ==> coins[i].covenantId.None?
  }

  lemma {:induction false} NonNegativeTail(tx: Tx, outputs: seq<Output>)
    requires PositiveOutputs(outputs) && outputs <= tx.outputs && |tx.outputs| <= |outputs| + 1
    requires TotalOut(tx.outputs[|outputs|..]) >= 0
    requires tx.inputs != [] && tx.inputs[0].coin.amount >= 0
    requires forall i :: 1 <= i < |tx.inputs| ==> tx.inputs[i].coin.amount > 0
    ensures NonNegative(tx, tx.outputs)
  {
    if |tx.outputs| == |outputs| + 1 {
      assert tx.outputs[|outputs|..][1..] == [];
      assert TotalOut(tx.outputs[|outputs|..]) == tx.outputs[|outputs|].value;
    }
    forall i | 0 <= i < |tx.outputs| ensures tx.outputs[i].value >= 0 {
      if i < |outputs| { assert outputs[i] == tx.outputs[i]; }
    }
  }

  /** Reveals and refunds: accepted exactly when no covenant coin was offered as funding, which the
      builder itself does not check. */
  lemma {:induction false} TerminalAccepted(gameCoin: Coin, sequence: int, lockTime: int, entry: Entry,
          args: seq<Argument>, outputs: seq<Output>, feeInputs: seq<Coin>, fee: int, change: Option<Change>)
    requires outputs != []
    requires PrepareTerminal(gameCoin, sequence, lockTime, Invocation(entry, args), outputs, feeInputs, fee, change).Ok?
    ensures var tx := PrepareTerminal(gameCoin, sequence, lockTime, Invocation(entry, args), outputs, feeInputs, fee,
        change).value;
      && (Verify(tx, CreateIntent(tx, fee).value).Ok? <==> NoCovenantCoin(feeInputs))
      && (NoCovenantCoin(feeInputs) ==> Verify(tx, CreateIntent(tx, fee).value).value == AllBut(|tx.inputs|, 0, 0))
  {
    var invocation := Invocation(entry, args);
    var tx := PrepareTerminal(gameCoin, sequence, lockTime, invocation, outputs, feeInputs, fee, change).value;
    TerminalIsExact(gameCoin, sequence, lockTime, invocation, outputs, feeInputs, fee, change);
    TailInputs(tx.inputs, feeInputs);
    TotalInCons(tx.inputs[0], Ordinary(feeInputs));
    NonNegativeTail(tx, outputs);
    OwnIntentAccepted(tx, fee);
  }

  lemma {:induction false} TailInputs(inputs: seq<Input>, feeInputs: seq<Coin>)
    requires inputs != [] && inputs[1..] == Ordinary(feeInputs)
    ensures |inputs| == |feeInputs| + 1
    ensures forall i :: 1 <= i < |inputs| ==> inputs[i] == Input(feeInputs[i - 1], 0, Unsigned)
    ensures WalletInputsClean(inputs, 0, 1) <==> NoCovenantCoin(feeInputs)
  {
    assert |inputs[1..]| == |feeInputs|;
    forall i | 1 <= i < |inputs| ensures inputs[i] == Input(feeInputs[i - 1], 0, Unsigned) {
      assert inputs[i] == inputs[1..][i - 1];
    }
    if WalletInputsClean(inputs, 0, 1) {
      forall i | 0 <= i < |feeInputs| ensures feeInputs[i].covenantId.None? {
        assert inputs[i + 1].coin.covenantId.None?;
      }
    }
  }

  /** Joins are always accepted. */
  lemma {:induction false} JoinAccepted(gameCoin: Coin, stake: int, args: seq<Argument>, continuation: Output,
                     feeInputs: seq<Coin>, fee: int, change: Option<Change>)
    requires PrepareJoin(gameCoin, stake, Invocation(JoinEntry, args), continuation, feeInputs, fee, change).Ok?
    ensures var tx := PrepareJoin(gameCoin, stake, Invocation(JoinEntry, args), continuation, feeInputs, fee,
        change).value;
      Verify(tx, CreateIntent(tx, fee).value) == Ok(AllBut(|tx.inputs|, 0, 0))
  {
    var invocation := Invocation(JoinEntry, args);
    var tx := PrepareJoin(gameCoin, stake, invocation, continuation, feeInputs, fee, change).value;
    JoinIsExact(gameCoin, stake, invocation, continuation, feeInputs, fee, change);
    TailInputs(tx.inputs, feeInputs);
    assert [tx.outputs[0]] <= tx.outputs;
    NonNegativeTail(tx, [tx.outputs[0]]);
    OwnIntentAccepted(tx, fee);
  }

  /** A covenant coin offered as reveal funding is built into a transaction that its own intent refuses. */
  lemma {:induction false} CovenantFundingRefused(gameCoin: Coin, stolen: Coin, recipient: Script)
    requires gameCoin.amount == 100 && stolen.amount == 50 && stolen.covenantId == Some("c0")
    ensures var r := PrepareTerminal(gameCoin, 0, 0, Invocation(RevealEntry, []), [Output(100, recipient, None)],
        [stolen], 50, None);
      r.Ok? && Verify(r.value, CreateIntent(r.value, 50).value).Err?
  {
    var outputs := [Output(100, recipient, None)];
    assert TotalOut(outputs) == 100 by { assert outputs[1..] == []; }
    TotalInCons(Input(gameCoin, 0, Invocation(RevealEntry, [])), Ordinary([stolen]));
    assert TotalOf([stolen]) == 50 by { assert [stolen][1..] == []; }
    TerminalAccepted(gameCoin, 0, 0, RevealEntry, [], outputs, [stolen], 50, None);
    assert !NoCovenantCoin([stolen]) by { assert [stolen][0].covenantId.Some?; }
  }

  // --- The wallet's own derivation of what to sign -------------------------

  /** The inputs without a signature script, by index: what the browser would sign when told nothing. */
  function SigningInputsFor(inputs: seq<Input>, i: nat): seq<nat>
    requires i <= |inputs|
    decreases |inputs| - i
  {
    if i == |inputs| then []
    else (if inputs[i].signature.Unsigned? then [i] else []) + SigningInputsFor(inputs, i + 1)
  }

  lemma {:induction false} BothSidesSignTheSame(tx: Tx, intent: Intended, i: nat)
    requires Verify(tx, intent).Ok? && i <= |tx.inputs|
    ensures SigningInputsFor(tx.inputs, i) == AllBut(|tx.inputs|, intent.covenantInputIndex, i)
    ensures i == 0 ==> SigningInputsFor(tx.inputs, i) == Verify(tx, intent).value
    decreases |tx.inputs| - i
  {
    SigningInputsMeans(tx.inputs, intent.covenantInputIndex, 0);
    if i < |tx.inputs| {
      BothSidesSignTheSame(tx, intent, i + 1);
    }
  }
}
