/** Funding a covenant spend end to end: list the candidates, price each with the repricing loop, keep the lightest. */
module TerminalFunding {
  import opened Outcomes
  import opened StableSort
  import opened FeeRepricing
  import opened FundingCandidates
  import Transactions
  import UtxoSelection

  type Tx = Transactions.Tx
  type Utxo = UtxoSelection.Utxo
  type Script = Transactions.Script

  /** Builds the covenant spend at a fee with these coins and this change. */
  type Measure = (seq<Utxo>, int, Option<Transactions.Change>) -> Result<Tx, Transactions.BuildError>

  datatype Failure = NoFunds(cause: UtxoSelection.SelectionError) | NotFunded(reason: FundingError<FeeError>)

  datatype Funding = Funding(inputs: seq<Utxo>, priced: Priced)

  function BuilderFor(measure: Measure, inputs: seq<Utxo>): Builder {
    (fee, change) => measure(inputs, fee, change)
  }

  function ChangeTo(scriptOf: Utxo -> Option<Script>, inputs: seq<Utxo>): Option<Script> {
    if inputs == [] then None else scriptOf(inputs[0])
  }

  /** The repricing loop on one candidate: what the candidate holds funds the fee, its first coin takes the change. */
  function Repriced(measure: Measure, scriptOf: Utxo -> Option<Script>, mass: Tx -> nat, rate: real, rounds: nat,
          inputs: seq<Utxo>): Result<Priced, FeeError>
  {
    Reprice(BuilderFor(measure, inputs), mass, rate, UtxoSelection.Sum(inputs), ChangeTo(scriptOf, inputs), 0, rounds)
  }

  function PriceOf(measure: Measure, scriptOf: Utxo -> Option<Script>, mass: Tx -> nat, storage: Tx -> int, rate: real,
          rounds: nat): seq<Utxo> -> Pricing<FeeError>
  {
    (inputs: seq<Utxo>) =>
      match Repriced(measure, scriptOf, mass, rate, rounds, inputs)
      case Err(e) => Pricing.Failed(e)
      case Ok(p) => Pricing.Priced(storage(p.tx))
  }

  predicate IsOrdinary(u: Utxo) {
    !u.covenant
  }

  /** The candidates for a player's coins: covenant coins are never offered. */
  function Offered(entries: seq<Utxo>, byText: (Utxo, Utxo) -> bool): seq<seq<Utxo>> {
    Candidates(Filter(IsOrdinary, entries), 1, byText, MOST_COINS)
  }

  method Select(entries: seq<Utxo>, byText: (Utxo, Utxo) -> bool, measure: Measure, scriptOf: Utxo -> Option<Script>,
                mass: Tx -> nat, storage: Tx -> int, priority: Option<real>, rounds: nat := MAX_REPRICING_ROUNDS)
    returns (r: Result<Funding, Failure>)
    ensures var price := PriceOf(measure, scriptOf, mass, storage, RateOf(priority), rounds);
      && (r.Ok? <==> exists c :: c in Offered(entries, byText) && price(c).Priced? && price(c).storageMass <= 500_000)
      && (r.Ok? ==> r.value.inputs in Offered(entries, byText)
                    && Repriced(measure, scriptOf, mass, RateOf(priority), rounds, r.value.inputs) == Ok(r.value.priced)
                    && storage(r.value.priced.tx) <= 500_000
                    && forall c :: c in Offered(entries, byText) && price(c).Priced?
                        ==> storage(r.value.priced.tx) <= price(c).storageMass)
  {
    var price := PriceOf(measure, scriptOf, mass, storage, RateOf(priority), rounds);
    var ordinary := Filter(IsOrdinary, entries);
    var candidates := ListFundingCandidates(ordinary, 1, byText);
    if candidates == [] {
      var probe := UtxoSelection.Select(entries, 1, {});
      if probe.Err? { return Err(NoFunds(probe.error)); }
    }
    var chosen := SelectFunding(candidates, price);
    if chosen.Err? { return Err(NotFunded(chosen.error)); }
    assert exists i: nat :: IsLightest(candidates, price, i) && chosen.value == candidates[i];
    return Ok(Funding(chosen.value, Repriced(measure, scriptOf, mass, RateOf(priority), rounds, chosen.value).value));
  }

  /** What is chosen is spendable as it stands: it holds no covenant coin, the transaction is the one built from its
      coins at its own fee, and that fee is the price of that very transaction. */
  lemma {:induction false} ChosenIsPriced(entries: seq<Utxo>, byText: (Utxo, Utxo) -> bool, measure: Measure,
          scriptOf: Utxo -> Option<Script>, mass: Tx -> nat, rate: real, rounds: nat, inputs: seq<Utxo>)
    requires inputs in Offered(entries, byText) && Repriced(measure, scriptOf, mass, rate, rounds, inputs).Ok?
    ensures forall u :: u in inputs ==> u in entries && !u.covenant
    ensures var p := Repriced(measure, scriptOf, mass, rate, rounds, inputs).value;
      var rest := UtxoSelection.Sum(inputs) - p.fee;
      && inputs != []
      && measure(inputs, p.fee, if rest > 0 then Some(Transactions.Change(rest, scriptOf(inputs[0]))) else None)
         == Ok(p.tx)
      && p.fee == FeeFor(p.tx, mass, rate)
  {
    var ordinary := Filter(IsOrdinary, entries);
    CandidatesAreAll(ordinary, 1, byText, MOST_COINS);
    forall u | u in inputs ensures u in entries && !u.covenant {
      OfferedFromEntries(ordinary, byText, inputs, u);
    }
    OfferedIsSomething(ordinary, byText, inputs);
    PricedAsBuilt(measure, scriptOf, mass, rate, rounds, inputs);
  }

  lemma {:induction false} OfferedIsSomething(ordinary: seq<Utxo>, byText: (Utxo, Utxo) -> bool, inputs: seq<Utxo>)
    requires inputs in Candidates(ordinary, 1, byText, MOST_COINS)
    ensures inputs != []
  {
    CandidatesAreAll(ordinary, 1, byText, MOST_COINS);
    assert UtxoSelection.Sum([]) == 0;
  }

  lemma {:induction false} PricedAsBuilt(measure: Measure, scriptOf: Utxo -> Option<Script>, mass: Tx -> nat,
          rate: real, rounds: nat, inputs: seq<Utxo>)
    requires inputs != [] && Repriced(measure, scriptOf, mass, rate, rounds, inputs).Ok?
    ensures var p := Repriced(measure, scriptOf, mass, rate, rounds, inputs).value;
      var rest := UtxoSelection.Sum(inputs) - p.fee;
      && measure(inputs, p.fee, if rest > 0 then Some(Transactions.Change(rest, scriptOf(inputs[0]))) else None)
         == Ok(p.tx)
      && p.fee == FeeFor(p.tx, mass, rate)
  {
    var build, script := BuilderFor(measure, inputs), ChangeTo(scriptOf, inputs);
    assert script == scriptOf(inputs[0]);
    StopsAtFixedPoint(build, mass, rate, UtxoSelection.Sum(inputs), script, 0, rounds);
    var p := Repriced(measure, scriptOf, mass, rate, rounds, inputs).value;
    var change := ChangeAt(UtxoSelection.Sum(inputs), p.fee, script);
    assert build(p.fee, change) == measure(inputs, p.fee, change);
  }

  /** A candidate can be priced exactly when the fees that start from none settle within the rounds. */
  lemma {:induction false} PricedIff(measure: Measure, scriptOf: Utxo -> Option<Script>, mass: Tx -> nat, rate: real,
          rounds: nat, inputs: seq<Utxo>)
    requires inputs != []
    ensures Repriced(measure, scriptOf, mass, rate, rounds, inputs).Ok? <==>
      SettlesWithin(BuilderFor(measure, inputs), mass, rate, UtxoSelection.Sum(inputs), scriptOf(inputs[0]), 0, rounds)
  {
    assert ChangeTo(scriptOf, inputs) == scriptOf(inputs[0]);
    FoundIfReached(BuilderFor(measure, inputs), mass, rate, UtxoSelection.Sum(inputs), scriptOf(inputs[0]), 0, rounds);
  }

  lemma {:induction false} OfferedFromEntries(ordinary: seq<Utxo>, byText: (Utxo, Utxo) -> bool, inputs: seq<Utxo>,
          u: Utxo)
    requires u in inputs
    requires IsCombination(Pool(ordinary, byText), 1, MOST_COINS, inputs)
      || (UtxoSelection.Select(ordinary, 1, {}).Ok? && inputs
          == Chosen(ordinary, UtxoSelection.Select(ordinary, 1, {}).value.selected))
    ensures u in ordinary
  {
    var pool := Pool(ordinary, byText);
    if IsCombination(pool, 1, MOST_COINS, inputs) {
      var t: seq<nat> :| 1 <= |t| <= MOST_COINS && Increasing(t, 0, |pool|) && inputs == Pick(pool, t);
      var i :| 0 <= i < |inputs| && inputs[i] == u;
      assert InPool(pool, t);
      assert u == pool[t[i]] && u in Sort(Smallest(byText), ordinary);
      SortMembers(Smallest(byText), ordinary, u);
    }
  }
}
