/** Whole chains: what happens to one game's escrow in any list of transactions without a double spend. */
module EscrowRuns {
  import opened Outcomes
  import opened Economics
  import opened Transactions
  import opened EscrowLedger

  predicate Spends(tx: Tx, o: Outpoint) {
    exists a :: 0 <= a < |tx.inputs| && tx.inputs[a].coin.outpoint == o
  }

  /** An output is spent at most once. */
  ghost predicate NoDoubleSpend(chain: seq<Tx>) {
    forall i, j, o :: 0 <= i < |chain| && 0 <= j < |chain| && Spends(chain[i], o) && Spends(chain[j], o) ==> i == j
  }

  predicate Spent(chain: seq<Tx>, o: Outpoint) {
    exists i :: 0 <= i < |chain| && Spends(chain[i], o)
  }

  /** A covenant coin of the game: what stage it is at, and where. */
  datatype Position = Position(stage: Stage, at: Outpoint)

  /** One spend of a covenant coin, and the move it was built for, before the wallet signed it. */
  datatype Step = Step(index: nat, move: Move)

  /** The three parties keep three different keys, also after somebody takes the second seat. */
  predicate KeysStayDistinct(game: Game, p: Position, move: Move) {
    DistinctKeys(game, p.stage) && (Continues(move) ==> DistinctKeys(game, Next(p.stage, move)))
  }

  ghost predicate IsStep(chain: seq<Tx>, game: Game, p: Position, s: Step) {
    && s.index < |chain|
    && Spends(chain[s.index], p.at)
    && Build(game, p.stage, p.at, s.move).Ok? && Signs(Build(game, p.stage, p.at, s.move).value, chain[s.index])
    && KeysStayDistinct(game, p, s.move)
  }

  /** Whatever the wallet writes into the inputs left to it, a signed build is a step. */
  lemma {:induction false} SignedBuildIsAStep(chain: seq<Tx>, game: Game, p: Position, s: Step)
    requires s.index < |chain| && Build(game, p.stage, p.at, s.move).Ok? && KeysStayDistinct(game, p, s.move)
    requires Signs(Build(game, p.stage, p.at, s.move).value, chain[s.index])
    ensures IsStep(chain, game, p, s) && TxIdOf(chain[s.index]) == TxIdOf(Build(game, p.stage, p.at, s.move).value)
  {
    var built := Build(game, p.stage, p.at, s.move).value;
    BuildIsExact(game, p.stage, p.at, s.move);
    SigningKeepsTheId(built, chain[s.index]);
    assert built.inputs[0].coin.outpoint == p.at;
    assert chain[s.index].inputs[0].coin.outpoint == p.at;
  }

  function After(chain: seq<Tx>, p: Position, s: Step): Position
    requires s.index < |chain| && Continues(s.move)
  {
    Position(Next(p.stage, s.move), Outpoint(TxIdOf(chain[s.index]), 0))
  }

  function Rank(stage: Stage): nat {
    match stage case Waiting => 2 case Ready(_, _) => 1 case Led(_, _, _, _) => 0
  }

  lemma {:induction false} RankFalls(chain: seq<Tx>, game: Game, p: Position, s: Step)
    requires IsStep(chain, game, p, s) && Continues(s.move)
    ensures Rank(After(chain, p, s).stage) < Rank(p.stage)
  {
    BuildIsExact(game, p.stage, p.at, s.move);
  }

  /** Along this game's covenant coins the chain holds only transactions the service builds, signed. */
  ghost predicate Follows(chain: seq<Tx>, game: Game, p: Position)
    decreases Rank(p.stage)
  {
    && (Spent(chain, p.at) ==> exists s :: IsStep(chain, game, p, s))
    && (forall s :: IsStep(chain, game, p, s) && Continues(s.move) && Rank(After(chain, p, s).stage) < Rank(p.stage) ==>
          Follows(chain, game, After(chain, p, s)))
  }

  datatype Fate = StillHeld(locked: int) | PaidOut(tx: Tx, locked: int)

  /** What has become of the escrow found at `p`. */
  ghost function FateOf(chain: seq<Tx>, game: Game, p: Position): Fate
    requires Follows(chain, game, p)
    decreases Rank(p.stage)
  {
    if !Spent(chain, p.at) then StillHeld(Held(game, p.stage))
    else
      var s :| IsStep(chain, game, p, s);
      if !Continues(s.move) then PaidOut(chain[s.index], Held(game, p.stage))
      else
        RankFalls(chain, game, p, s);
        FateOf(chain, game, After(chain, p, s))
  }

  /** One transaction cannot have been built for two different continuations, or for a continuation and an ending. */
  lemma {:induction false} OneMeaning(chain: seq<Tx>, game: Game, p: Position, s: Step, t: Step)
    requires NoDoubleSpend(chain) && IsStep(chain, game, p, s) && IsStep(chain, game, p, t)
    ensures s.index == t.index && (Continues(s.move) <==> Continues(t.move))
    ensures Continues(s.move) ==> After(chain, p, s) == After(chain, p, t)
  {
    BuildIsExact(game, p.stage, p.at, s.move);
    BuildIsExact(game, p.stage, p.at, t.move);
    var terms := Resolve(game.stake).value;
    FirstOutputTells(game, p.stage, s.move, t.move, terms);
  }

  /** A continuing output carries its whole stage; an ending pays a key. */
  lemma FirstOutputTells(game: Game, stage: Stage, m: Move, n: Move, terms: Terms)
    requires Fits(stage, m) && Fits(stage, n)
    requires Continues(m) ==> DistinctKeys(game, Next(stage, m))
    requires EscrowOutputs(game, stage, m, terms)[0] == EscrowOutputs(game, stage, n, terms)[0]
    ensures Continues(m) <==> Continues(n)
    ensures Continues(m) ==> Next(stage, m) == Next(stage, n)
  {
    assert Continues(m) <==> EscrowOutputs(game, stage, m, terms)[0].script.Covenant?;
    assert Continues(n) <==> EscrowOutputs(game, stage, n, terms)[0].script.Covenant?;
    if Continues(m) {
      assert StateOf(game, Next(stage, m)) == StateOf(game, Next(stage, n));
    }
  }

  /** The fate does not depend on which reading of the spend is picked. */
  lemma {:induction false} FateByAnyStep(chain: seq<Tx>, game: Game, p: Position, s: Step)
    requires NoDoubleSpend(chain) && Follows(chain, game, p) && IsStep(chain, game, p, s)
    ensures !Continues(s.move) ==> FateOf(chain, game, p) == PaidOut(chain[s.index], Held(game, p.stage))
    ensures Continues(s.move) ==> Follows(chain, game, After(chain, p, s))
                                  && FateOf(chain, game, p) == FateOf(chain, game, After(chain, p, s))
  {
    if Continues(s.move) { RankFalls(chain, game, p, s); }
    assert Spent(chain, p.at);
    forall t | IsStep(chain, game, p, t)
      ensures t.index == s.index && (Continues(t.move) <==> Continues(s.move))
      ensures Continues(s.move) ==> After(chain, p, t) == After(chain, p, s)
    {
      OneMeaning(chain, game, p, s, t);
    }
  }

  /** Steps that follow one another from `p`, the last of which ends the game with `tx`. */
  ghost predicate EndsAt(chain: seq<Tx>, game: Game, p: Position, trail: seq<Step>, tx: Tx)
    decreases |trail|
  {
    && trail != [] && IsStep(chain, game, p, trail[0])
    && (if Continues(trail[0].move) then EndsAt(chain, game, After(chain, p, trail[0]), trail[1..], tx)
        else |trail| == 1 && tx == chain[trail[0].index])
  }

  /** Every transaction that ends the game is the one the escrow's fate names. */
  lemma {:induction false} EndingIsTheFate(chain: seq<Tx>, game: Game, p: Position, trail: seq<Step>, tx: Tx)
    requires NoDoubleSpend(chain) && Follows(chain, game, p) && EndsAt(chain, game, p, trail, tx)
    ensures FateOf(chain, game, p).PaidOut? && FateOf(chain, game, p).tx == tx
    decreases |trail|
  {
    FateByAnyStep(chain, game, p, trail[0]);
    if Continues(trail[0].move) {
      EndingIsTheFate(chain, game, After(chain, p, trail[0]), trail[1..], tx);
    }
  }

  /** The escrow is paid out at most once. */
  lemma {:induction false} PaidAtMostOnce(chain: seq<Tx>, game: Game, creation: Outpoint, t1: seq<Step>, tx1: Tx,
          t2: seq<Step>, tx2: Tx)
    requires NoDoubleSpend(chain) && Follows(chain, game, Position(Waiting, creation))
    requires EndsAt(chain, game, Position(Waiting, creation), t1, tx1)
    requires EndsAt(chain, game, Position(Waiting, creation), t2, tx2)
    ensures tx1 == tx2
  {
    EndingIsTheFate(chain, game, Position(Waiting, creation), t1, tx1);
    EndingIsTheFate(chain, game, Position(Waiting, creation), t2, tx2);
  }

  /** A spend of the chain pays whom its move promises, and what a continuation leaves is the next covenant coin. */
  lemma {:induction false} StepPaysAsPromised(chain: seq<Tx>, game: Game, p: Position, s: Step)
    requires IsStep(chain, game, p, s)
    ensures !Continues(s.move) ==> PaysAsPromised(game, p.stage, s.move, chain[s.index])
    ensures Continues(s.move) ==>
      var left, next := chain[s.index].outputs[0], EscrowCoin(game, Next(p.stage, s.move), After(chain, p, s).at);
      LeavesBehind(game, p.stage, s.move, chain[s.index])
      && next == Coin(Outpoint(TxIdOf(chain[s.index]), 0), left.value, left.script, left.covenant)
  {
    var built := Build(game, p.stage, p.at, s.move).value;
    BuildIsExact(game, p.stage, p.at, s.move);
    assert chain[s.index].inputs[0].sequence == built.inputs[0].sequence;
    if Continues(s.move) {
      ContinuationLeavesBehind(game, p.stage, p.at, s.move);
    } else {
      EndingPaysAsPromised(game, p.stage, p.at, s.move);
    }
  }

  /** `tx` ends the game, pays whom that ending promises, and pays out `locked` to the sompi. */
  ghost predicate PaysInFull(chain: seq<Tx>, game: Game, tx: Tx, locked: int) {
    exists p: Position, s: Step :: IsStep(chain, game, p, s) && !Continues(s.move) && tx == chain[s.index]
      && PaysAsPromised(game, p.stage, s.move, tx)
      && Held(game, p.stage) == locked && Settles(PayoutOf(game, p.stage, s.move, Resolve(game.stake).value), locked)
  }

  /** From any point on, the escrow is either still held in full or has been paid out in full: creator,
      joiner, game fee and automation fee add up to exactly what was locked, and some player is paid. */
  lemma {:induction false} HeldOrPaidInFull(chain: seq<Tx>, game: Game, p: Position)
    requires NoDoubleSpend(chain) && Follows(chain, game, p) && game.stake > 0
    ensures match FateOf(chain, game, p)
      case StillHeld(locked) => Held(game, p.stage) <= locked <= 2 * game.stake
      case PaidOut(tx, locked) => Held(game, p.stage) <= locked <= 2 * game.stake && PaysInFull(chain, game, tx, locked)
    decreases Rank(p.stage)
  {
    if Spent(chain, p.at) {
      var s :| IsStep(chain, game, p, s);
      FateByAnyStep(chain, game, p, s);
      if Continues(s.move) {
        RankFalls(chain, game, p, s);
        HeldOrPaidInFull(chain, game, After(chain, p, s));
      } else {
        EndingConserves(game, p.stage, p.at, s.move);
        StepPaysAsPromised(chain, game, p, s);
      }
    }
  }
}
