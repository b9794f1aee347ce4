/** One game in which retrying a confirmed first reveal costs the player the timeout. */
module RevealExample {
  import opened Outcomes
  import opened Economics
  import opened Transactions
  import opened EscrowLedger
  import opened EscrowRuns
  import opened RevealGame
  import opened RevealSafety
  import opened RevealRetries

  /** A first reveal from preparation to confirmation. */
  function Leading(t: Table, tx: Tx, player: Player, choice: Choice, nonce: string, wallet: Wallet,
          now: Millis): seq<Event>
    requires t.stage.Ready?
  {
    [OnPrepare(player, choice, nonce, wallet, now, {t.escrow.txId})] + ([OnSubmit(tx, true,
        now)] + ([OnMine(tx)] + [OnRefresh({TxIdOf(tx)})]))
  }

  /** The same transaction submitted again, and the next refresh. */
  function Retrying(tx: Tx, now: Millis): seq<Event> {
    [OnSubmit(tx, false, now)] + [OnRefresh({TxIdOf(tx)})]
  }

  function LeadTx(t: Table, player: Player, choice: Choice, nonce: string, wallet: Wallet): Tx
    requires Build(t.game, t.stage, t.escrow, LeadMove(player, choice, nonce, wallet)).Ok?
  {
    Build(t.game, t.stage, t.escrow, LeadMove(player, choice, nonce, wallet)).value
  }

  /** The world once the first reveal is confirmed. */
  function Confirmed(t: Table, w: World, player: Player, choice: Choice, nonce: string, wallet: Wallet,
          now: Millis): World
    requires IsTable(t) && Build(t.game, t.stage, t.escrow, LeadMove(player, choice, nonce, wallet)).Ok?
  {
    var tx := LeadTx(t, player, choice, nonce, wallet);
    React(t, React(t, React(t, React(t, w, OnPrepare(player, choice, nonce, wallet, now, {t.escrow.txId})),
        OnSubmit(tx, true, now)), OnMine(tx)),
          OnRefresh({TxIdOf(tx)}))
  }

  lemma {:induction false} LeadingIsPossible(t: Table, w: World, player: Player, choice: Choice, nonce: string,
          wallet: Wallet, now: Millis)
    requires IsTable(t) && ReadyToLead(t, w, player, choice, nonce, wallet)
    ensures var events := Leading(t, LeadTx(t, player, choice, nonce, wallet), player, choice, nonce, wallet, now);
      PossibleRun(t, w, events) && RunEvents(t, w, events) == Confirmed(t, w, player, choice, nonce, wallet, now)
  {
    var tx := LeadTx(t, player, choice, nonce, wallet);
    LeadIsPrepared(t, w, player, choice, nonce, wallet, now);
    var e1, e2, e3, e4 := OnPrepare(player, choice, nonce, wallet, now, {t.escrow.txId}), OnSubmit(tx, true,
        now), OnMine(tx), OnRefresh({TxIdOf(tx)});
    var w1 := React(t, w, e1);
    var w2 := React(t, w1, e2);
    var w3 := React(t, w2, e3);
    RunCons(t, w, e1, [e2] + ([e3] + [e4]));
    RunCons(t, w1, e2, [e3] + [e4]);
    RunCons(t, w2, e3, [e4]);
    RunCons(t, w3, e4, []);
    assert [e4] + [] == [e4];
  }

  /** One confirmed lead, its preparation still held, its continuation unspent. */
  ghost predicate OneLead(w: World, tx: Tx) {
    && !w.record.status.Settled? && |w.record.attempts| == 1
    && var c := w.record.attempts[0];
       c.confirmed && c.IsLead() && c.prepared == tx && !Spent(w.chain, Outpoint(c.Id(), 0)) && tx in w.preparations
           && tx in w.sent
  }

  lemma {:induction false} ConfirmedShape(t: Table, w: World, player: Player, choice: Choice, nonce: string,
          wallet: Wallet, now: Millis)
    requires IsTable(t) && ReadyToLead(t, w, player, choice, nonce, wallet)
    ensures OneLead(Confirmed(t, w, player, choice, nonce, wallet, now), LeadTx(t, player, choice, nonce, wallet))
    ensures TimeoutMove(Confirmed(t, w, player, choice, nonce, wallet, now).record, true, FALLBACK_CLAIM_DAA_OFFSET)
        == Some(FallbackClaim)
  {
    LeadGetsThere(t, w, player, choice, nonce, wallet, now);
  }

  lemma {:induction false} ConfirmedKeeps(t: Table, w: World, player: Player, choice: Choice, nonce: string,
          wallet: Wallet, now: Millis)
    requires IsTable(t) && ReadyToLead(t, w, player, choice, nonce, wallet)
    ensures Inv(t, Confirmed(t, w, player, choice, nonce, wallet, now))
  {
    LeadingIsPossible(t, w, player, choice, nonce, wallet, now);
    RunKeeps(t, w, Leading(t, LeadTx(t, player, choice, nonce, wallet), player, choice, nonce, wallet, now));
  }

  lemma OneLeadIsOnce(w: World, tx: Tx)
    requires OneLead(w, tx)
    ensures Once(w)
  {
    assert w.record.attempts == [w.record.attempts[0]];
    CountOne(w.record.attempts[0]);
  }

  /** From any freshly joined game, for either player: leading and then retrying is a possible run, records
      the first reveal twice, and whatever happens later the timeout keeper never acts on the game. */
  lemma {:induction false} RetryingALeadLosesTheTimeout(t: Table, w: World, player: Player, choice: Choice,
          nonce: string, wallet: Wallet, now: Millis, later: seq<Event>, age: int)
    requires IsTable(t) && ReadyToLead(t, w, player, choice, nonce, wallet)
    ensures var tx := LeadTx(t, player, choice, nonce, wallet);
      var led := RunEvents(t, w, Leading(t, tx, player, choice, nonce, wallet, now));
      var retried := RunEvents(t, led, Retrying(tx, now));
      && PossibleRun(t, w, Leading(t, tx, player, choice, nonce, wallet, now)) && PossibleRun(t, led, Retrying(tx, now))
      && TimeoutMove(led.record, true, FALLBACK_CLAIM_DAA_OFFSET) == Some(FallbackClaim)
      && LeadCount(retried.record.attempts) == 2
      && TimeoutMove(RunEvents(t, retried, later).record, true, age) == None
  {
    LeadingIsPossible(t, w, player, choice, nonce, wallet, now);
    ConfirmedShape(t, w, player, choice, nonce, wallet, now);
    ConfirmedKeeps(t, w, player, choice, nonce, wallet, now);
    OneLeadIsOnce(Confirmed(t, w, player, choice, nonce, wallet, now), LeadTx(t, player, choice, nonce, wallet));
    var end := Confirmed(t, w, player, choice, nonce, wallet, now);
    RetryLosesTheTimeout(t, end, end.record.attempts[0], now, later, age);
  }

  // --- A concrete game -----------------------------------------------------

  const GAME := Game("creator", Committed(Zero, "n1"), MIN_STAKE_SOMPI, 0, true, "house", "covenant")
  const STAGE := Ready("joiner", Committed(One, "n2"))
  const JOIN_TX := Tx([], [Output(2 * MIN_STAKE_SOMPI, Covenant(StateOf(GAME, STAGE)), Some("covenant"))], 0)
  const TABLE := Table(GAME, STAGE, Outpoint(TxIdOf(JOIN_TX), 0))
  const FUNDING := Coin(Outpoint(External("wallet"), 0), 5000, PayTo("creator"), None)
  const WALLET := Wallet([FUNDING], 5000, None)
  const JOINED := World([JOIN_TX], Record(JoinBroadcast, [], None, false), map[], {}, None)

  lemma KeysDiffer()
    ensures "creator" != "joiner" && "creator" != "house" && "joiner" != "house"
  {
    assert "creator"[0] != "joiner"[0] && "creator"[0] != "house"[0] && "joiner"[0] != "house"[0];
  }

  lemma {:induction false} LeadIsBuilt() returns (tx: Tx)
    ensures IsTable(TABLE) && Build(GAME, STAGE, TABLE.escrow, LeadMove(Creator, Zero, "n1", WALLET)) == Ok(tx)
    ensures |tx.inputs| == 2 && tx.inputs[0].coin.outpoint == TABLE.escrow && tx.inputs[1].coin == FUNDING
  {
    KeysDiffer();
    var coin := EscrowCoin(GAME, STAGE, TABLE.escrow);
    var move := LeadMove(Creator, Zero, "n1", WALLET);
    var outputs := EscrowOutputs(GAME, STAGE, move, Resolve(GAME.stake).value);
    var invocation := RevealInvocation(GAME, STAGE, Creator, Zero, "n1", KeyOf(GAME, STAGE, Creator));
    assert [FUNDING][1..] == [];
    assert Ordinary([FUNDING]) == [Input(FUNDING, 0, Unsigned)];
    var inputs := [Input(coin, 0, invocation)] + Ordinary([FUNDING]);
    TotalInCons(Input(coin, 0, invocation), Ordinary([FUNDING]));
    assert TotalIn(Ordinary([FUNDING])) == TotalOf([FUNDING]) == 5000;
    TwoOutputs(outputs);
    assert TotalIn(inputs) - TotalOut(outputs) - 5000 == 0;
    assert PrepareTerminal(coin, 0, 0, invocation, outputs, [FUNDING], 5000, None).Ok?;
    tx := Build(GAME, STAGE, TABLE.escrow, move).value;
  }

  lemma {:induction false} NothingSpentTwice(tx: Tx)
    requires |tx.inputs| == 2 && tx.inputs[0].coin.outpoint == TABLE.escrow && tx.inputs[1].coin == FUNDING
    ensures NoDoubleSpend([JOIN_TX] + [tx]) && !Spent([JOIN_TX] + [tx], Outpoint(TxIdOf(tx), 0))
  {
    assert forall o :: !Spends(JOIN_TX, o);
    assert BodyOf(tx).spends[0] == TABLE.escrow && |BodyOf(JOIN_TX).spends| == 0;
    assert TxIdOf(tx) != TxIdOf(JOIN_TX);
    assert !Spends(tx, Outpoint(TxIdOf(tx), 0));
  }

  /** This joined game is ready for the creator's lead, so the run above is one that can happen. */
  lemma {:induction false} ExampleIsReady()
    ensures IsTable(TABLE) && ReadyToLead(TABLE, JOINED, Creator, Zero, "n1", WALLET)
  {
    var tx := LeadIsBuilt();
    NothingSpentTwice(tx);
    assert !Spends(JOIN_TX, TABLE.escrow);
    assert [JOIN_TX][0] == JOIN_TX && TxIdOf(JOIN_TX) == TABLE.escrow.txId;
    assert Visible([JOIN_TX], TABLE.escrow.txId, 2 * MIN_STAKE_SOMPI, Covenant(StateOf(GAME, STAGE)));
  }
}
