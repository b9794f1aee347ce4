/**
 Submitting a reveal twice.  A preparation that was already broadcast is appended to the record again,
 so a first reveal that is submitted again after it confirmed is confirmed a second time; from then on
 the timeout keeper skips the game for ever.  Runs that never do this record one first reveal.
 */
module RevealRetries {
  import opened Outcomes
  import opened Economics
  import opened Transactions
  import opened EscrowLedger
  import opened EscrowRuns
  import opened RevealGame
  import opened RevealSafety

  /** No submission names a first reveal that the record already holds as confirmed. */
  ghost predicate Careful(w: World, e: Event) {
    e.OnSubmit? ==> forall a :: a in w.record.attempts && a.confirmed && a.IsLead() ==> a.Id() != TxIdOf(e.tx)
  }

  ghost predicate CarefulRun(t: Table, w: World, events: seq<Event>)
    requires IsTable(t)
    decreases |events|
  {
    events == [] || (Careful(w, events[0]) && CarefulRun(t, React(t, w, events[0]), events[1..]))
  }

  ghost predicate Once(w: World) {
    && LeadCount(w.record.attempts) <= 1
    && forall a, b ::
        a in w.record.attempts && b in w.record.attempts && a.confirmed && a.IsLead() && !b.confirmed && b.IsLead() ==>
        a.Id() != b.Id()
  }

  lemma {:induction false} OnceSurvivesSubmit(w: World, tx: Tx, accepted: bool, now: Millis)
    requires Once(w) && Careful(w, OnSubmit(tx, accepted, now))
    ensures Once(Submit(w, tx, accepted, now))
  {
    if Recorded(w, tx, accepted) {
      CountAppend(w.record.attempts, [AttemptOf(tx, w.preparations[tx], now)]);
      CountOne(AttemptOf(tx, w.preparations[tx], now));
    }
  }

  /** A lead the chain answers is the confirmed lead, if there is one. */
  lemma {:induction false} AnsweredLeadIsTheLead(t: Table, w: World, c: Attempt, a: Attempt, deep: set<TxId>)
    requires IsTable(t) && Inv(t, w) && c in w.record.attempts && a in w.record.attempts
    requires c.confirmed && c.IsLead() && a.IsLead() && Confirmable(t, w.chain, a, deep)
    ensures a.Id() == c.Id()
  {
    assert HonestAttempt(t, w.record.attempts, a) && HonestAttempt(t, w.record.attempts, c);
    SpentByOne(w.chain, a.prepared, c.prepared, t.escrow);
  }

  lemma {:induction false} AnsweredLeadIsTheFirst(t: Table, w: World, k: nat, deep: set<TxId>)
    requires IsTable(t) && Inv(t, w) && Once(w) && k < |w.record.attempts|
    requires !w.record.attempts[k].confirmed && w.record.attempts[k].IsLead()
    requires Confirmable(t, w.chain, w.record.attempts[k], deep)
    ensures LeadCount(w.record.attempts) == 0
  {
    if LeadCount(w.record.attempts) > 0 {
      var c := CountedIsThere(w.record.attempts);
      AnsweredLeadIsTheLead(t, w, c, w.record.attempts[k], deep);
      assert false;
    }
  }

  lemma {:induction false} OnceAfterAnswer(w: World, k: nat)
    requires Once(w) && k < |w.record.attempts| && !w.record.attempts[k].confirmed
    requires w.record.attempts[k].IsLead() ==> LeadCount(w.record.attempts) == 0
    ensures Once(w.(record := Answered(w.record, k)))
  {
    var was := w.record.attempts;
    var now := KeepAnswered(was, k, 0);
    KeepAnsweredCounts(was, k, 0);
    assert was[0..] == was;
    forall a | a in now
      ensures a.IsLead() && !a.confirmed ==> a in was && !was[k].IsLead()
      ensures a.IsLead() && a.confirmed ==> a in was || was[k].IsLead()
    {
      KeepAnsweredMembers(was, k, 0, a);
    }
  }

  lemma {:induction false} OnceSurvivesRefresh(t: Table, w: World, deep: set<TxId>)
    requires IsTable(t) && Inv(t, w) && Once(w)
    ensures Once(Refresh(t, w, deep))
  {
    var next := FirstAnswered(t, w.chain, w.record.attempts, deep, 0);
    if next.Some? {
      if w.record.attempts[next.value].IsLead() { AnsweredLeadIsTheFirst(t, w, next.value, deep); }
      OnceAfterAnswer(w, next.value);
    }
  }

  /** Preparing changes the record only by the refresh it starts with. */
  lemma PrepareOnlyRefreshes(t: Table, w: World, player: Player, choice: Choice, nonce: string, wallet: Wallet,
          now: Millis, deep: set<TxId>)
    requires IsTable(t)
    ensures Prepare(t, w, player, choice, nonce, wallet, now, deep).record == Refresh(t, w, deep).record
  {
  }

  lemma {:induction false} OnceSurvives(t: Table, w: World, e: Event)
    requires IsTable(t) && Inv(t, w) && Once(w) && Careful(w, e)
    ensures Once(React(t, w, e))
  {
    match e
    case OnPrepare(player, choice, nonce, wallet, now, deep) =>
      OnceSurvivesRefresh(t, w, deep);
      PrepareOnlyRefreshes(t, w, player, choice, nonce, wallet, now, deep);
    case OnSubmit(tx, accepted, now) => OnceSurvivesSubmit(w, tx, accepted, now);
    case OnRefresh(deep) => OnceSurvivesRefresh(t, w, deep);
    case OnForget(tx) =>
    case OnMine(tx) =>
  }

  lemma {:induction false} CarefulRunKeeps(t: Table, w: World, events: seq<Event>)
    requires IsTable(t) && Inv(t, w) && Once(w) && PossibleRun(t, w, events) && CarefulRun(t, w, events)
    ensures Inv(t, RunEvents(t, w, events)) && Once(RunEvents(t, w, events))
    decreases |events|
  {
    if events != [] {
      StepKeeps(t, w, events[0]);
      OnceSurvives(t, w, events[0]);
      CarefulRunKeeps(t, React(t, w, events[0]), events[1..]);
    }
  }

  /** A careful run records at most one first reveal, and while the game is unsettled the timeout keeper
      can always act on it: refund both before the lead, pay the lead afterwards. */
  lemma {:induction false} CarefulRunsRecordOneLead(t: Table, w: World, events: seq<Event>, age: int)
    requires IsTable(t) && Start(w) && PossibleRun(t, w, events) && CarefulRun(t, w, events)
    ensures var record := RunEvents(t, w, events).record;
      && LeadCount(record.attempts) <= 1
      && (!record.status.Settled? && age >= NO_REVEAL_REFUND_DAA_OFFSET ==>
            TimeoutMove(record, true, age) == Some(if LeadCount(record.attempts) == 0 then RefundAll
                else FallbackClaim))
  {
    CarefulRunKeeps(t, w, events);
    CountSplit(RunEvents(t, w, events).record.attempts);
  }

  // --- The other runs ------------------------------------------------------

  /** A pending settlement cannot be answered while the lead's continuation is unspent. */
  lemma {:induction false} UnspentMeansUnsettled(t: Table, w: World, c: Attempt, a: Attempt, deep: set<TxId>)
    requires IsTable(t) && Inv(t, w) && c in w.record.attempts && a in w.record.attempts
    requires c.confirmed && c.IsLead() && !a.IsLead() && !Spent(w.chain, Outpoint(c.Id(), 0))
    ensures !Confirmable(t, w.chain, a, deep)
  {
    assert HonestAttempt(t, w.record.attempts, a);
    var lead :| lead in w.record.attempts && Answers(t, lead, a.prepared, a.player, a.choice, a.winner.value, a.payout);
    OneFirstReveal(t, w, c, lead);
    if Confirmable(t, w.chain, a, deep) {
      var i :| 0 <= i < |w.chain| && TxIdOf(w.chain[i]) == a.Id();
      SameIdSpendsTheSame(a.prepared, w.chain[i], Outpoint(c.Id(), 0));
      assert false;
    }
  }

  /** The confirmed lead's transaction, prepared or recorded again, is a lead again. */
  lemma {:induction false} SameIdSameLead(t: Table, attempts: seq<Attempt>, c: Attempt, a: Attempt)
    requires IsTable(t) && HonestAttempt(t, attempts, c) && HonestAttempt(t, attempts, a) && c.IsLead()
    requires a.Id() == c.Id()
    ensures a.IsLead() && a.player == c.player && a.choice == c.choice
  {
    assert a.prepared.outputs == c.prepared.outputs;
    if a.IsLead() { StateTellsTheLead(t, a.player, a.choice, c.player, c.choice); }
  }

  /** The confirmed lead is still visible for as long as nobody spends its continuation. */
  lemma {:induction false} LeadStaysVisible(t: Table, w: World, c: Attempt, deep: set<TxId>)
    requires IsTable(t) && Inv(t, w) && c in w.record.attempts && c.confirmed && c.IsLead()
    ensures Confirmable(t, w.chain, c, deep) <==> c.Id() in deep && !Spent(w.chain, Outpoint(c.Id(), 0))
  {
    assert HonestAttempt(t, w.record.attempts, c);
    var i :| 0 <= i < |w.chain| && TxIdOf(w.chain[i]) == c.Id();
    SameIdSpendsTheSame(c.prepared, w.chain[i], t.escrow);
  }

  /** Exactly when one more submission and refresh confirm the first reveal a second time: the submission
      goes through, it names the confirmed lead, and the chain still lists the lead's continuation. */
  lemma {:induction false} LeadDoublesIff(t: Table, w: World, c: Attempt, tx: Tx, accepted: bool, now: Millis,
          deep: set<TxId>)
    requires IsTable(t) && Inv(t, w) && Once(w) && !w.record.status.Settled?
    requires c in w.record.attempts && c.confirmed && c.IsLead()
    ensures LeadCount(Refresh(t, Submit(w, tx, accepted, now), deep).record.attempts) == 2
      <==> Recorded(w, tx, accepted) && TxIdOf(tx) == c.Id() && c.Id() in deep && !Spent(w.chain, Outpoint(c.Id(), 0))
  {
    var mid := Submit(w, tx, accepted, now);
    SubmitKeeps(t, w, tx, accepted, now);
    ThereIsCounted(w.record.attempts, c);
    if Recorded(w, tx, accepted) && TxIdOf(tx) == c.Id() {
      var a := AttemptOf(tx, w.preparations[tx], now);
      CountAppend(w.record.attempts, [a]);
      CountOne(a);
      assert HonestAttempt(t, mid.record.attempts, a) && HonestAttempt(t, mid.record.attempts, c);
      SameIdSameLead(t, mid.record.attempts, c, a);
      LeadStaysVisible(t, mid, c, deep);
      RefreshCountsLead(t, mid, c, a, deep);
    } else {
      forall b | b in w.record.attempts && b.confirmed && b.IsLead()
        ensures b.Id() == c.Id()
      {
        OneFirstReveal(t, w, b, c);
      }
      if Recorded(w, tx, accepted) { OnceSurvivesSubmit(w, tx, accepted, now); }
      OnceSurvivesRefresh(t, mid, deep);
    }
  }

  /** With the lead pending once more, a refresh confirms a lead exactly when the chain still lists it. */
  lemma {:induction false} RefreshCountsLead(t: Table, w: World, c: Attempt, a: Attempt, deep: set<TxId>)
    requires IsTable(t) && Inv(t, w) && !w.record.completed
    requires c in w.record.attempts && c.confirmed && c.IsLead()
    requires a in w.record.attempts && !a.confirmed && a.IsLead() && a.Id() == c.Id() && a.player == c.player
    requires a.choice == c.choice
    ensures LeadCount(Refresh(t, w, deep).record.attempts)
      == LeadCount(w.record.attempts) + Extra(Confirmable(t, w.chain, c, deep))
  {
    var was := w.record.attempts;
    var next := FirstAnswered(t, w.chain, was, deep, 0);
    assert Confirmable(t, w.chain, a, deep) <==> Confirmable(t, w.chain, c, deep);
    if next.Some? {
      var k := next.value;
      KeepAnsweredCounts(was, k, 0);
      assert was[0..] == was;
      if was[k].IsLead() {
        AnsweredLeadIsTheLead(t, w, c, was[k], deep);
        assert HonestAttempt(t, was, was[k]) && HonestAttempt(t, was, c);
        SameIdSameLead(t, was, c, was[k]);
      } else if Confirmable(t, w.chain, c, deep) {
        UnspentMeansUnsettled(t, w, c, was[k], deep);
        assert false;
      }
    } else {
      var k :| 0 <= k < |was| && was[k] == a;
    }
  }

  // --- The damage lasts ----------------------------------------------------

  lemma {:induction false} RefreshForgetsNoLead(t: Table, w: World, deep: set<TxId>)
    requires IsTable(t)
    ensures LeadCount(Refresh(t, w, deep).record.attempts) >= LeadCount(w.record.attempts)
  {
    var next := FirstAnswered(t, w.chain, w.record.attempts, deep, 0);
    if next.Some? {
      KeepAnsweredCounts(w.record.attempts, next.value, 0);
      assert w.record.attempts[0..] == w.record.attempts;
    }
  }

  lemma {:induction false} StepForgetsNoLead(t: Table, w: World, e: Event)
    requires IsTable(t)
    ensures LeadCount(React(t, w, e).record.attempts) >= LeadCount(w.record.attempts)
  {
    match e
    case OnPrepare(player, choice, nonce, wallet, now, deep) =>
      RefreshForgetsNoLead(t, w, deep);
      PrepareOnlyRefreshes(t, w, player, choice, nonce, wallet, now, deep);
    case OnSubmit(tx, accepted, now) =>
      if Recorded(w, tx, accepted) { CountAppend(w.record.attempts, [AttemptOf(tx, w.preparations[tx], now)]); }
    case OnRefresh(deep) => RefreshForgetsNoLead(t, w, deep);
    case OnForget(tx) =>
    case OnMine(tx) =>
  }

  /** Once two first reveals are recorded, the timeout keeper never acts on the game again. */
  lemma {:induction false} NeverTimesOutAgain(t: Table, w: World, events: seq<Event>, current: bool, age: int)
    requires IsTable(t) && LeadCount(w.record.attempts) > 1
    ensures TimeoutMove(RunEvents(t, w, events).record, current, age) == None
    decreases |events|
  {
    if events == [] {
      CountSplit(w.record.attempts);
    } else {
      StepForgetsNoLead(t, w, events[0]);
      NeverTimesOutAgain(t, React(t, w, events[0]), events[1..], current, age);
    }
  }

  // --- Such a run exists ---------------------------------------------------

  lemma RunCons(t: Table, w: World, e: Event, rest: seq<Event>)
    requires IsTable(t)
    ensures RunEvents(t, w, [e] + rest) == RunEvents(t, React(t, w, e), rest)
    ensures PossibleRun(t, w, [e] + rest) <==> Possible(w, e) && PossibleRun(t, React(t, w, e), rest)
  {
    assert ([e] + rest)[1..] == rest;
  }

  /** From any state in which a lead is confirmed and its preparation is still held, submitting it again
      and refreshing is a possible run that records two first reveals and ends the timeout for good. */
  lemma {:induction false} RetryLosesTheTimeout(t: Table, w: World, c: Attempt, now: Millis, later: seq<Event>,
          age: int)
    requires IsTable(t) && Inv(t, w) && Once(w) && !w.record.status.Settled?
    requires c in w.record.attempts && c.confirmed && c.IsLead() && !Spent(w.chain, Outpoint(c.Id(), 0))
    requires c.prepared in w.preparations && c.prepared in w.sent
    ensures var events := [OnSubmit(c.prepared, false, now)] + [OnRefresh({c.Id()})];
      && PossibleRun(t, w, events)
      && LeadCount(RunEvents(t, w, events).record.attempts) == 2
      && TimeoutMove(RunEvents(t, RunEvents(t, w, events), later).record, true, age) == None
  {
    var submit, refresh := OnSubmit(c.prepared, false, now), OnRefresh({c.Id()});
    RunCons(t, w, submit, [refresh]);
    RunCons(t, React(t, w, submit), refresh, []);
    assert [refresh] + [] == [refresh];
    LeadDoublesIff(t, w, c, c.prepared, false, now, {c.Id()});
    NeverTimesOutAgain(t, RunEvents(t, w, [submit] + [refresh]), later, true, age);
  }

  function LeadMove(player: Player, choice: Choice, nonce: string, wallet: Wallet): Move {
    Lead(player, choice, nonce, wallet.funding, wallet.fee, wallet.change)
  }

  /** A fresh game whose escrow is visible, and a lead the chain will take. */
  ghost predicate ReadyToLead(t: Table, w: World, player: Player, choice: Choice, nonce: string, wallet: Wallet)
    requires IsTable(t)
  {
    && Start(w) && CommitOf(t, player) == Committed(choice, nonce)
    && Visible(w.chain, t.escrow.txId, Resolve(t.game.stake).value.pot, Covenant(StateOf(t.game, t.stage)))
    && var lead := Build(t.game, t.stage, t.escrow, LeadMove(player, choice, nonce, wallet));
       lead.Ok? && NoDoubleSpend(w.chain + [lead.value])
           && !Spent(w.chain + [lead.value], Outpoint(TxIdOf(lead.value), 0))
  }

  lemma {:induction false} LeadIsPrepared(t: Table, w: World, player: Player, choice: Choice, nonce: string,
          wallet: Wallet, now: Millis)
    requires IsTable(t) && ReadyToLead(t, w, player, choice, nonce, wallet)
    ensures var tx := Build(t.game, t.stage, t.escrow, LeadMove(player, choice, nonce, wallet)).value;
      React(t, w, OnPrepare(player, choice, nonce, wallet, now, {t.escrow.txId}))
      == w.(preparations := map[tx := Preparation(player, choice, None, KeyOf(t.game, t.stage, player))],
            claim := Some(Claim(player, now + REVEAL_CLAIM_TTL_MS)))
  {
    assert Refresh(t, w, {t.escrow.txId}) == w;
  }

  lemma {:induction false} LeadIsAnswered(t: Table, w: World, a: Attempt)
    requires IsTable(t) && w.record.attempts == [a] && !a.confirmed && a.IsLead()
    requires Confirmable(t, w.chain, a, {a.Id()}) && !w.record.completed
    ensures Refresh(t, w, {a.Id()}) == w.(record := w.record.(attempts := [a.(confirmed := true)],
        status := FirstRevealed))
    ensures ConfirmedCount([a.(confirmed := true)]) == 1
  {
    assert KeepAnswered([a], 0, 0) == [a.(confirmed := true)];
    CountOne(a.(confirmed := true));
    CountSplit([a.(confirmed := true)]);
  }

  lemma {:induction false} LeadIsMined(t: Table, w: World, tx: Tx, p: Preparation, now: Millis)
    requires IsTable(t) && w.preparations == map[tx := p] && w.record == Record(JoinBroadcast, [], None, false)
    requires p.winner.None?
    ensures React(t, React(t, w, OnSubmit(tx, true, now)), OnMine(tx))
      == World(w.chain + [tx], Record(RevealBroadcast, [AttemptOf(tx, p, now)], None, false), w.preparations,
          w.sent + {tx}, Released(w, p.player))
  {
    assert Recorded(w, tx, true);
    assert [] + [AttemptOf(tx, p, now)] == [AttemptOf(tx, p, now)];
  }

  lemma {:induction false} MinedLeadIsVisible(t: Table, chain: seq<Tx>, player: Player, choice: Choice, nonce: string,
          wallet: Wallet, a: Attempt)
    requires IsTable(t)
    requires var lead := Build(t.game, t.stage, t.escrow, LeadMove(player, choice, nonce, wallet));
      lead.Ok? && a.prepared == lead.value && a.player == player && a.choice == choice && a.IsLead()
    requires !Spent(chain + [a.prepared], Outpoint(a.Id(), 0))
    ensures Confirmable(t, chain + [a.prepared], a, {a.Id()})
  {
    BuildIsExact(t.game, t.stage, t.escrow, LeadMove(player, choice, nonce, wallet));
    assert (chain + [a.prepared])[|chain|] == a.prepared;
  }

  /** A first reveal that is prepared, sent, mined and refreshed reaches such a state. */
  lemma {:induction false} LeadGetsThere(t: Table, w: World, player: Player, choice: Choice, nonce: string,
          wallet: Wallet, now: Millis)
    requires IsTable(t) && ReadyToLead(t, w, player, choice, nonce, wallet)
    ensures var tx := Build(t.game, t.stage, t.escrow, LeadMove(player, choice, nonce, wallet)).value;
      var w1 := React(t, w, OnPrepare(player, choice, nonce, wallet, now, {t.escrow.txId}));
      var w4 := React(t, React(t, React(t, w1, OnSubmit(tx, true, now)), OnMine(tx)), OnRefresh({TxIdOf(tx)}));
      && tx in w1.preparations
      && var c := AttemptOf(tx, w1.preparations[tx], now).(confirmed := true);
      && w4.record == Record(FirstRevealed, [c], None, false) && c.Id() == TxIdOf(tx) && c.IsLead()
      && tx in w4.preparations && tx in w4.sent && !Spent(w4.chain, Outpoint(c.Id(), 0))
      && TimeoutMove(w4.record, true, FALLBACK_CLAIM_DAA_OFFSET) == Some(FallbackClaim)
  {
    var tx := Build(t.game, t.stage, t.escrow, LeadMove(player, choice, nonce, wallet)).value;
    LeadIsPrepared(t, w, player, choice, nonce, wallet, now);
    var w1 := React(t, w, OnPrepare(player, choice, nonce, wallet, now, {t.escrow.txId}));
    var p := w1.preparations[tx];
    LeadIsMined(t, w1, tx, p, now);
    MinedLeadIsVisible(t, w.chain, player, choice, nonce, wallet, AttemptOf(tx, p, now));
    LeadIsAnswered(t, React(t, React(t, w1, OnSubmit(tx, true, now)), OnMine(tx)), AttemptOf(tx, p, now));
  }
}
