/** Whatever order and retries the two players use: one first choice, one settlement, one honest winner. */
module RevealSafety {
  import opened Outcomes
  import opened Economics
  import opened Transactions
  import opened EscrowLedger
  import opened EscrowRuns
  import opened RevealGame

  // --- What every attempt and preparation is -------------------------------

  /** The choice a player bound before the game began. */
  ghost predicate Bound(t: Table, player: Player, choice: Choice)
    requires t.stage.Ready?
  {
    CommitOf(t, player).Committed? && CommitOf(t, player).choice == choice
  }

  ghost predicate IsLeadTx(t: Table, tx: Tx, player: Player, choice: Choice)
    requires IsTable(t)
  {
    && Spends(tx, t.escrow)
    && tx.outputs != [] && tx.outputs[0].script == Covenant(StateOf(t.game, LedBy(t, player, choice)))
    && tx.outputs[0].value == Resolve(t.game.stake).value.pot
  }

  /** `lead` is a confirmed first reveal, and `tx` spends what it left behind on behalf of the other player. */
  ghost predicate Answers(t: Table, lead: Attempt, tx: Tx, player: Player, choice: Choice, winner: Player, payout: Key)
    requires IsTable(t)
  {
    && lead.confirmed && lead.IsLead() && player != lead.player
    && Spends(tx, Outpoint(lead.Id(), 0))
    && winner == Winner(t.game, LedBy(t, lead.player, lead.choice), player, choice)
    && payout == KeyOf(t.game, t.stage, winner)
    && PaysWinner(t.game, tx, payout, 0)
  }

  /** A transaction the service built for `player`: a lead, or a settlement of a lead in the record. */
  ghost predicate Honest(t: Table, attempts: seq<Attempt>, tx: Tx, player: Player, choice: Choice,
          winner: Option<Player>, payout: Key)
    requires IsTable(t)
  {
    && Bound(t, player, choice)
    && (winner.None? ==> IsLeadTx(t, tx, player, choice))
    && (winner.Some? ==> exists lead :: lead in attempts && Answers(t, lead, tx, player, choice, winner.value, payout))
  }

  ghost predicate OnChain(chain: seq<Tx>, id: TxId) {
    exists i :: 0 <= i < |chain| && TxIdOf(chain[i]) == id
  }

  ghost predicate HonestAttempt(t: Table, attempts: seq<Attempt>, a: Attempt)
    requires IsTable(t)
  {
    Honest(t, attempts, a.prepared, a.player, a.choice, a.winner, a.payout)
  }

  ghost predicate HonestPreparation(t: Table, attempts: seq<Attempt>, tx: Tx, p: Preparation)
    requires IsTable(t)
  {
    Honest(t, attempts, tx, p.player, p.choice, p.winner, p.payout)
  }

  function SettlementCount(attempts: seq<Attempt>): nat {
    if attempts == [] then 0
    else (if attempts[0].confirmed && !attempts[0].IsLead() then 1 else 0) + SettlementCount(attempts[1..])
  }

  function LeadCount(attempts: seq<Attempt>): nat {
    if attempts == [] then 0
    else (if attempts[0].confirmed && attempts[0].IsLead() then 1 else 0) + LeadCount(attempts[1..])
  }

  /** The creator wins: the two commitments bind equal choices in an even game, or different ones in an odd one. */
  ghost predicate CreatorWins(t: Table)
    requires t.stage.Ready?
  {
    && t.game.creatorCommit.Committed? && t.stage.joinerCommit.Committed?
    && (t.game.creatorCommit.choice == t.stage.joinerCommit.choice) == t.game.creatorEven
  }

  /** The winner by the two choices the commitments bound before the game began. */
  ghost predicate RightWinner(t: Table, winner: Option<Player>)
    requires t.stage.Ready?
  {
    && t.game.creatorCommit.Committed? && t.stage.joinerCommit.Committed?
    && winner == Some(if CreatorWins(t) then Creator else Joiner)
  }

  /** The key that has won. */
  ghost function WinningKey(t: Table): Key
    requires t.stage.Ready?
  {
    if CreatorWins(t) then t.game.creator else t.stage.joiner
  }

  ghost predicate Inv(t: Table, w: World)
    requires IsTable(t)
  {
    && NoDoubleSpend(w.chain)
    && (forall a :: a in w.record.attempts ==> HonestAttempt(t, w.record.attempts, a))
    && (forall a :: a in w.record.attempts && a.confirmed ==> OnChain(w.chain, a.Id()))
    && (forall tx :: tx in w.preparations ==> HonestPreparation(t, w.record.attempts, tx, w.preparations[tx]))
    && SettlementCount(w.record.attempts) == (if w.record.completed then 1 else 0)
    && (w.record.completed ==> w.record.status.Settled? && w.preparations == map[] && RightWinner(t, w.record.winner))
    && (w.record.status.Settled? ==> w.record.completed)
  }

  // --- Spending once -------------------------------------------------------

  lemma SameIdSpendsTheSame(a: Tx, b: Tx, o: Outpoint)
    requires TxIdOf(a) == TxIdOf(b) && Spends(a, o)
    ensures Spends(b, o) && a.outputs == b.outputs
  {
    var i :| 0 <= i < |a.inputs| && a.inputs[i].coin.outpoint == o;
    assert BodyOf(a).spends[i] == o;
    assert BodyOf(b).spends[i] == o;
  }

  /** Two transactions on the chain that spend one output are one transaction. */
  lemma SpentByOne(chain: seq<Tx>, a: Tx, b: Tx, o: Outpoint)
    requires NoDoubleSpend(chain) && OnChain(chain, TxIdOf(a)) && OnChain(chain, TxIdOf(b)) && Spends(a, o)
    requires Spends(b, o)
    ensures TxIdOf(a) == TxIdOf(b)
  {
    var i :| 0 <= i < |chain| && TxIdOf(chain[i]) == TxIdOf(a);
    var j :| 0 <= j < |chain| && TxIdOf(chain[j]) == TxIdOf(b);
    SameIdSpendsTheSame(a, chain[i], o);
    SameIdSpendsTheSame(b, chain[j], o);
  }

  lemma StateTellsTheLead(t: Table, p: Player, c: Choice, q: Player, d: Choice)
    requires IsTable(t) && StateOf(t.game, LedBy(t, p, c)) == StateOf(t.game, LedBy(t, q, d))
    ensures p == q && c == d
  {
  }

  /** However many times it is recorded, there is only one first reveal: one transaction, one player, one choice. */
  lemma {:induction false} OneFirstReveal(t: Table, w: World, a: Attempt, b: Attempt)
    requires IsTable(t) && Inv(t, w) && a in w.record.attempts && b in w.record.attempts
    requires a.confirmed && b.confirmed && a.IsLead() && b.IsLead()
    ensures a.Id() == b.Id() && a.player == b.player && a.choice == b.choice
  {
    assert HonestAttempt(t, w.record.attempts, a) && HonestAttempt(t, w.record.attempts, b);
    SpentByOne(w.chain, a.prepared, b.prepared, t.escrow);
    SameIdSpendsTheSame(a.prepared, b.prepared, t.escrow);
    StateTellsTheLead(t, a.player, a.choice, b.player, b.choice);
  }

  /** The winner a settlement names is the one the two commitments decide. */
  lemma {:induction false} SettlementIsFair(t: Table, w: World, a: Attempt)
    requires IsTable(t) && Inv(t, w) && a in w.record.attempts && !a.IsLead()
    ensures RightWinner(t, a.winner) && a.payout == WinningKey(t)
  {
    assert HonestAttempt(t, w.record.attempts, a);
    var lead :| lead in w.record.attempts && Answers(t, lead, a.prepared, a.player, a.choice, a.winner.value, a.payout);
    assert HonestAttempt(t, w.record.attempts, lead);
    if a.player.Creator? {
      CreatorWinsIff(a.choice, lead.choice, t.game.creatorEven);
    } else {
      CreatorWinsIff(lead.choice, a.choice, t.game.creatorEven);
    }
  }

  // --- Counting ------------------------------------------------------------

  lemma {:induction false} CountAppend(a: seq<Attempt>, b: seq<Attempt>)
    ensures SettlementCount(a + b) == SettlementCount(a) + SettlementCount(b)
    ensures LeadCount(a + b) == LeadCount(a) + LeadCount(b)
    ensures ConfirmedCount(a + b) == ConfirmedCount(a) + ConfirmedCount(b)
  {
    if a == [] {
      assert a + b == b;
    } else {
      assert (a + b)[1..] == a[1..] + b;
      CountAppend(a[1..], b);
    }
  }

  lemma {:induction false} CountSplit(attempts: seq<Attempt>)
    ensures ConfirmedCount(attempts) == LeadCount(attempts) + SettlementCount(attempts)
  {
    if attempts != [] { CountSplit(attempts[1..]); }
  }

  lemma {:induction false} CountedIsThere(attempts: seq<Attempt>) returns (a: Attempt)
    requires LeadCount(attempts) > 0
    ensures a in attempts && a.confirmed && a.IsLead()
  {
    if attempts[0].confirmed && attempts[0].IsLead() {
      a := attempts[0];
    } else {
      a := CountedIsThere(attempts[1..]);
    }
  }

  lemma {:induction false} ThereIsCounted(attempts: seq<Attempt>, a: Attempt)
    requires a in attempts && a.confirmed
    ensures a.IsLead() ==> LeadCount(attempts) > 0
    ensures !a.IsLead() ==> SettlementCount(attempts) > 0
  {
    if attempts[0] != a { ThereIsCounted(attempts[1..], a); }
  }

  function Extra(here: bool): nat {
    if here then 1 else 0
  }

  lemma KeptAtCounts(attempts: seq<Attempt>, k: nat, i: nat)
    requires k < |attempts| && i < |attempts| && !attempts[k].confirmed
    ensures LeadCount(KeptAt(attempts, k, i)) == LeadCount([attempts[i]]) + Extra(i == k && attempts[k].IsLead())
    ensures SettlementCount(KeptAt(attempts, k, i)) == SettlementCount([attempts[i]]) + Extra(i == k
        && !attempts[k].IsLead())
  {
    CountOne(attempts[i]);
    if i == k { CountOne(attempts[i].(confirmed := true)); }
  }

  lemma CountOne(a: Attempt)
    ensures LeadCount([a]) == Extra(a.confirmed && a.IsLead())
    ensures SettlementCount([a]) == Extra(a.confirmed && !a.IsLead())
  {
    assert [a][1..] == [];
  }

  /** Confirming an attempt adds it to its step's count and removes nothing confirmed. */
  lemma {:induction false} KeepAnsweredCounts(attempts: seq<Attempt>, k: nat, i: nat)
    requires k < |attempts| && i <= |attempts| && !attempts[k].confirmed
    ensures LeadCount(KeepAnswered(attempts, k, i)) == LeadCount(attempts[i..]) + Extra(i <= k && attempts[k].IsLead())
    ensures SettlementCount(KeepAnswered(attempts, k, i))
        == SettlementCount(attempts[i..]) + Extra(i <= k && !attempts[k].IsLead())
    decreases |attempts| - i
  {
    if i < |attempts| {
      KeepAnsweredCounts(attempts, k, i + 1);
      CountAppend(KeptAt(attempts, k, i), KeepAnswered(attempts, k, i + 1));
      KeptAtCounts(attempts, k, i);
      CountAppend([attempts[i]], attempts[i + 1..]);
      assert attempts[i..] == [attempts[i]] + attempts[i + 1..];
    }
  }

  /** Confirming the attempt keeps every confirmed one and every one of the other step, and nothing else. */
  lemma {:induction false} KeepAnsweredIff(attempts: seq<Attempt>, k: nat, i: nat, a: Attempt)
    requires k < |attempts| && i <= |attempts| && !attempts[k].confirmed
    ensures a in KeepAnswered(attempts, k, i) <==>
      || (i <= k && a == attempts[k].(confirmed := true))
      || (a in attempts[i..] && (a.confirmed || a.IsLead() != attempts[k].IsLead()))
    decreases |attempts| - i
  {
    if i < |attempts| {
      KeepAnsweredIff(attempts, k, i + 1, a);
      assert attempts[i..] == [attempts[i]] + attempts[i + 1..];
    }
  }

  lemma {:induction false} KeepAnsweredMembers(attempts: seq<Attempt>, k: nat, i: nat, a: Attempt)
    requires k < |attempts| && i <= |attempts| && !attempts[k].confirmed
    ensures a in KeepAnswered(attempts, k, i) ==> a in attempts || a == attempts[k].(confirmed := true)
    ensures a in KeepAnswered(attempts, k, i) && !a.confirmed ==> a.IsLead() != attempts[k].IsLead()
    ensures a in attempts[i..] && a.confirmed ==> a in KeepAnswered(attempts, k, i)
    ensures i <= k ==> attempts[k].(confirmed := true) in KeepAnswered(attempts, k, i)
  {
    KeepAnsweredIff(attempts, k, i, a);
    KeepAnsweredIff(attempts, k, i, attempts[k].(confirmed := true));
  }

  // --- The invariant is kept -----------------------------------------------

  /** Honesty survives any change of the record that loses no confirmed attempt. */
  lemma HonestyGrows(t: Table, before: seq<Attempt>, after: seq<Attempt>, tx: Tx, player: Player, choice: Choice,
          winner: Option<Player>, payout: Key)
    requires IsTable(t) && Honest(t, before, tx, player, choice, winner, payout)
    requires forall a :: a in before && a.confirmed ==> a in after
    ensures Honest(t, after, tx, player, choice, winner, payout)
  {
  }

  lemma {:induction false} MineKeeps(t: Table, w: World, tx: Tx)
    requires IsTable(t) && Inv(t, w) && NoDoubleSpend(w.chain + [tx])
    ensures Inv(t, w.(chain := w.chain + [tx]))
  {
    forall a | a in w.record.attempts && a.confirmed
      ensures OnChain(w.chain + [tx], a.Id())
    {
      var i :| 0 <= i < |w.chain| && TxIdOf(w.chain[i]) == a.Id();
      assert (w.chain + [tx])[i] == w.chain[i];
    }
  }

  lemma {:induction false} SubmitKeeps(t: Table, w: World, tx: Tx, accepted: bool, now: Millis)
    requires IsTable(t) && Inv(t, w)
    ensures Inv(t, Submit(w, tx, accepted, now))
  {
    if Recorded(w, tx, accepted) {
      var was := w.record.attempts;
      var a := AttemptOf(tx, w.preparations[tx], now);
      CountAppend(was, [a]);
      assert [a][1..] == [];
      assert HonestPreparation(t, was, tx, w.preparations[tx]);
      forall b | b in was + [a]
        ensures HonestAttempt(t, was + [a], b)
      {
        if b in was { assert HonestAttempt(t, was, b); }
        HonestyGrows(t, was, was + [a], b.prepared, b.player, b.choice, b.winner, b.payout);
      }
      forall tx' | tx' in w.preparations
        ensures HonestPreparation(t, was + [a], tx', w.preparations[tx'])
      {
        assert HonestPreparation(t, was, tx', w.preparations[tx']);
        var p := w.preparations[tx'];
        HonestyGrows(t, was, was + [a], tx', p.player, p.choice, p.winner, p.payout);
      }
    }
  }

  lemma {:induction false} AnsweredKeepsHonesty(t: Table, w: World, k: nat)
    requires IsTable(t) && Inv(t, w) && k < |w.record.attempts| && !w.record.attempts[k].confirmed
    ensures var now := KeepAnswered(w.record.attempts, k, 0);
      && (forall a :: a in now ==> HonestAttempt(t, now, a))
      && (forall tx :: tx in w.preparations ==> HonestPreparation(t, now, tx, w.preparations[tx]))
  {
    var was := w.record.attempts;
    var now := KeepAnswered(was, k, 0);
    forall a | a in was && a.confirmed ensures a in now { KeepAnsweredMembers(was, k, 0, a); assert was[0..] == was; }
    forall a | a in now
      ensures HonestAttempt(t, now, a)
    {
      KeepAnsweredMembers(was, k, 0, a);
      var before := if a in was then a else was[k];
      assert HonestAttempt(t, was, before);
      HonestyGrows(t, was, now, a.prepared, a.player, a.choice, a.winner, a.payout);
    }
    forall tx | tx in w.preparations
      ensures HonestPreparation(t, now, tx, w.preparations[tx])
    {
      assert HonestPreparation(t, was, tx, w.preparations[tx]);
      var p := w.preparations[tx];
      HonestyGrows(t, was, now, tx, p.player, p.choice, p.winner, p.payout);
    }
  }

  lemma {:induction false} AnsweredStaysOnChain(t: Table, w: World, k: nat, deep: set<TxId>)
    requires IsTable(t) && Inv(t, w) && k < |w.record.attempts| && !w.record.attempts[k].confirmed
    requires Confirmable(t, w.chain, w.record.attempts[k], deep)
    ensures forall a :: a in KeepAnswered(w.record.attempts, k, 0) && a.confirmed ==> OnChain(w.chain, a.Id())
  {
    forall a | a in KeepAnswered(w.record.attempts, k, 0) && a.confirmed
      ensures OnChain(w.chain, a.Id())
    {
      KeepAnsweredMembers(w.record.attempts, k, 0, a);
    }
  }

  /** A completed record never changes again by a refresh. */
  lemma {:induction false} CompletedIsFinal(t: Table, w: World, deep: set<TxId>)
    requires IsTable(t) && Inv(t, w) && w.record.completed
    ensures Refresh(t, w, deep) == w
  {
    var next := FirstAnswered(t, w.chain, w.record.attempts, deep, 0);
    if next.Some? {
      KeepAnsweredCounts(w.record.attempts, next.value, 0);
      assert w.record.attempts[0..] == w.record.attempts;
      var now := KeepAnswered(w.record.attempts, next.value, 0);
      if SettledBy(now).None? { NoneCounted(now); }
    }
  }

  /** An answer either confirms the lead, or confirms the settlement the two commitments decide. */
  lemma {:induction false} AnswerSettlesRightly(t: Table, w: World, k: nat)
    requires IsTable(t) && Inv(t, w) && !w.record.completed
    requires k < |w.record.attempts| && !w.record.attempts[k].confirmed
    ensures var saved := Answered(w.record, k);
      && SettlementCount(saved.attempts) == Extra(SettledBy(saved.attempts).Some?)
      && saved.completed == SettledBy(saved.attempts).Some?
      && (saved.completed ==> RightWinner(t, saved.winner))
  {
    var was := w.record.attempts;
    var now := KeepAnswered(was, k, 0);
    KeepAnsweredCounts(was, k, 0);
    assert was[0..] == was;
    var settled := SettledBy(now);
    if settled.Some? {
      ThereIsCounted(now, settled.value);
      KeepAnsweredMembers(was, k, 0, settled.value);
      if settled.value in was { ThereIsCounted(was, settled.value); }
      SettlementIsFair(t, w, was[k]);
    } else {
      NoneCounted(now);
    }
  }

  lemma {:induction false} RefreshKeeps(t: Table, w: World, deep: set<TxId>)
    requires IsTable(t) && Inv(t, w)
    ensures Inv(t, Refresh(t, w, deep))
  {
    var next := FirstAnswered(t, w.chain, w.record.attempts, deep, 0);
    if w.record.completed {
      CompletedIsFinal(t, w, deep);
    } else if next.Some? {
      AnsweredKeepsHonesty(t, w, next.value);
      AnsweredStaysOnChain(t, w, next.value, deep);
      AnswerSettlesRightly(t, w, next.value);
      var saved := Answered(w.record, next.value);
      assert saved.attempts == KeepAnswered(w.record.attempts, next.value, 0);
      assert Refresh(t, w, deep) == if saved.completed then w.(record := saved, preparations := map[], claim := None)
          else w.(record := saved);
    }
  }

  lemma {:induction false} NoneCounted(attempts: seq<Attempt>)
    requires forall a :: a in attempts ==> !a.confirmed || a.IsLead()
    ensures SettlementCount(attempts) == 0
  {
    if attempts != [] { NoneCounted(attempts[1..]); }
  }

  lemma {:induction false} FirstConfirmedIsALead(t: Table, w: World)
    requires IsTable(t) && Inv(t, w) && !w.record.status.Settled?
    ensures FirstConfirmed(w.record.attempts).Some? ==> FirstConfirmed(w.record.attempts).value.IsLead()
  {
    var first := FirstConfirmed(w.record.attempts);
    if first.Some? { ThereIsCounted(w.record.attempts, first.value); }
  }

  lemma NotRevealedBy(attempts: seq<Attempt>, player: Player, a: Attempt)
    requires !RevealedBy(attempts, player) && a in attempts && a.confirmed
    ensures a.player != player
  {
    var i :| 0 <= i < |attempts| && attempts[i] == a;
  }

  lemma {:induction false} SettlementPays(game: Game, stage: Stage, at: Outpoint, move: Move)
    requires Build(game, stage, at, move).Ok? && move.Settle?
    ensures stage.Led? && PaysWinner(game, Build(game, stage, at, move).value,
        KeyOf(game, stage, Winner(game, stage, move.player, move.choice)), 0)
  {
    EndingPaysAsPromised(game, stage, at, move);
    CreatorWinsIff(move.choice, stage.choice, game.creatorEven);
    CreatorWinsIff(stage.choice, move.choice, game.creatorEven);
  }

  /** What a successful preparation holds is a lead, or a settlement of the confirmed lead by the other player. */
  lemma {:induction false} BuiltIsHonest(t: Table, w: World, player: Player, choice: Choice, nonce: string,
          wallet: Wallet)
    requires IsTable(t) && Inv(t, w) && !w.record.status.Settled?
    requires CommitOf(t, player) == Committed(choice, nonce) && !RevealedBy(w.record.attempts, player)
    requires var first := FirstConfirmed(w.record.attempts); var p := Facing(t, first);
      Build(t.game, p.stage, p.at, MoveFor(first, player, choice, nonce, wallet)).Ok?
    ensures var first := FirstConfirmed(w.record.attempts); var p := Facing(t, first);
      Honest(t, w.record.attempts, Build(t.game, p.stage, p.at, MoveFor(first, player, choice, nonce, wallet)).value,
             player, choice, WinnerFor(t, first, player, choice), PayoutFor(t, first, player, choice))
  {
    var first := FirstConfirmed(w.record.attempts);
    var p := Facing(t, first);
    var move := MoveFor(first, player, choice, nonce, wallet);
    BuildIsExact(t.game, p.stage, p.at, move);
    var tx := Build(t.game, p.stage, p.at, move).value;
    assert Spends(tx, p.at) by { assert tx.inputs[0].coin.outpoint == p.at; }
    if first.Some? {
      FirstConfirmedIsALead(t, w);
      NotRevealedBy(w.record.attempts, player, first.value);
      SettlementPays(t.game, p.stage, p.at, move);
      assert Answers(t, first.value, tx, player, choice, WinnerFor(t, first, player, choice).value,
          PayoutFor(t, first, player, choice));
    }
  }

  lemma {:induction false} PrepareKeeps(t: Table, w: World, player: Player, choice: Choice, nonce: string,
          wallet: Wallet, now: Millis, deep: set<TxId>)
    requires IsTable(t) && Inv(t, w)
    ensures Inv(t, Prepare(t, w, player, choice, nonce, wallet, now, deep))
  {
    RefreshKeeps(t, w, deep);
    var ready := Refresh(t, w, deep);
    if PrepareRefreshed(t, ready, player, choice, nonce, wallet, now, deep).Ok? {
      BuiltIsHonest(t, ready, player, choice, nonce, wallet);
    }
  }

  lemma {:induction false} StepKeeps(t: Table, w: World, e: Event)
    requires IsTable(t) && Inv(t, w) && Possible(w, e)
    ensures Inv(t, React(t, w, e))
  {
    match e
    case OnPrepare(player, choice, nonce, wallet, now, deep) =>
        PrepareKeeps(t, w, player, choice, nonce, wallet, now, deep);
    case OnSubmit(tx, accepted, now) => SubmitKeeps(t, w, tx, accepted, now);
    case OnRefresh(deep) => RefreshKeeps(t, w, deep);
    case OnForget(tx) =>
    case OnMine(tx) => MineKeeps(t, w, tx);
  }

  lemma {:induction false} RunKeeps(t: Table, w: World, events: seq<Event>)
    requires IsTable(t) && Inv(t, w) && PossibleRun(t, w, events)
    ensures Inv(t, RunEvents(t, w, events))
    decreases |events|
  {
    if events != [] {
      StepKeeps(t, w, events[0]);
      RunKeeps(t, React(t, w, events[0]), events[1..]);
    }
  }

  /** Every run: all confirmed first reveals are one transaction by one player; at most one settlement is
      confirmed, by the other player; and once settled, the recorded winner is the one the two bound
      choices decide, and the key paid is the winner's. */
  lemma {:induction false} EveryRunIsFair(t: Table, w: World, events: seq<Event>)
    requires IsTable(t) && Start(w) && PossibleRun(t, w, events)
    ensures var record := RunEvents(t, w, events).record;
      && (forall a, b ::
            a in record.attempts && b in record.attempts && a.confirmed && b.confirmed && a.IsLead() && b.IsLead() ==>
            a.Id() == b.Id() && a.player == b.player && a.choice == b.choice)
      && SettlementCount(record.attempts) <= 1
      && (record.status.Settled? <==> SettlementCount(record.attempts) == 1)
      && (record.status.Settled? ==> RightWinner(t, record.winner))
      && (forall a, b ::
            a in record.attempts && b in record.attempts && a.confirmed && b.confirmed && a.IsLead() && !b.IsLead() ==>
            a.player != b.player && b.payout == WinningKey(t) && RightWinner(t, b.winner))
      && (forall a :: a in record.attempts ==> Opens(t, a))
  {
    RunKeeps(t, w, events);
    var end := RunEvents(t, w, events);
    forall a, b | a in end.record.attempts && b in end.record.attempts && a.confirmed && b.confirmed && a.IsLead()
        && b.IsLead()
      ensures a.Id() == b.Id() && a.player == b.player && a.choice == b.choice
    {
      OneFirstReveal(t, end, a, b);
    }
    forall a, b | a in end.record.attempts && b in end.record.attempts && a.confirmed && b.confirmed && a.IsLead()
        && !b.IsLead()
      ensures a.player != b.player && b.payout == WinningKey(t) && RightWinner(t, b.winner)
    {
      SettlementIsFair(t, end, b);
      OtherPlayerSettles(t, end, a, b);
    }
    forall a | a in end.record.attempts ensures Opens(t, a) { assert HonestAttempt(t, end.record.attempts, a); }
  }

  /** The attempt reveals the choice its player committed to before the game began. */
  ghost predicate Opens(t: Table, a: Attempt)
    requires t.stage.Ready?
  {
    if a.player.Creator? then t.game.creatorCommit.Committed? && t.game.creatorCommit.choice == a.choice
    else t.stage.joinerCommit.Committed? && t.stage.joinerCommit.choice == a.choice
  }

  lemma {:induction false} OtherPlayerSettles(t: Table, w: World, a: Attempt, b: Attempt)
    requires IsTable(t) && Inv(t, w) && a in w.record.attempts && b in w.record.attempts
    requires a.confirmed && a.IsLead() && !b.IsLead()
    ensures a.player != b.player
  {
    assert HonestAttempt(t, w.record.attempts, b);
    var lead :| lead in w.record.attempts && Answers(t, lead, b.prepared, b.player, b.choice, b.winner.value, b.payout);
    OneFirstReveal(t, w, a, lead);
  }

  // --- The record and the escrow -------------------------------------------

  lemma {:induction false} ConfirmedSettlement(attempts: seq<Attempt>) returns (a: Attempt)
    requires SettlementCount(attempts) > 0
    ensures a in attempts && a.confirmed && !a.IsLead()
  {
    if attempts[0].confirmed && !attempts[0].IsLead() {
      a := attempts[0];
    } else {
      a := ConfirmedSettlement(attempts[1..]);
    }
  }

  /** The step by which the chain spends `p` is the transaction on the chain that spends it. */
  lemma {:induction false} StepOfSpender(chain: seq<Tx>, game: Game, p: Position, tx: Tx) returns (s: Step)
    requires NoDoubleSpend(chain) && Follows(chain, game, p) && OnChain(chain, TxIdOf(tx)) && Spends(tx, p.at)
    ensures IsStep(chain, game, p, s) && TxIdOf(chain[s.index]) == TxIdOf(tx) && chain[s.index].outputs == tx.outputs
  {
    var i :| 0 <= i < |chain| && TxIdOf(chain[i]) == TxIdOf(tx);
    SameIdSpendsTheSame(tx, chain[i], p.at);
    s :| IsStep(chain, game, p, s);
  }

  lemma {:induction false} LeadContinues(t: Table, chain: seq<Tx>, s: Step, player: Player, choice: Choice)
    requires IsTable(t) && IsStep(chain, t.game, Position(t.stage, t.escrow), s)
    requires chain[s.index].outputs != []
    requires chain[s.index].outputs[0].script == Covenant(StateOf(t.game, LedBy(t, player, choice)))
    ensures Continues(s.move) && After(chain, Position(t.stage, t.escrow), s).stage.Led?
  {
    BuildIsExact(t.game, t.stage, t.escrow, s.move);
  }

  /** A settled record tells the truth about the escrow: if the chain moved it only by transactions the
      service builds, it has been paid out in full, by the confirmed settlement, to the recorded winner. */
  lemma {:induction false} SettledIsTheFate(t: Table, w: World)
    requires IsTable(t) && Inv(t, w) && w.record.status.Settled?
    requires Follows(w.chain, t.game, Position(t.stage, t.escrow))
    ensures var fate := FateOf(w.chain, t.game, Position(t.stage, t.escrow));
      && fate.PaidOut? && fate.locked == 2 * t.game.stake && RightWinner(t, w.record.winner)
      && PaysWinner(t.game, fate.tx, WinningKey(t), 0)
  {
    var a := ConfirmedSettlement(w.record.attempts);
    SettlementIsFair(t, w, a);
    assert HonestAttempt(t, w.record.attempts, a);
    var lead :| lead in w.record.attempts && Answers(t, lead, a.prepared, a.player, a.choice, a.winner.value, a.payout);
    FateOfTheAnswer(t, w, lead, a);
  }

  /** A confirmed settlement of a confirmed lead is what became of the escrow. */
  lemma {:induction false} FateOfTheAnswer(t: Table, w: World, lead: Attempt, a: Attempt)
    requires IsTable(t) && Inv(t, w) && Follows(w.chain, t.game, Position(t.stage, t.escrow))
    requires lead in w.record.attempts && a in w.record.attempts && a.confirmed && !a.IsLead()
    requires Answers(t, lead, a.prepared, a.player, a.choice, a.winner.value, a.payout)
    ensures var fate := FateOf(w.chain, t.game, Position(t.stage, t.escrow));
      fate.PaidOut? && fate.locked == 2 * t.game.stake && fate.tx.outputs == a.prepared.outputs
  {
    assert HonestAttempt(t, w.record.attempts, lead);
    var p := Position(t.stage, t.escrow);
    var s := StepOfSpender(w.chain, t.game, p, lead.prepared);
    LeadContinues(t, w.chain, s, lead.player, lead.choice);
    FateByAnyStep(w.chain, t.game, p, s);
    var q := After(w.chain, p, s);
    var end := StepOfSpender(w.chain, t.game, q, a.prepared);
    BuildIsExact(t.game, q.stage, q.at, end.move);
    FateByAnyStep(w.chain, t.game, q, end);
  }
}
