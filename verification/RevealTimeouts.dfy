/**
 The timeout keeper beside the reveals: it broadcasts one settlement of its own when a step is overdue, and
 confirms it once the chain shows its payouts.  A game ends by a reveal or by the keeper, never by both.
 */
module RevealTimeouts {
  import opened Outcomes
  import opened Economics
  import opened Transactions
  import opened EscrowLedger
  import opened EscrowRuns
  import opened RevealGame
  import opened RevealSafety
  import opened RevealAnswers

  /** The keeper's settlement in the record. */
  datatype Automatic = Automatic(tx: Tx, move: Move, confirmed: bool)

  /** The game record with the keeper's part. */
  datatype Book = Book(world: World, automatic: Option<Automatic>)

  datatype Event =
    | OnReveal(event: RevealGame.Event)
    | OnKeeper(age: int, accepted: bool, deep: set<TxId>)

  /** The node lists every payout of the settlement. */
  predicate PaidOut(chain: seq<Tx>, tx: Tx, deep: set<TxId>) {
    && TxIdOf(tx) in deep
    && (exists i :: 0 <= i < |chain| && TxIdOf(chain[i]) == TxIdOf(tx))
    && forall j :: 0 <= j < |tx.outputs| ==> !Spent(chain, Outpoint(TxIdOf(tx), j))
  }

  /** Confirming a settlement completes the game, which forgets its preparations and its lead claim. */
  function Confirmed(b: Book): Book
    requires b.automatic.Some?
  {
    Book(b.world.(preparations := map[], claim := None), Some(b.automatic.value.(confirmed := true)))
  }

  /** What the keeper would broadcast for a record that is up to date. */
  function Overdue(t: Table, w: World, age: int, deep: set<TxId>): Option<Automatic>
    requires IsTable(t)
  {
    var p := Facing(t, FirstConfirmed(w.record.attempts));
    var current := p.at.txId in deep && Visible(w.chain, p.at.txId, Resolve(t.game.stake).value.pot,
        Covenant(StateOf(t.game, p.stage)));
    match TimeoutMove(w.record, current, age)
    case None => None
    case Some(move) =>
      match Build(t.game, p.stage, p.at, move)
      case Err(_) => None
      case Ok(tx) => Some(Automatic(tx, move, false))
  }

  /** One look of the keeper at the game: refresh, then confirm what was broadcast, or broadcast what is overdue. */
  function Keep(t: Table, b: Book, age: int, accepted: bool, deep: set<TxId>): Book
    requires IsTable(t)
  {
    var w := Refresh(t, b.world, deep);
    if b.automatic.Some? then
      if !b.automatic.value.confirmed && PaidOut(w.chain, b.automatic.value.tx, deep) then Confirmed(b.(world := w))
          else b.(world := w)
    else
      var overdue := Overdue(t, w, age, deep);
      Book(w, if accepted then overdue else None)
  }

  function Step(t: Table, b: Book, e: Event): Book
    requires IsTable(t)
  {
    match e
    case OnReveal(event) => b.(world := React(t, b.world, event))
    case OnKeeper(age, accepted, deep) => Keep(t, b, age, accepted, deep)
  }

  function Run(t: Table, b: Book, events: seq<Event>): Book
    requires IsTable(t)
    decreases |events|
  {
    if events == [] then b else Run(t, Step(t, b, events[0]), events[1..])
  }

  ghost predicate PossibleBook(t: Table, b: Book, events: seq<Event>)
    requires IsTable(t)
    decreases |events|
  {
    events == []
    || ((events[0].OnReveal? ==> Possible(b.world, events[0].event))
        && PossibleBook(t, Step(t, b, events[0]), events[1..]))
  }

  // --- What the two kinds of transactions look like ------------------------

  /** Every reveal is funded by its player, so it has a second input. */
  ghost predicate Funded(w: World) {
    && (forall a :: a in w.record.attempts ==> |a.prepared.inputs| > 1)
    && (forall tx :: tx in w.preparations ==> |tx.inputs| > 1)
  }

  /** Both players get their stakes back, less half the network fee each. */
  ghost predicate RefundsBoth(t: Table, tx: Tx)
    requires IsTable(t)
  {
    |tx.outputs| == 2
    && Pays(tx, 0, t.game.creator, t.game.stake - 800_000) && Pays(tx, 1, t.stage.joiner, t.game.stake - 800_000)
  }

  /** The player who did reveal gets the pot, less the game fee and the network fee. */
  ghost predicate PaysRevealer(t: Table, tx: Tx, lead: Attempt)
    requires IsTable(t)
  {
    PaysWinner(t.game, tx, if lead.player.Creator? then t.game.creator else t.stage.joiner, 1_600_000)
  }

  /** The keeper spends one covenant coin and nothing else: the joined escrow, to refund both, or what a confirmed
      lead left, to pay its player. */
  ghost predicate Covers(t: Table, attempts: seq<Attempt>, tx: Tx)
    requires IsTable(t)
  {
    && |tx.inputs| == 1
    && ((Spends(tx, t.escrow) && RefundsBoth(t, tx))
        || exists lead :: lead in attempts && lead.confirmed && lead.IsLead() && Spends(tx, Outpoint(lead.Id(), 0))
                          && PaysRevealer(t, tx, lead))
  }

  ghost predicate Sound(t: Table, b: Book)
    requires IsTable(t)
  {
    && Inv(t, b.world) && Funded(b.world)
    && (b.automatic.Some? ==> Covers(t, b.world.record.attempts, b.automatic.value.tx))
    && (b.automatic.Some? && b.automatic.value.confirmed ==> OnChain(b.world.chain, TxIdOf(b.automatic.value.tx)))
  }

  lemma SameIdSameInputs(a: Tx, b: Tx)
    requires TxIdOf(a) == TxIdOf(b)
    ensures |a.inputs| == |b.inputs|
  {
    assert |BodyOf(a).spends| == |a.inputs| && |BodyOf(b).spends| == |b.inputs|;
  }

  /** A transaction of a player and one of the keeper are never one, so the chain never holds both on one coin. */
  lemma {:induction false} NeverBoth(chain: seq<Tx>, a: Tx, b: Tx, o: Outpoint)
    requires NoDoubleSpend(chain) && OnChain(chain, TxIdOf(a)) && OnChain(chain, TxIdOf(b))
    requires Spends(a, o) && |a.inputs| > 1 && |b.inputs| == 1
    ensures !Spends(b, o)
  {
    if Spends(b, o) {
      SpentByOne(chain, a, b, o);
      SameIdSameInputs(a, b);
      assert false;
    }
  }

  // --- The invariant -------------------------------------------------------

  lemma {:induction false} RefreshKeepsConfirmed(t: Table, w: World, deep: set<TxId>, a: Attempt)
    requires IsTable(t) && a in w.record.attempts && a.confirmed
    ensures a in Refresh(t, w, deep).record.attempts
  {
    var next := FirstAnswered(t, w.chain, w.record.attempts, deep, 0);
    if next.Some? {
      assert w.record.attempts[0..] == w.record.attempts;
      KeepAnsweredMembers(w.record.attempts, next.value, 0, a);
    }
  }

  lemma {:induction false} RefreshKeepsFunded(t: Table, w: World, deep: set<TxId>)
    requires IsTable(t) && Funded(w)
    ensures Funded(Refresh(t, w, deep)) && Refresh(t, w, deep).chain == w.chain
  {
    var next := FirstAnswered(t, w.chain, w.record.attempts, deep, 0);
    if next.Some? {
      forall a | a in KeepAnswered(w.record.attempts, next.value, 0) ensures |a.prepared.inputs| > 1 {
        KeepAnsweredMembers(w.record.attempts, next.value, 0, a);
      }
    }
  }

  lemma {:induction false} RevealBuildIsFunded(t: Table, p: Position, first: Option<Attempt>, player: Player,
          choice: Choice, nonce: string, wallet: Wallet)
    requires IsTable(t) && Build(t.game, p.stage, p.at, MoveFor(first, player, choice, nonce, wallet)).Ok?
    ensures |Build(t.game, p.stage, p.at, MoveFor(first, player, choice, nonce, wallet)).value.inputs| > 1
  {
  }

  lemma {:induction false} RevealKeepsFunded(t: Table, w: World, e: RevealGame.Event)
    requires IsTable(t) && Funded(w)
    ensures Funded(React(t, w, e))
  {
    match e
    case OnPrepare(player, choice, nonce, wallet, now, deep) =>
      RefreshKeepsFunded(t, w, deep);
      var r := Refresh(t, w, deep);
      if PrepareRefreshed(t, r, player, choice, nonce, wallet, now, deep).Ok? {
        var first := FirstConfirmed(r.record.attempts);
        RevealBuildIsFunded(t, Facing(t, first), first, player, choice, nonce, wallet);
      }
    case OnSubmit(_, _, _) =>
    case OnRefresh(deep) => RefreshKeepsFunded(t, w, deep);
    case OnForget(_) =>
    case OnMine(_) =>
  }

  lemma {:induction false} RevealKeepsConfirmed(t: Table, w: World, e: RevealGame.Event, a: Attempt)
    requires IsTable(t) && a in w.record.attempts && a.confirmed
    ensures a in React(t, w, e).record.attempts
  {
    match e
    case OnPrepare(_, _, _, _, _, deep) => RefreshKeepsConfirmed(t, w, deep, a);
    case OnRefresh(deep) => RefreshKeepsConfirmed(t, w, deep, a);
    case _ =>
  }

  lemma {:induction false} ChainGrows(t: Table, w: World, e: RevealGame.Event, id: TxId)
    requires IsTable(t) && OnChain(w.chain, id)
    ensures OnChain(React(t, w, e).chain, id)
  {
    var i :| 0 <= i < |w.chain| && TxIdOf(w.chain[i]) == id;
    assert w.chain <= React(t, w, e).chain;
    assert React(t, w, e).chain[i] == w.chain[i];
  }

  lemma {:induction false} CoversGrows(t: Table, before: seq<Attempt>, after: seq<Attempt>, tx: Tx)
    requires IsTable(t) && Covers(t, before, tx) && forall a :: a in before && a.confirmed ==> a in after
    ensures Covers(t, after, tx)
  {
  }

  lemma {:induction false} RevealKeepsSound(t: Table, b: Book, e: RevealGame.Event)
    requires IsTable(t) && Sound(t, b) && Possible(b.world, e)
    ensures Sound(t, Step(t, b, OnReveal(e)))
  {
    var next := React(t, b.world, e);
    StepKeeps(t, b.world, e);
    RevealKeepsFunded(t, b.world, e);
    if b.automatic.Some? {
      forall a | a in b.world.record.attempts && a.confirmed
        ensures a in next.record.attempts
      {
        RevealKeepsConfirmed(t, b.world, e, a);
      }
      CoversGrows(t, b.world.record.attempts, next.record.attempts, b.automatic.value.tx);
      if b.automatic.value.confirmed { ChainGrows(t, b.world, e, TxIdOf(b.automatic.value.tx)); }
    }
  }

  /** What the keeper builds covers the joined escrow, or what the confirmed lead left. */
  lemma {:induction false} OverdueCovers(t: Table, w: World, age: int, deep: set<TxId>)
    requires IsTable(t) && Inv(t, w) && Overdue(t, w, age, deep).Some?
    ensures Covers(t, w.record.attempts, Overdue(t, w, age, deep).value.tx) && !Overdue(t, w, age, deep).value.confirmed
  {
    var first := FirstConfirmed(w.record.attempts);
    var p := Facing(t, first);
    var keeper := Overdue(t, w, age, deep).value;
    BuildIsExact(t.game, p.stage, p.at, keeper.move);
    EndingPaysAsPromised(t.game, p.stage, p.at, keeper.move);
    FirstConfirmedIsALead(t, w);
    assert keeper.tx.inputs[0].coin.outpoint == p.at;
  }

  lemma {:induction false} KeeperKeepsSound(t: Table, b: Book, age: int, accepted: bool, deep: set<TxId>)
    requires IsTable(t) && Sound(t, b)
    ensures Sound(t, Keep(t, b, age, accepted, deep))
  {
    RevealKeepsSound(t, b, OnRefresh(deep));
    var w := Refresh(t, b.world, deep);
    if b.automatic.None? && Overdue(t, w, age, deep).Some? { OverdueCovers(t, w, age, deep); }
  }

  lemma {:induction false} RunIsSound(t: Table, b: Book, events: seq<Event>)
    requires IsTable(t) && Sound(t, b) && PossibleBook(t, b, events)
    ensures Sound(t, Run(t, b, events))
    decreases |events|
  {
    if events != [] {
      match events[0] {
        case OnReveal(e) => RevealKeepsSound(t, b, e);
        case OnKeeper(age, accepted, deep) => KeeperKeepsSound(t, b, age, accepted, deep);
      }
      RunIsSound(t, Step(t, b, events[0]), events[1..]);
    }
  }

  // --- One ending ----------------------------------------------------------

  /** The keeper's settlement is confirmed. */
  predicate EndedByKeeper(b: Book) {
    b.automatic.Some? && b.automatic.value.confirmed
  }

  lemma {:induction false} SoundEndsOnce(t: Table, b: Book, a: Attempt)
    requires IsTable(t) && Sound(t, b) && EndedByKeeper(b) && a in b.world.record.attempts && a.confirmed
    ensures a.IsLead() && !Spends(b.automatic.value.tx, t.escrow)
  {
    var w, tx := b.world, b.automatic.value.tx;
    assert HonestAttempt(t, w.record.attempts, a);
    if a.IsLead() {
      NeverBoth(w.chain, a.prepared, tx, t.escrow);
    } else {
      var lead :| lead in w.record.attempts && Answers(t, lead, a.prepared, a.player, a.choice, a.winner.value,
          a.payout);
      assert HonestAttempt(t, w.record.attempts, lead);
      NeverBoth(w.chain, lead.prepared, tx, t.escrow);
      var left :| left in w.record.attempts && left.confirmed && left.IsLead() && Spends(tx, Outpoint(left.Id(), 0));
      OneFirstReveal(t, w, left, lead);
      NeverBoth(w.chain, a.prepared, tx, Outpoint(lead.Id(), 0));
      assert false;
    }
  }

  /** In every run a game that the keeper's settlement ended is not settled by a reveal, and a refund to both
      players ends only a game in which nobody's reveal was confirmed. */
  lemma {:induction false} OneEnding(t: Table, w: World, events: seq<Event>)
    requires IsTable(t) && Start(w) && PossibleBook(t, Book(w, None), events)
    ensures var end := Run(t, Book(w, None), events);
      EndedByKeeper(end) ==>
      && !end.world.record.status.Settled? && !end.world.record.completed
          && SettlementCount(end.world.record.attempts) == 0
      && (Spends(end.automatic.value.tx, t.escrow) ==> LeadCount(end.world.record.attempts) == 0)
  {
    var b := Book(w, None);
    assert Sound(t, b);
    RunIsSound(t, b, events);
    var end := Run(t, b, events);
    if EndedByKeeper(end) {
      var attempts := end.world.record.attempts;
      forall a | a in attempts ensures a.confirmed ==> a.IsLead() && !Spends(end.automatic.value.tx, t.escrow) {
        if a.confirmed { SoundEndsOnce(t, end, a); }
      }
      NoneCounted(attempts);
      if Spends(end.automatic.value.tx, t.escrow) && LeadCount(attempts) > 0 {
        var a := CountedIsThere(attempts);
        assert false;
      }
    }
  }

  /** A game that the keeper's settlement ended pays the player who revealed, if one did, and refunds both players
      otherwise. */
  lemma {:induction false} KeeperPaysTheRevealer(t: Table, w: World, events: seq<Event>)
    requires IsTable(t) && Start(w) && PossibleBook(t, Book(w, None), events)
    ensures var end := Run(t, Book(w, None), events);
      var attempts := end.world.record.attempts;
      EndedByKeeper(end) ==>
      && (forall a :: a in attempts && a.confirmed ==> PaysRevealer(t, end.automatic.value.tx, a))
      && ((forall a :: a in attempts ==> !a.confirmed) ==> RefundsBoth(t, end.automatic.value.tx))
  {
    var b := Book(w, None);
    assert Sound(t, b);
    RunIsSound(t, b, events);
    var end := Run(t, b, events);
    if EndedByKeeper(end) {
      forall a | a in end.world.record.attempts && a.confirmed ensures PaysRevealer(t, end.automatic.value.tx, a) {
        SoundPaysTheRevealer(t, end, a);
      }
    }
  }

  lemma {:induction false} SoundPaysTheRevealer(t: Table, b: Book, a: Attempt)
    requires IsTable(t) && Sound(t, b) && EndedByKeeper(b) && a in b.world.record.attempts && a.confirmed
    ensures PaysRevealer(t, b.automatic.value.tx, a)
  {
    SoundEndsOnce(t, b, a);
    var tx := b.automatic.value.tx;
    var lead :| lead in b.world.record.attempts && lead.confirmed && lead.IsLead() && Spends(tx, Outpoint(lead.Id(), 0))
                && PaysRevealer(t, tx, lead);
    OneFirstReveal(t, b.world, a, lead);
  }

  // --- One look of the keeper ----------------------------------------------

  /** What the keeper may act on: a record that is not settled, whose coin has been there for 3000 scores. */
  ghost predicate IsOverdue(t: Table, w: World, lead: Option<Attempt>, age: int, deep: set<TxId>)
    requires IsTable(t)
  {
    && !w.record.status.Settled? && ConfirmedCount(w.record.attempts) <= 1
    && CoinReady(t, w, lead, deep) && age >= 3_000
  }

  /** The keeper broadcasts a settlement exactly when one is overdue, and then refunds both players if nobody has
      revealed, and pays the one who has. */
  lemma {:induction false} KeeperActsIff(t: Table, b: Book, lead: Option<Attempt>, age: int, accepted: bool,
          deep: set<TxId>)
    requires IsTable(t) && Sound(t, b) && b.automatic.None?
    requires var w := Refresh(t, b.world, deep); !w.record.status.Settled? ==> Faces(t, w, lead)
    ensures var w, next := Refresh(t, b.world, deep), Keep(t, b, age, accepted, deep);
      && next.world == w
      && (next.automatic.Some? <==> accepted && IsOverdue(t, w, lead, age, deep))
      && (next.automatic.Some? ==> !next.automatic.value.confirmed && SettlesFor(t, next.automatic.value.tx, lead))
  {
    RefreshKeeps(t, b.world, deep);
    var w := Refresh(t, b.world, deep);
    if !w.record.status.Settled? {
      FacesTheFirst(t, w, lead);
      OverdueIff(t, w, age, deep);
      assert CoinReady(t, w, lead, deep) <==> CoinReady(t, w, FirstConfirmed(w.record.attempts), deep);
    }
  }

  lemma {:induction false} NoneConfirmedIff(attempts: seq<Attempt>)
    ensures ConfirmedCount(attempts) == 0 <==> FirstConfirmed(attempts).None?
  {
    if attempts != [] { NoneConfirmedIff(attempts[1..]); }
  }

  /** The keeper's own transactions can always be built. */
  lemma {:induction false} KeeperCanBuild(t: Table, p: Position, move: Move)
    requires IsTable(t) && ((move.RefundAll? && p.stage == t.stage) || (move.FallbackClaim? && p.stage.Led?))
    ensures Build(t.game, p.stage, p.at, move).Ok? && |Build(t.game, p.stage, p.at, move).value.inputs| == 1
  {
    var terms := Resolve(t.game.stake).value;
    TwoOutputs(EscrowOutputs(t.game, p.stage, move, terms));
  }

  lemma {:induction false} OverdueIff(t: Table, w: World, age: int, deep: set<TxId>)
    requires IsTable(t) && Inv(t, w) && !w.record.status.Settled?
    ensures var first, r := FirstConfirmed(w.record.attempts), Overdue(t, w, age, deep);
      && (r.Some? <==> IsOverdue(t, w, first, age, deep))
      && (r.Some? ==> !r.value.confirmed && SettlesFor(t, r.value.tx, first))
  {
    var first := FirstConfirmed(w.record.attempts);
    var p := Facing(t, first);
    NoneConfirmedIff(w.record.attempts);
    CoinReadyIff(t, w, first, deep);
    KeeperSettlesFor(t, p, first);
  }

  /** A settlement of the keeper's for what the record shows. */
  ghost predicate SettlesFor(t: Table, tx: Tx, first: Option<Attempt>)
    requires IsTable(t)
  {
    |tx.inputs| == 1 &&
    match first
    case None => Spends(tx, t.escrow) && RefundsBoth(t, tx)
    case Some(a) => Spends(tx, Outpoint(a.Id(), 0)) && PaysRevealer(t, tx, a)
  }

  lemma {:induction false} KeeperSettlesFor(t: Table, p: Position, first: Option<Attempt>)
    requires IsTable(t) && p == Facing(t, first)
    ensures var r := Build(t.game, p.stage, p.at, if first.None? then RefundAll else FallbackClaim);
      r.Ok? && SettlesFor(t, r.value, first)
  {
    var move := if first.None? then RefundAll else FallbackClaim;
    KeeperCanBuild(t, p, move);
    EndingPaysAsPromised(t.game, p.stage, p.at, move);
    BuildIsExact(t.game, p.stage, p.at, move);
    assert Build(t.game, p.stage, p.at, move).value.inputs[0].coin.outpoint == p.at;
  }

  /** The node lists every payout of the settlement, one score old. */
  ghost predicate AllListed(chain: seq<Tx>, tx: Tx, deep: set<TxId>) {
    && TxIdOf(tx) in deep
    && (exists i :: 0 <= i < |chain| && TxIdOf(chain[i]) == TxIdOf(tx) && chain[i].outputs == tx.outputs)
    && forall j, k, a ::
         0 <= j < |tx.outputs| && 0 <= k < |chain| && 0 <= a < |chain[k].inputs| ==>
         chain[k].inputs[a].coin.outpoint != Outpoint(TxIdOf(tx), j)
  }

  lemma {:induction false} PaidOutIff(chain: seq<Tx>, tx: Tx, deep: set<TxId>)
    ensures PaidOut(chain, tx, deep) <==> AllListed(chain, tx, deep)
  {
    if i :| 0 <= i < |chain| && TxIdOf(chain[i]) == TxIdOf(tx) {
      assert chain[i].outputs == BodyOf(chain[i]).outputs == BodyOf(tx).outputs == tx.outputs;
    }
    if j, k, a :| 0 <= j < |tx.outputs| && 0 <= k < |chain| && 0 <= a < |chain[k].inputs|
                  && chain[k].inputs[a].coin.outpoint == Outpoint(TxIdOf(tx), j) {
      assert Spends(chain[k], Outpoint(TxIdOf(tx), j));
    }
  }

  /** A broadcast settlement stays the keeper's only one, and is confirmed exactly when the node lists its payouts. */
  lemma {:induction false} KeeperConfirmsIff(t: Table, b: Book, age: int, accepted: bool, deep: set<TxId>)
    requires IsTable(t) && b.automatic.Some?
    ensures var w, was, next := Refresh(t, b.world, deep), b.automatic.value, Keep(t, b, age, accepted, deep);
      && next.automatic.Some? && next.automatic.value.tx == was.tx
      && (next.automatic.value.confirmed <==> was.confirmed || AllListed(w.chain, was.tx, deep))
      && next.world.record == w.record && next.world.chain == w.chain
      && (next.automatic.value.confirmed && !was.confirmed ==>
            next.world.preparations == map[] && next.world.claim.None?)
  {
    PaidOutIff(Refresh(t, b.world, deep).chain, b.automatic.value.tx, deep);
  }

  /** A run is its events one after the other. */
  lemma {:induction false} RunGoesOn(t: Table, b: Book, events: seq<Event>, e: Event)
    requires IsTable(t)
    ensures Run(t, b, events + [e]) == Step(t, Run(t, b, events), e)
    decreases |events|
  {
    if events == [] {
      assert [] + [e] == [e] && [e][1..] == [];
      assert Run(t, Step(t, b, e), []) == Step(t, b, e);
    } else {
      assert (events + [e])[1..] == events[1..] + [e];
      RunGoesOn(t, Step(t, b, events[0]), events[1..], e);
    }
  }
}
