/**
 What the two reveal calls answer, told from the record, the chain and the commitments alone: when the
 refresh confirms an attempt, when a player is granted a transaction, and what that transaction pays.
 */
module RevealAnswers {
  import opened Outcomes
  import opened Economics
  import opened Transactions
  import opened EscrowLedger
  import opened EscrowRuns
  import opened RevealGame
  import opened RevealSafety

  // --- The refresh ---------------------------------------------------------

  /** The chain holds the transaction, and nothing has spent its first output, which is `value` under `script`. */
  ghost predicate Unspent(chain: seq<Tx>, id: TxId, value: int, script: Script) {
    && (exists i :: 0 <= i < |chain| && TxIdOf(chain[i]) == id
                    && chain[i].outputs != [] && chain[i].outputs[0].value == value
                    && chain[i].outputs[0].script == script)
    && (forall i, a :: 0 <= i < |chain| && 0 <= a < |chain[i].inputs| ==>
          chain[i].inputs[a].coin.outpoint != Outpoint(id, 0))
  }

  /** The chain shows what the attempt is for, one score deep: the revealed escrow of a lead, the payout of a
      settlement. */
  ghost predicate Seen(t: Table, chain: seq<Tx>, a: Attempt, deep: set<TxId>)
    requires IsTable(t)
  {
    && a.Id() in deep
    && (a.IsLead() ==>
          Unspent(chain, a.Id(), 2 * t.game.stake, Covenant(RevealedState(t.game, t.stage, a.player, a.choice))))
    && (!a.IsLead() ==>
          Unspent(chain, a.Id(), 2 * t.game.stake - Resolve(t.game.stake).value.gameFee, PayTo(a.payout)))
  }

  lemma {:induction false} UnspentIff(chain: seq<Tx>, id: TxId, value: int, script: Script)
    ensures Visible(chain, id, value, script) <==> Unspent(chain, id, value, script)
  {
    var o := Outpoint(id, 0);
    if i, b :| 0 <= i < |chain| && 0 <= b < |chain[i].inputs| && chain[i].inputs[b].coin.outpoint == o {
      assert Spends(chain[i], o);
    }
  }

  lemma {:induction false} SeenIff(t: Table, chain: seq<Tx>, a: Attempt, deep: set<TxId>)
    requires IsTable(t)
    ensures Confirmable(t, chain, a, deep) <==> Seen(t, chain, a, deep)
  {
    var terms := Resolve(t.game.stake).value;
    if a.IsLead() {
      UnspentIff(chain, a.Id(), terms.pot, Covenant(StateOf(t.game, LedBy(t, a.player, a.choice))));
    } else {
      UnspentIff(chain, a.Id(), terms.settlementPayout, PayTo(a.payout));
    }
  }

  /** What a refresh makes of a record that is not complete: nothing if the chain shows no pending attempt;
      otherwise one attempt it does show, and none before it, is confirmed, the other pending attempts of its step
      are dropped, and the record is settled exactly by a settlement. */
  lemma {:induction false} RefreshShowsTheChain(t: Table, w: World, deep: set<TxId>)
    requires IsTable(t) && Inv(t, w) && !w.record.completed
    ensures var was, r := w.record.attempts, Refresh(t, w, deep);
      || (r == w && forall i :: 0 <= i < |was| && !was[i].confirmed ==> !Seen(t, w.chain, was[i], deep))
      || (exists k :: 0 <= k < |was| && !was[k].confirmed && Seen(t, w.chain, was[k], deep)
            && (forall i :: 0 <= i < k && !was[i].confirmed ==> !Seen(t, w.chain, was[i], deep))
            && Confirms(w, r, was[k]))
  {
    var was := w.record.attempts;
    forall i | 0 <= i < |was| ensures Confirmable(t, w.chain, was[i], deep) <==> Seen(t, w.chain, was[i], deep) {
      SeenIff(t, w.chain, was[i], deep);
    }
    var next := FirstAnswered(t, w.chain, was, deep, 0);
    AnsweredIsFirst(t, w.chain, was, deep, 0);
    if next.Some? { AnswerConfirms(t, w, next.value); assert Confirms(w, Refresh(t, w, deep), was[next.value]); }
  }

  lemma {:induction false} AnsweredIsFirst(t: Table, chain: seq<Tx>, attempts: seq<Attempt>, deep: set<TxId>, i: nat)
    requires IsTable(t) && i <= |attempts|
    ensures var r := FirstAnswered(t, chain, attempts, deep, i);
      r.Some? ==> forall j :: i <= j < r.value && !attempts[j].confirmed ==> !Confirmable(t, chain, attempts[j], deep)
    decreases |attempts| - i
  {
    if i < |attempts| && (attempts[i].confirmed || !Confirmable(t, chain, attempts[i], deep)) {
      AnsweredIsFirst(t, chain, attempts, deep, i + 1);
    }
  }

  ghost predicate Confirms(w: World, r: World, a: Attempt) {
    && r.chain == w.chain && r.sent == w.sent
    && (forall b :: b in r.record.attempts <==>
          b == a.(confirmed := true) || (b in w.record.attempts && (b.confirmed || b.IsLead() != a.IsLead())))
    && if a.IsLead()
       then r.record.status == FirstRevealed && r.record.winner == w.record.winner && !r.record.completed
            && r.preparations == w.preparations && r.claim == w.claim
       else r.record.status == Settled && r.record.winner == a.winner && r.record.completed
            && r.preparations == map[] && r.claim.None?
  }

  lemma {:induction false} AnswerConfirms(t: Table, w: World, k: nat)
    requires IsTable(t) && Inv(t, w) && !w.record.completed
    requires k < |w.record.attempts| && !w.record.attempts[k].confirmed
    ensures var saved, a := Answered(w.record, k), w.record.attempts[k];
      && (forall b :: b in saved.attempts <==>
            b == a.(confirmed := true) || (b in w.record.attempts && (b.confirmed || b.IsLead() != a.IsLead())))
      && (a.IsLead() <==> SettledBy(saved.attempts).None?)
      && (a.IsLead() ==> saved == w.record.(attempts := saved.attempts, status := FirstRevealed))
      && (!a.IsLead() ==> saved == Record(Settled, saved.attempts, a.winner, true))
  {
    var was, now := w.record.attempts, KeepAnswered(w.record.attempts, k, 0);
    assert was[0..] == was;
    forall b
      ensures b in now <==>
        b == was[k].(confirmed := true) || (b in was && (b.confirmed || b.IsLead() != was[k].IsLead()))
    {
      KeepAnsweredIff(was, k, 0, b);
    }
    forall b | b in was && b.confirmed ensures b.IsLead() { if !b.IsLead() { ThereIsCounted(was, b); } }
  }

  // --- The call ------------------------------------------------------------

  /** What the player's transaction spends: the joined escrow, until the record holds a confirmed first reveal. */
  ghost predicate Faces(t: Table, w: World, lead: Option<Attempt>)
    requires IsTable(t)
  {
    match lead
    case None => forall a :: a in w.record.attempts ==> !a.confirmed
    case Some(a) => a in w.record.attempts && a.confirmed && a.IsLead()
  }

  /** The coin is there, one score old: the escrow of the joined game, or what the confirmed reveal left. */
  ghost predicate CoinReady(t: Table, w: World, lead: Option<Attempt>, deep: set<TxId>)
    requires IsTable(t)
  {
    match lead
    case None =>
      && t.escrow.txId in deep
      && Unspent(w.chain, t.escrow.txId, 2 * t.game.stake,
          Covenant(JoinedState(t.game, t.stage.joiner, t.stage.joinerCommit)))
    case Some(a) =>
      && a.Id() in deep
      && Unspent(w.chain, a.Id(), 2 * t.game.stake, Covenant(RevealedState(t.game, t.stage, a.player, a.choice)))
  }

  /** Nobody else leads: no attempt at a first reveal of the other player, and no claim of it that still runs. */
  ghost predicate NobodyElseLeads(w: World, player: Player, now: Millis) {
    && (forall a :: a in w.record.attempts && !a.confirmed && a.IsLead() ==> a.player == player)
    && (w.claim.Some? && w.claim.value.player != player ==> w.claim.value.expiresAt <= now)
  }

  /** What the player has to show: the choice and nonce it committed to, and no reveal that is confirmed, or was
      submitted in the last minute. */
  ghost predicate MayReveal(t: Table, w: World, player: Player, choice: Choice, nonce: string, now: Millis)
    requires IsTable(t)
  {
    && (if player.Creator? then t.game.creatorCommit else t.stage.joinerCommit) == Committed(choice, nonce)
    && forall a :: a in w.record.attempts && a.player == player ==> !a.confirmed && now - a.submittedAt >= 60_000
  }

  lemma {:induction false} PayableIff(t: Table, lead: Option<Attempt>, player: Player, choice: Choice, nonce: string,
          wallet: Wallet)
    requires IsTable(t) && (lead.Some? ==> player != lead.value.player)
    ensures var p := Facing(t, lead);
      Build(t.game, p.stage, p.at, MoveFor(lead, player, choice, nonce, wallet)).Ok? <==>
      Affords(wallet.funding, wallet.fee, 0, wallet.change)
  {
    var p := Facing(t, lead);
    BuiltIff(t.game, p.stage, p.at, MoveFor(lead, player, choice, nonce, wallet));
  }

  lemma {:induction false} MayRevealIff(t: Table, w: World, player: Player, choice: Choice, nonce: string, now: Millis)
    requires IsTable(t)
    ensures MayReveal(t, w, player, choice, nonce, now) <==>
      && CommitOf(t, player) == Committed(choice, nonce)
      && !RevealedBy(w.record.attempts, player) && !PendingBy(w.record.attempts, player, now)
  {
    var was := w.record.attempts;
    assert (forall a :: a in was && a.player == player ==> !a.confirmed && now - a.submittedAt >= 60_000) <==>
      forall i :: 0 <= i < |was| && was[i].player == player ==> !was[i].confirmed && now - was[i].submittedAt >= 60_000;
  }

  lemma {:induction false} NobodyElseLeadsIff(w: World, player: Player, now: Millis)
    ensures NobodyElseLeads(w, player, now) <==> MayLead(w, player, now)
  {
    var was := w.record.attempts;
    assert forall i :: 0 <= i < |was| ==> was[i] in was;
  }

  /** Whichever confirmed first reveal one looks at, the coin is the same. */
  lemma {:induction false} FacesTheFirst(t: Table, w: World, lead: Option<Attempt>)
    requires IsTable(t) && Inv(t, w) && !w.record.status.Settled? && Faces(t, w, lead)
    ensures var first := FirstConfirmed(w.record.attempts);
      && (first.None? <==> lead.None?) && Faces(t, w, first)
      && (lead.Some? ==> first.value.Id() == lead.value.Id() && first.value.player == lead.value.player
                         && first.value.choice == lead.value.choice)
  {
    FirstConfirmedIsALead(t, w);
    var first := FirstConfirmed(w.record.attempts);
    if lead.Some? { OneFirstReveal(t, w, first.value, lead.value); }
  }

  lemma {:induction false} CoinReadyIff(t: Table, w: World, lead: Option<Attempt>, deep: set<TxId>)
    requires IsTable(t)
    ensures var p := Facing(t, lead);
      CoinReady(t, w, lead, deep) <==>
        && p.at.txId in deep
        && Visible(w.chain, p.at.txId, Resolve(t.game.stake).value.pot, Covenant(StateOf(t.game, p.stage)))
  {
    var p := Facing(t, lead);
    UnspentIff(w.chain, p.at.txId, 2 * t.game.stake, Covenant(StateOf(t.game, p.stage)));
  }

  /** A refreshed record grants a player a transaction exactly when the game is not settled, the player may reveal,
      nobody else leads if nothing is confirmed yet, the coin is ready, and the wallet can pay. */
  lemma {:induction false} GrantedIff(t: Table, w: World, player: Player, choice: Choice, nonce: string,
          wallet: Wallet, now: Millis, deep: set<TxId>, lead: Option<Attempt>)
    requires IsTable(t) && Inv(t, w) && (!w.record.status.Settled? ==> Faces(t, w, lead))
    ensures PrepareRefreshed(t, w, player, choice, nonce, wallet, now, deep).Ok? <==>
      && !w.record.status.Settled? && MayReveal(t, w, player, choice, nonce, now)
      && (lead.None? ==> NobodyElseLeads(w, player, now))
      && CoinReady(t, w, lead, deep) && Affords(wallet.funding, wallet.fee, 0, wallet.change)
  {
    if !w.record.status.Settled? {
      FacesTheFirst(t, w, lead);
      MayRevealIff(t, w, player, choice, nonce, now);
      NobodyElseLeadsIff(w, player, now);
      CoinReadyIff(t, w, FirstConfirmed(w.record.attempts), deep);
      assert CoinReady(t, w, lead, deep) <==> CoinReady(t, w, FirstConfirmed(w.record.attempts), deep);
      if MayReveal(t, w, player, choice, nonce, now) {
        PayableIff(t, FirstConfirmed(w.record.attempts), player, choice, nonce, wallet);
      }
    }
  }

  /** The transaction spends this coin of the covenant first and pays the wallet's stated fee. */
  ghost predicate SpendsFirst(t: Table, tx: Tx, at: Outpoint, state: Escrow, fee: int) {
    && tx.inputs != [] && TotalIn(tx.inputs) - TotalOut(tx.outputs) == fee
    && tx.inputs[0].coin == Coin(at, 2 * t.game.stake, Covenant(state), Some(t.game.covenantId))
  }

  /** The transaction of a player who reveals first: it moves the escrow on, and its player now leads. */
  ghost predicate GrantsLead(t: Table, w: World, next: World, tx: Tx, player: Player, choice: Choice, nonce: string,
          wallet: Wallet, now: Millis)
    requires IsTable(t)
  {
    && SpendsFirst(t, tx, t.escrow, JoinedState(t.game, t.stage.joiner, t.stage.joinerCommit), wallet.fee)
    && LeavesBehind(t.game, t.stage, Lead(player, choice, nonce, wallet.funding, wallet.fee, wallet.change), tx)
    && next == w.(preparations := w.preparations[tx := Preparation(player, choice, None,
                      if player.Creator? then t.game.creator else t.stage.joiner)],
                  claim := Some(Claim(player, now + 120_000)))
  }

  /** The transaction of the player who reveals second: it pays the pot, less the game fee, to whom the two choices
      make the winner. */
  ghost predicate GrantsSettlement(t: Table, w: World, next: World, tx: Tx, lead: Attempt, player: Player,
          choice: Choice, wallet: Wallet)
    requires IsTable(t)
  {
    var creatorWins := (choice == lead.choice) == t.game.creatorEven;
    var key := if creatorWins then t.game.creator else t.stage.joiner;
    && player != lead.player
    && SpendsFirst(t, tx, Outpoint(lead.Id(), 0), RevealedState(t.game, t.stage, lead.player, lead.choice), wallet.fee)
    && PaysWinner(t.game, tx, key, 0)
    && next == w.(preparations := w.preparations[tx := Preparation(player, choice,
                      Some(if creatorWins then Creator else Joiner), key)])
  }

  lemma {:induction false} GrantedLead(t: Table, w: World, player: Player, choice: Choice, nonce: string,
          wallet: Wallet, now: Millis, deep: set<TxId>) returns (tx: Tx)
    requires IsTable(t) && FirstConfirmed(w.record.attempts).None?
    requires PrepareRefreshed(t, w, player, choice, nonce, wallet, now, deep).Ok?
    ensures var next := PrepareRefreshed(t, w, player, choice, nonce, wallet, now, deep).value;
      GrantsLead(t, w, next, tx, player, choice, nonce, wallet, now)
  {
    var move := Lead(player, choice, nonce, wallet.funding, wallet.fee, wallet.change);
    tx := Build(t.game, t.stage, t.escrow, move).value;
    BuildIsExact(t.game, t.stage, t.escrow, move);
    ContinuationLeavesBehind(t.game, t.stage, t.escrow, move);
  }

  lemma {:induction false} GrantedSettlement(t: Table, w: World, player: Player, choice: Choice, nonce: string,
          wallet: Wallet, now: Millis, deep: set<TxId>, lead: Attempt) returns (tx: Tx)
    requires IsTable(t) && FirstConfirmed(w.record.attempts) == Some(lead)
    requires PrepareRefreshed(t, w, player, choice, nonce, wallet, now, deep).Ok?
    ensures var next := PrepareRefreshed(t, w, player, choice, nonce, wallet, now, deep).value;
      GrantsSettlement(t, w, next, tx, lead, player, choice, wallet)
  {
    var p := Facing(t, Some(lead));
    var move := Settle(player, choice, nonce, wallet.funding, wallet.fee, wallet.change);
    tx := Build(t.game, p.stage, p.at, move).value;
    BuildIsExact(t.game, p.stage, p.at, move);
    EndingPaysAsPromised(t.game, p.stage, p.at, move);
    CreatorWinsIff(choice, lead.choice, t.game.creatorEven);
    CreatorWinsIff(lead.choice, choice, t.game.creatorEven);
  }

  /** What a granted call leaves prepared, and the claim it leaves behind. */
  lemma {:induction false} GrantedIsRight(t: Table, w: World, player: Player, choice: Choice, nonce: string,
          wallet: Wallet, now: Millis, deep: set<TxId>, lead: Option<Attempt>) returns (tx: Tx)
    requires IsTable(t) && Inv(t, w) && !w.record.status.Settled? && Faces(t, w, lead)
    requires PrepareRefreshed(t, w, player, choice, nonce, wallet, now, deep).Ok?
    ensures var next := PrepareRefreshed(t, w, player, choice, nonce, wallet, now, deep).value;
      match lead
      case None => GrantsLead(t, w, next, tx, player, choice, nonce, wallet, now)
      case Some(a) => GrantsSettlement(t, w, next, tx, a, player, choice, wallet)
  {
    FacesTheFirst(t, w, lead);
    match FirstConfirmed(w.record.attempts) {
      case None => tx := GrantedLead(t, w, player, choice, nonce, wallet, now, deep);
      case Some(first) => tx := GrantedSettlement(t, w, player, choice, nonce, wallet, now, deep, first);
    }
  }

  // --- The submission ------------------------------------------------------

  /** What a submission records: nothing of a transaction that was not prepared, the end of its player's claim
      otherwise, and the attempt, still pending, once the node has it. */
  lemma {:induction false} SubmissionIsRecorded(w: World, tx: Tx, accepted: bool, now: Millis)
    ensures var r := Submit(w, tx, accepted, now);
      && r.chain == w.chain && r.preparations == w.preparations
      && (tx !in w.preparations ==> r == w)
      && (tx in w.preparations ==>
            var p := w.preparations[tx];
            && !(r.claim.Some? && r.claim.value.player == p.player)
            && (w.claim.Some? && w.claim.value.player != p.player ==> r.claim == w.claim)
            && (tx !in w.sent && !accepted ==> r.record == w.record && r.sent == w.sent)
            && (tx in w.sent || accepted ==>
                  && tx in r.sent && (forall other :: other in r.sent && other != tx ==> other in w.sent)
                  && w.sent <= r.sent && w.record.attempts < r.record.attempts
                  && |r.record.attempts| == |w.record.attempts| + 1 && r.record.winner == w.record.winner
                  && r.record.completed == w.record.completed
                  && r.record.status == (if p.winner.None? then RevealBroadcast else SettlementBroadcast)
                  && var a := r.record.attempts[|w.record.attempts|];
                    a.prepared == tx && a.player == p.player && a.choice == p.choice && !a.confirmed
                    && a.winner == p.winner && a.payout == p.payout && a.submittedAt == now))
  {
  }
}
