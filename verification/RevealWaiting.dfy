/** Who has to wait: while one player leads, and while a player's own attempt is unanswered. */
module RevealWaiting {
  import opened Outcomes
  import opened Economics
  import opened Transactions
  import opened EscrowLedger
  import opened EscrowRuns
  import opened RevealGame
  import opened RevealSafety

  /** What the whole call answers: it refreshes the record first, and then looks at what that left. */
  function Answer(t: Table, w: World, player: Player, choice: Choice, nonce: string, wallet: Wallet, now: Millis,
          deep: set<TxId>): Result<World, RevealError>
    requires IsTable(t)
  {
    PrepareRefreshed(t, Refresh(t, w, deep), player, choice, nonce, wallet, now, deep)
  }

  /** The attempt the refresh finds answered. */
  function AnsweredBy(t: Table, w: World, deep: set<TxId>): (r: Option<nat>)
    requires IsTable(t)
    ensures r.Some? ==> r.value < |w.record.attempts| && !w.record.attempts[r.value].confirmed
    ensures r.None? ==> Refresh(t, w, deep) == w
  {
    FirstAnswered(t, w.chain, w.record.attempts, deep, 0)
  }

  ghost predicate HasPendingLead(w: World, player: Player) {
    exists i :: 0 <= i < |w.record.attempts| && w.record.attempts[i].IsLead() && w.record.attempts[i].player == player
  }

  predicate Claims(w: World, player: Player, now: Millis) {
    w.claim.Some? && w.claim.value.player == player && w.claim.value.expiresAt > now
  }

  /** Nothing is confirmed, and `player` leads: by a live claim, or by an attempt that is still pending. */
  ghost predicate Leads(w: World, player: Player, now: Millis) {
    FirstConfirmed(w.record.attempts).None? && (Claims(w, player, now) || HasPendingLead(w, player))
  }

  // --- What the refresh leaves ---------------------------------------------

  /** A refresh that finds an answer confirms it, and a first reveal that is confirmed is nobody's lead to take. */
  lemma {:induction false} RefreshConfirms(t: Table, w: World, deep: set<TxId>)
    requires IsTable(t) && Inv(t, w) && AnsweredBy(t, w, deep).Some? && FirstConfirmed(w.record.attempts).None?
    ensures FirstConfirmed(Refresh(t, w, deep).record.attempts).Some?
    ensures !w.record.attempts[AnsweredBy(t, w, deep).value].IsLead() ==> Refresh(t, w, deep).record.status.Settled?
    ensures w.record.attempts[AnsweredBy(t, w, deep).value].IsLead() ==>
      FirstConfirmed(Refresh(t, w, deep).record.attempts)
          == Some(w.record.attempts[AnsweredBy(t, w, deep).value].(confirmed := true))
  {
    var was, k := w.record.attempts, AnsweredBy(t, w, deep).value;
    var now := KeepAnswered(was, k, 0);
    var won := was[k].(confirmed := true);
    KeepAnsweredMembers(was, k, 0, won);
    NotYetCompleted(t, w);
    forall a | a in now && a.confirmed ensures a == won { KeepAnsweredMembers(was, k, 0, a); }
    var settled := SettledBy(now);
    if won.IsLead() { assert settled.None?; } else { assert settled.Some?; }
  }

  lemma {:induction false} NotYetCompleted(t: Table, w: World)
    requires IsTable(t) && Inv(t, w) && FirstConfirmed(w.record.attempts).None?
    ensures !w.record.completed && !w.record.status.Settled?
  {
    NoneCounted(w.record.attempts);
  }

  // --- The rival -----------------------------------------------------------

  lemma LeaderBlocks(w: World, player: Player, rival: Player, now: Millis)
    requires Leads(w, player, now) && rival != player
    ensures !MayLead(w, rival, now)
  {
    assert forall a :: a in w.record.attempts ==> !a.confirmed;
  }

  lemma {:induction false} UnansweredRivalWaits(t: Table, w: World, leader: Player, rival: Player, choice: Choice,
          nonce: string, wallet: Wallet, now: Millis, deep: set<TxId>)
    requires IsTable(t) && Inv(t, w) && rival != leader && Leads(w, leader, now) && AnsweredBy(t, w, deep).None?
    ensures var r := Answer(t, w, rival, choice, nonce, wallet, now, deep);
      r.Err? && (CommitOf(t, rival) == Committed(choice, nonce) && !PendingBy(w.record.attempts, rival, now)
          ==> r.error == RevealWaiting)
  {
    NotYetCompleted(t, w);
    LeaderBlocks(w, leader, rival, now);
    assert forall a :: a in w.record.attempts ==> !a.confirmed;
  }

  /** With something confirmed nobody is told to wait for a lead, and only who has not revealed is granted anything. */
  lemma FacingALead(t: Table, w: World, player: Player, choice: Choice, nonce: string, wallet: Wallet, now: Millis,
          deep: set<TxId>)
    requires IsTable(t) && FirstConfirmed(w.record.attempts).Some?
    ensures var r := PrepareRefreshed(t, w, player, choice, nonce, wallet, now, deep);
      r != Err(RevealWaiting) && (r.Ok? ==> !w.record.status.Settled? && !RevealedBy(w.record.attempts, player))
  {
  }

  lemma {:induction false} AnsweredRivalMayGo(t: Table, w: World, rival: Player, choice: Choice, nonce: string,
          wallet: Wallet, now: Millis, deep: set<TxId>)
    requires IsTable(t) && Inv(t, w) && FirstConfirmed(w.record.attempts).None? && AnsweredBy(t, w, deep).Some?
    ensures var r := Answer(t, w, rival, choice, nonce, wallet, now, deep);
      var answered := w.record.attempts[AnsweredBy(t, w, deep).value];
      && r != Err(RevealWaiting) && (r.Ok? ==> answered.IsLead() && answered.player != rival)
  {
    RefreshConfirms(t, w, deep);
    var refreshed := Refresh(t, w, deep);
    FacingALead(t, refreshed, rival, choice, nonce, wallet, now, deep);
    if !RevealedBy(refreshed.record.attempts, rival) {
      NotRevealedBy(refreshed.record.attempts, rival, FirstConfirmed(refreshed.record.attempts).value);
    }
  }

  /** While one player leads, the other's call, with a reveal that fits its commitment and no attempt of its own
      under way, is told to wait exactly when its refresh confirms nothing; and it is granted only if the refresh
      confirmed the leader's own first reveal, which it may then answer. */
  lemma {:induction false} RivalMustWaitIff(t: Table, w: World, leader: Player, rival: Player, choice: Choice,
          nonce: string, wallet: Wallet, now: Millis, deep: set<TxId>)
    requires IsTable(t) && Inv(t, w) && rival != leader && Leads(w, leader, now)
    ensures CommitOf(t, rival) == Committed(choice, nonce) && !PendingBy(w.record.attempts, rival, now) ==>
      (Answer(t, w, rival, choice, nonce, wallet, now, deep) == Err(RevealWaiting) <==> AnsweredBy(t, w, deep).None?)
    ensures Answer(t, w, rival, choice, nonce, wallet, now, deep).Ok? ==>
      var k := AnsweredBy(t, w, deep);
      && k.Some? && w.record.attempts[k.value].IsLead() && w.record.attempts[k.value].player == leader
  {
    if AnsweredBy(t, w, deep).None? {
      UnansweredRivalWaits(t, w, leader, rival, choice, nonce, wallet, now, deep);
    } else {
      AnsweredRivalMayGo(t, w, rival, choice, nonce, wallet, now, deep);
    }
  }

  // --- One's own attempt ---------------------------------------------------

  lemma {:induction false} OtherStepStays(attempts: seq<Attempt>, k: nat, i: nat, j: nat)
    requires k < |attempts| && i <= j < |attempts| && j != k && attempts[j].IsLead() != attempts[k].IsLead()
    ensures attempts[j] in KeepAnswered(attempts, k, i)
    decreases |attempts| - i
  {
    if i < j { OtherStepStays(attempts, k, i + 1, j); }
  }

  /** For a minute after a recorded submission the player's next call is refused, unless its refresh confirmed
      another attempt at the same step and so dropped the submitted one. */
  lemma {:induction false} OwnRetryMustWait(t: Table, w: World, tx: Tx, accepted: bool, at: Millis, choice: Choice,
          nonce: string, wallet: Wallet, now: Millis, deep: set<TxId>)
    requires IsTable(t) && Inv(t, w) && Recorded(w, tx, accepted) && now < at + PENDING_RETRY_MS
    ensures var after := Submit(w, tx, accepted, at);
      Answer(t, after, w.preparations[tx].player, choice, nonce, wallet, now, deep).Ok? ==>
      var k := AnsweredBy(t, after, deep);
      && k.Some? && k.value < |w.record.attempts|
      && after.record.attempts[k.value].IsLead() == w.preparations[tx].winner.None?
  {
    var after := Submit(w, tx, accepted, at);
    var n := |w.record.attempts|;
    var a := AttemptOf(tx, w.preparations[tx], at);
    assert after.record.attempts[n] == a;
    if Answer(t, after, a.player, choice, nonce, wallet, now, deep).Ok? {
      var k := AnsweredBy(t, after, deep);
      if k.None? {
        assert PendingBy(after.record.attempts, a.player, now);
      } else if k.value == n {
        OwnAnswerReveals(t, after, n, deep);
      } else if after.record.attempts[k.value].IsLead() != a.IsLead() {
        OwnAttemptStays(t, after, n, k.value, deep);
      }
    }
  }

  /** Confirmed, the attempt has revealed for its player. */
  lemma {:induction false} OwnAnswerReveals(t: Table, w: World, n: nat, deep: set<TxId>)
    requires IsTable(t) && AnsweredBy(t, w, deep) == Some(n)
    ensures Refresh(t, w, deep).record.status.Settled?
        || RevealedBy(Refresh(t, w, deep).record.attempts, w.record.attempts[n].player) || w.record.completed
  {
    var was := w.record.attempts;
    var won := was[n].(confirmed := true);
    KeepAnsweredMembers(was, n, 0, won);
    var i :| 0 <= i < |KeepAnswered(was, n, 0)| && KeepAnswered(was, n, 0)[i] == won;
  }

  lemma {:induction false} OwnAttemptStays(t: Table, w: World, n: nat, k: nat, deep: set<TxId>)
    requires IsTable(t) && AnsweredBy(t, w, deep) == Some(k) && n < |w.record.attempts| && n != k
    requires w.record.attempts[n].IsLead() != w.record.attempts[k].IsLead()
    ensures w.record.attempts[n] in Refresh(t, w, deep).record.attempts
  {
    OtherStepStays(w.record.attempts, k, 0, n);
  }

  // --- Leading lasts -------------------------------------------------------

  /** A call that prepares a first reveal makes its player lead until the claim runs out. */
  lemma {:induction false} PreparingLeads(t: Table, w: World, player: Player, choice: Choice, nonce: string,
          wallet: Wallet, now: Millis, deep: set<TxId>, soon: Millis)
    requires IsTable(t) && FirstConfirmed(Refresh(t, w, deep).record.attempts).None? && soon < now + REVEAL_CLAIM_TTL_MS
    requires Answer(t, w, player, choice, nonce, wallet, now, deep).Ok?
    ensures Leads(Prepare(t, w, player, choice, nonce, wallet, now, deep), player, soon)
  {
  }

  /** What ends a player's lead: an answer from the chain, or the node's refusal of a submission of the player's
      that only its claim was standing for. */
  ghost predicate Ends(t: Table, w: World, e: Event, player: Player)
    requires IsTable(t)
  {
    match e
    case OnPrepare(_, _, _, _, _, deep) => AnsweredBy(t, w, deep).Some?
    case OnRefresh(deep) => AnsweredBy(t, w, deep).Some?
    case OnSubmit(tx, accepted, _) =>
      tx in w.preparations && w.preparations[tx].player == player && !Recorded(w, tx, accepted)
          && !HasPendingLead(w, player)
    case _ => false
  }

  /** The player's own calls of the run come no earlier than the claim that is to last until `soon`. */
  predicate InTime(e: Event, player: Player, soon: Millis) {
    e.OnPrepare? && e.player == player ==> soon < e.now + REVEAL_CLAIM_TTL_MS
  }

  lemma {:induction false} PendingIsUnconfirmed(attempts: seq<Attempt>, a: Attempt)
    requires FirstConfirmed(attempts).None? && !a.confirmed
    ensures FirstConfirmed(attempts + [a]).None?
  {
    assert forall b :: b in attempts + [a] ==> !b.confirmed;
  }

  lemma {:induction false} SubmitLeadsIff(t: Table, w: World, e: Event, player: Player, soon: Millis)
    requires IsTable(t) && Inv(t, w) && Leads(w, player, soon) && e.OnSubmit?
    ensures Leads(React(t, w, e), player, soon) <==> !Ends(t, w, e, player)
  {
    var after := React(t, w, e);
    if Recorded(w, e.tx, e.accepted) {
      var a := AttemptOf(e.tx, w.preparations[e.tx], e.now);
      PendingIsUnconfirmed(w.record.attempts, a);
      OnlyLeadsYet(t, w, e.tx);
      assert after.record.attempts[|w.record.attempts|] == a;
      if HasPendingLead(w, player) {
        var i :| 0 <= i < |w.record.attempts| && w.record.attempts[i].IsLead() && w.record.attempts[i].player == player;
        assert after.record.attempts[i] == w.record.attempts[i];
      }
    }
  }

  /** Before anything is confirmed only first reveals are prepared. */
  lemma {:induction false} OnlyLeadsYet(t: Table, w: World, tx: Tx)
    requires IsTable(t) && Inv(t, w) && FirstConfirmed(w.record.attempts).None? && tx in w.preparations
    ensures w.preparations[tx].winner.None?
  {
    assert HonestPreparation(t, w.record.attempts, tx, w.preparations[tx]);
    assert forall a :: a in w.record.attempts ==> !a.confirmed;
  }

  /** Without an answer from the chain a call leaves the record, and only its own player may take the claim. */
  lemma {:induction false} UnansweredCall(t: Table, w: World, e: Event)
    requires IsTable(t) && e.OnPrepare? && AnsweredBy(t, w, e.deep).None?
    ensures React(t, w, e).record == w.record
    ensures React(t, w, e).claim == w.claim || React(t, w, e).claim
        == Some(Claim(e.player, e.now + REVEAL_CLAIM_TTL_MS))
    ensures FirstConfirmed(w.record.attempts).None? && !MayLead(w, e.player, e.now) ==> React(t, w, e).claim == w.claim
  {
  }

  lemma {:induction false} PrepareLeadsIff(t: Table, w: World, e: Event, player: Player, soon: Millis)
    requires IsTable(t) && Inv(t, w) && Leads(w, player, soon) && e.OnPrepare? && InTime(e, player, soon)
    requires e.player != player ==> e.now <= soon
    ensures Leads(React(t, w, e), player, soon) <==> !Ends(t, w, e, player)
  {
    if AnsweredBy(t, w, e.deep).Some? {
      RefreshConfirms(t, w, e.deep);
      PrepareKeepsRefreshed(t, w, e);
    } else {
      UnansweredCall(t, w, e);
      if e.player != player { LeaderBlocksEarlier(w, player, e.player, e.now, soon); }
    }
  }

  lemma PrepareKeepsRefreshed(t: Table, w: World, e: Event)
    requires IsTable(t) && e.OnPrepare?
    ensures React(t, w, e).record == Refresh(t, w, e.deep).record
  {
  }

  lemma LeaderBlocksEarlier(w: World, player: Player, rival: Player, now: Millis, soon: Millis)
    requires Leads(w, player, soon) && now <= soon && rival != player
    ensures !MayLead(w, rival, now)
  {
    LeaderBlocks(w, player, rival, now);
  }

  /** A player who leads goes on leading exactly until one of the two things that end it happens. */
  lemma {:induction false} LeadingLastsIff(t: Table, w: World, e: Event, player: Player, soon: Millis)
    requires IsTable(t) && Inv(t, w) && Leads(w, player, soon) && InTime(e, player, soon)
    requires e.OnPrepare? && e.player != player ==> e.now <= soon
    ensures Leads(React(t, w, e), player, soon) <==> !Ends(t, w, e, player)
  {
    match e
    case OnPrepare(_, _, _, _, _, _) => PrepareLeadsIff(t, w, e, player, soon);
    case OnSubmit(_, _, _) => SubmitLeadsIff(t, w, e, player, soon);
    case OnRefresh(deep) => if AnsweredBy(t, w, deep).Some? { RefreshConfirms(t, w, deep); }
    case OnForget(_) =>
    case OnMine(_) =>
  }

  /** The run is possible, its calls come before `soon` and in time for the claim, and nothing ends the lead. */
  ghost predicate Undisturbed(t: Table, w: World, events: seq<Event>, player: Player, soon: Millis)
    requires IsTable(t)
    decreases |events|
  {
    events == []
    || (Possible(w, events[0]) && InTime(events[0], player, soon) && (events[0].OnPrepare? ==> events[0].now <= soon)
        && !Ends(t, w, events[0], player) && Undisturbed(t, React(t, w, events[0]), events[1..], player, soon))
  }

  lemma {:induction false} LeadingLasts(t: Table, w: World, events: seq<Event>, player: Player, soon: Millis)
    requires IsTable(t) && Inv(t, w) && Leads(w, player, soon) && Undisturbed(t, w, events, player, soon)
    ensures Inv(t, RunEvents(t, w, events)) && Leads(RunEvents(t, w, events), player, soon)
    decreases |events|
  {
    if events != [] {
      LeadingLastsIff(t, w, events[0], player, soon);
      StepKeeps(t, w, events[0]);
      LeadingLasts(t, React(t, w, events[0]), events[1..], player, soon);
    }
  }

  /** From a player's preparation of a first reveal on, whatever both players and the chain do, the rival's call is
      granted only if its refresh confirms that player's reveal, until the claim has run out without a submission,
      the node refuses the submission, or an earlier refresh confirms something. */
  lemma {:induction false} OnlyOneLeads(t: Table, w: World, player: Player, choice: Choice, nonce: string,
          wallet: Wallet, now: Millis, deep: set<TxId>, events: seq<Event>, rival: Player, bet: Choice, key: string,
          purse: Wallet, soon: Millis, seen: set<TxId>)
    requires IsTable(t) && Inv(t, w) && rival != player && soon < now + REVEAL_CLAIM_TTL_MS
    requires FirstConfirmed(Refresh(t, w, deep).record.attempts).None?
    requires Answer(t, w, player, choice, nonce, wallet, now, deep).Ok?
    requires Undisturbed(t, Prepare(t, w, player, choice, nonce, wallet, now, deep), events, player, soon)
    ensures var end := RunEvents(t, Prepare(t, w, player, choice, nonce, wallet, now, deep), events);
      Answer(t, end, rival, bet, key, purse, soon, seen).Ok? ==>
      var k := AnsweredBy(t, end, seen);
      && k.Some? && end.record.attempts[k.value].IsLead() && end.record.attempts[k.value].player == player
  {
    var prepared := Prepare(t, w, player, choice, nonce, wallet, now, deep);
    PreparingLeads(t, w, player, choice, nonce, wallet, now, deep, soon);
    PrepareKeeps(t, w, player, choice, nonce, wallet, now, deep);
    LeadingLasts(t, prepared, events, player, soon);
    RivalMustWaitIff(t, RunEvents(t, prepared, events), player, rival, bet, key, purse, soon, seen);
  }

  /** Once submitted, the lead no longer depends on the clock. */
  lemma {:induction false} SubmittedLeadHasNoEnd(t: Table, w: World, tx: Tx, accepted: bool, at: Millis, soon: Millis)
    requires IsTable(t) && Inv(t, w) && FirstConfirmed(w.record.attempts).None? && Recorded(w, tx, accepted)
    ensures Leads(Submit(w, tx, accepted, at), w.preparations[tx].player, soon)
  {
    var a := AttemptOf(tx, w.preparations[tx], at);
    OnlyLeadsYet(t, w, tx);
    PendingIsUnconfirmed(w.record.attempts, a);
    assert Submit(w, tx, accepted, at).record.attempts[|w.record.attempts|] == a;
  }
}
