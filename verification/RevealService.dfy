/** The service's reveal calls as they update the stored record, the preparations and the lead claim. */
module RevealService {
  import opened Outcomes
  import opened Economics
  import opened Transactions
  import opened EscrowLedger
  import opened EscrowRuns
  import opened RevealGame

  method KeepWinner(attempts: seq<Attempt>, k: nat) returns (updated: seq<Attempt>)
    requires k < |attempts|
    ensures updated == KeepAnswered(attempts, k, 0)
  {
    updated := [];
    for i := 0 to |attempts|
      invariant updated + KeepAnswered(attempts, k, i) == KeepAnswered(attempts, k, 0)
    {
      SeqAssociates(updated, KeptAt(attempts, k, i), KeepAnswered(attempts, k, i + 1));
      updated := updated + KeptAt(attempts, k, i);
    }
  }

  lemma SeqAssociates(a: seq<Attempt>, b: seq<Attempt>, c: seq<Attempt>)
    ensures a + (b + c) == (a + b) + c
  {
  }

  /** Whose seat the caller's key holds. */
  function SeatOf(t: Table, caller: Key): (r: Option<Player>)
    requires IsTable(t)
    ensures r.Some? ==> KeyOf(t.game, t.stage, r.value) == caller
    ensures r.None? ==> forall player :: KeyOf(t.game, t.stage, player) != caller
  {
    if caller == t.game.creator then Some(Creator) else if caller == t.stage.joiner then Some(Joiner) else None
  }

  /** The transaction handed to the wallet: the player's move against whatever the record faces. */
  function ToSign(t: Table, w: World, player: Player, choice: Choice, nonce: string,
          wallet: Wallet): Result<Tx, BuildError>
    requires IsTable(t)
  {
    var first := FirstConfirmed(w.record.attempts);
    var p := Facing(t, first);
    Build(t.game, p.stage, p.at, MoveFor(first, player, choice, nonce, wallet))
  }

  class Service {
    var record: Record
    var preparations: map<Tx, Preparation>
    var sent: set<Tx>
    var claim: Option<Claim>

    function View(chain: seq<Tx>): World
      reads this
    {
      World(chain, record, preparations, sent, claim)
    }

    constructor (joined: Record)
      ensures record == joined && preparations == map[] && sent == {} && claim.None?
    {
      record := joined;
      preparations := map[];
      sent := {};
      claim := None;
    }

    method RefreshActionState(t: Table, chain: seq<Tx>, deep: set<TxId>)
      requires IsTable(t)
      modifies this
      ensures View(chain) == Refresh(t, old(View(chain)), deep)
    {
      var attempts := record.attempts;
      var i := 0;
      while i < |attempts|
        invariant 0 <= i <= |attempts|
        invariant FirstAnswered(t, chain, attempts, deep, i) == FirstAnswered(t, chain, attempts, deep, 0)
        invariant View(chain) == old(View(chain)) && attempts == record.attempts
      {
        if !attempts[i].confirmed && Confirmable(t, chain, attempts[i], deep) {
          var updated := KeepWinner(attempts, i);
          var settled := SettledBy(updated);
          if settled.Some? {
            Complete(Record(Settled, updated, settled.value.winner, true));
          } else {
            record := record.(attempts := updated, status := FirstRevealed);
          }
          return;
        }
        i := i + 1;
      }
    }

    /** A record that is already complete is not saved again. */
    method Complete(saved: Record)
      modifies this
      ensures sent == old(sent)
      ensures if old(record).completed then
          record == old(record) && preparations == old(preparations) && claim == old(claim)
        else record == saved && preparations == map[] && claim.None?
    {
      if !record.completed {
        record := saved;
        preparations := map[];
        claim := None;
      }
    }

    /** Whatever it answers, the call has refreshed the record; only a player's own is answered with a transaction. */
    method PrepareReveal(t: Table, chain: seq<Tx>, caller: Key, choice: Choice, nonce: string, wallet: Wallet,
            now: Millis, deep: set<TxId>)
      returns (r: Result<Tx, RevealError>)
      requires IsTable(t)
      modifies this
      ensures var refreshed := Refresh(t, old(View(chain)), deep);
        match SeatOf(t, caller)
        case None =>
          && View(chain) == refreshed
          && r == Err(if refreshed.record.status.Settled? then GameSettled else NotAPlayer)
        case Some(player) =>
          && View(chain) == Prepare(t, old(View(chain)), player, choice, nonce, wallet, now, deep)
          && match PrepareRefreshed(t, refreshed, player, choice, nonce, wallet, now, deep)
             case Err(e) => r == Err(e)
             case Ok(_) =>
               r.Ok? && ToSign(t, refreshed, player, choice, nonce, wallet) == Ok(r.value) && r.value in preparations
    {
      RefreshActionState(t, chain, deep);
      if record.status.Settled? { return Err(GameSettled); }
      var seat := SeatOf(t, caller);
      if seat.None? { return Err(NotAPlayer); }
      var player := seat.value;
      if CommitOf(t, player) != Committed(choice, nonce) { return Err(InvalidReveal); }
      if RevealedBy(record.attempts, player) { return Err(AlreadyRevealed); }
      if PendingBy(record.attempts, player, now) { return Err(ActionPending); }
      var first := FirstConfirmed(record.attempts);
      if first.None? && !MayLead(View(chain), player, now) { return Err(RevealWaiting); }
      var p := Facing(t, first);
      if p.at.txId !in deep
         || !Visible(chain, p.at.txId, Resolve(t.game.stake).value.pot, Covenant(StateOf(t.game, p.stage))) {
        return Err(ChainNotReady);
      }
      var built := Build(t.game, p.stage, p.at, MoveFor(first, player, choice, nonce, wallet));
      if built.Err? { return Err(CannotBuild(built.error)); }
      preparations := preparations[built.value := Preparation(player, choice, WinnerFor(t, first, player, choice),
          PayoutFor(t, first, player, choice))];
      if first.None? { claim := Some(Claim(player, now + REVEAL_CLAIM_TTL_MS)); }
      return Ok(built.value);
    }

    method SubmitReveal(chain: seq<Tx>, tx: Tx, accepted: bool, now: Millis) returns (ok: bool)
      modifies this
      ensures View(chain) == Submit(old(View(chain)), tx, accepted, now)
      ensures ok == Recorded(old(View(chain)), tx, accepted)
    {
      if tx !in preparations { return false; }
      var p := preparations[tx];
      ok := tx in sent || accepted;
      if ok {
        sent := sent + {tx};
        record := record.(attempts := record.attempts + [AttemptOf(tx, p, now)],
                          status := if p.winner.Some? then SettlementBroadcast else RevealBroadcast);
      }
      if claim.Some? && claim.value.player == p.player { claim := None; }
    }
  }
}
