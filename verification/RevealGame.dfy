/**
 The two ordered reveals of one joined game: preparing, submitting and confirming them, in any order
 and with any retries by either player, over a chain that spends every output at most once.
 Each call is one atomic step: its guard and its write happen together.
 */
module RevealGame {
  import opened Outcomes
  import opened Economics
  import opened Transactions
  import opened EscrowLedger
  import opened EscrowRuns

  type Millis = int

  const PENDING_RETRY_MS: Millis := 60_000
  const REVEAL_CLAIM_TTL_MS: Millis := 120_000

  datatype Status = JoinBroadcast | RevealBroadcast | FirstRevealed | SettlementBroadcast | Settled

  /** A broadcast attempt in the game record.  `prepared` stands for the hash of the prepared transaction;
      a lead names no winner. */
  datatype Attempt = Attempt(prepared: Tx, player: Player, choice: Choice, confirmed: bool,
                             winner: Option<Player>, payout: Key, submittedAt: Millis)
  {
    function Id(): TxId { TxIdOf(prepared) }
    predicate IsLead() { winner.None? }
  }

  datatype Record = Record(status: Status, attempts: seq<Attempt>, winner: Option<Player>, completed: bool)

  datatype Preparation = Preparation(player: Player, choice: Choice, winner: Option<Player>, payout: Key)

  datatype Claim = Claim(player: Player, expiresAt: Millis)

  /** The joined game: its terms, the joined stage, and the joined escrow output. */
  datatype Table = Table(game: Game, stage: Stage, escrow: Outpoint)

  datatype World = World(
    chain: seq<Tx>,
    record: Record,
    preparations: map<Tx, Preparation>,
    sent: set<Tx>,
    claim: Option<Claim>)

  datatype RevealError =
    | GameSettled | NotAPlayer | InvalidReveal | AlreadyRevealed | ActionPending | RevealWaiting
    | ChainNotReady | CannotBuild(cause: BuildError)

  predicate IsTable(t: Table) {
    t.stage.Ready? && DistinctKeys(t.game, t.stage) && Resolve(t.game.stake).Ok? && t.escrow.index == 0
  }

  function CommitOf(t: Table, player: Player): Commitment
    requires t.stage.Ready?
  {
    if player.Creator? then t.game.creatorCommit else t.stage.joinerCommit
  }

  /** The stage after `player` has led with `choice`. */
  function LedBy(t: Table, player: Player, choice: Choice): Stage
    requires t.stage.Ready?
  {
    Led(t.stage.joiner, t.stage.joinerCommit, player, choice)
  }

  // --- Reading the chain ---------------------------------------------------

  /** The node lists output zero of `id` with this value and script: it exists and nobody has spent it. */
  predicate Visible(chain: seq<Tx>, id: TxId, value: int, script: Script) {
    && !Spent(chain, Outpoint(id, 0))
    && exists i :: 0 <= i < |chain| && TxIdOf(chain[i]) == id
                   && chain[i].outputs != [] && chain[i].outputs[0].value == value
                       && chain[i].outputs[0].script == script
  }

  /** An attempt is answered once its expected output is visible and one DAA score old (`deep`). */
  predicate Confirmable(t: Table, chain: seq<Tx>, r: Attempt, deep: set<TxId>)
    requires IsTable(t)
  {
    var terms := Resolve(t.game.stake).value;
    r.Id() in deep &&
    if r.IsLead() then Visible(chain, r.Id(), terms.pot, Covenant(StateOf(t.game, LedBy(t, r.player, r.choice))))
    else Visible(chain, r.Id(), terms.settlementPayout, PayTo(r.payout))
  }

  // --- Confirmation refresh ------------------------------------------------

  function FirstConfirmed(attempts: seq<Attempt>): (r: Option<Attempt>)
    ensures r.Some? ==> r.value in attempts && r.value.confirmed
    ensures r.None? ==> forall a :: a in attempts ==> !a.confirmed
  {
    if attempts == [] then None
    else if attempts[0].confirmed then Some(attempts[0])
    else FirstConfirmed(attempts[1..])
  }

  /** The index, from `i` on, of the first pending attempt the chain has answered. */
  function FirstAnswered(t: Table, chain: seq<Tx>, attempts: seq<Attempt>, deep: set<TxId>, i: nat): (r: Option<nat>)
    requires IsTable(t) && i <= |attempts|
    ensures r.Some? ==> i <= r.value < |attempts| && !attempts[r.value].confirmed
                        && Confirmable(t, chain, attempts[r.value], deep)
    ensures r.None? ==> forall k :: i <= k < |attempts| && !attempts[k].confirmed ==>
                          !Confirmable(t, chain, attempts[k], deep)
    decreases |attempts| - i
  {
    if i == |attempts| then None
    else if !attempts[i].confirmed && Confirmable(t, chain, attempts[i], deep) then Some(i)
    else FirstAnswered(t, chain, attempts, deep, i + 1)
  }

  /** From `i` on: mark the answered attempt, drop every other pending attempt at its step. */
  function KeepAnswered(attempts: seq<Attempt>, k: nat, i: nat): seq<Attempt>
    requires k < |attempts| && i <= |attempts|
    decreases |attempts| - i
  {
    if i == |attempts| then []
    else KeptAt(attempts, k, i) + KeepAnswered(attempts, k, i + 1)
  }

  function KeptAt(attempts: seq<Attempt>, k: nat, i: nat): seq<Attempt>
    requires k < |attempts| && i < |attempts|
  {
    if i == k then [attempts[i].(confirmed := true)]
    else if !attempts[i].confirmed && attempts[i].IsLead() == attempts[k].IsLead() then []
    else [attempts[i]]
  }

  function SettledBy(attempts: seq<Attempt>): (r: Option<Attempt>)
    ensures r.Some? ==> r.value in attempts && r.value.confirmed && !r.value.IsLead()
    ensures r.None? ==> forall a :: a in attempts ==> !a.confirmed || a.IsLead()
  {
    if attempts == [] then None
    else if attempts[0].confirmed && !attempts[0].IsLead() then Some(attempts[0])
    else SettledBy(attempts[1..])
  }

  function Answered(record: Record, k: nat): Record
    requires k < |record.attempts|
  {
    var updated := KeepAnswered(record.attempts, k, 0);
    var settled := SettledBy(updated);
    if settled.Some? then Record(Settled, updated, settled.value.winner, true)
    else record.(attempts := updated, status := FirstRevealed)
  }

  /** Completing a game also forgets its preparations and its lead claim. */
  function Refresh(t: Table, w: World, deep: set<TxId>): World
    requires IsTable(t)
  {
    match FirstAnswered(t, w.chain, w.record.attempts, deep, 0)
    case None => w
    case Some(k) =>
      var saved := Answered(w.record, k);
      if SettledBy(saved.attempts).None? then w.(record := saved)
      else if w.record.completed then w
      else w.(record := saved, preparations := map[], claim := None)
  }

  // --- Preparing -----------------------------------------------------------

  predicate RevealedBy(attempts: seq<Attempt>, player: Player) {
    exists i :: 0 <= i < |attempts| && attempts[i].confirmed && attempts[i].player == player
  }

  predicate PendingBy(attempts: seq<Attempt>, player: Player, now: Millis) {
    exists i :: 0 <= i < |attempts| && !attempts[i].confirmed && attempts[i].player == player
        && now - attempts[i].submittedAt < PENDING_RETRY_MS
  }

  /** Only one player at a time may build a spend of the joined escrow. */
  predicate MayLead(w: World, player: Player, now: Millis) {
    && (forall i :: 0 <= i < |w.record.attempts| ==>
          w.record.attempts[i].confirmed || !w.record.attempts[i].IsLead() || w.record.attempts[i].player == player)
    && (w.claim.Some? && w.claim.value.expiresAt > now ==> w.claim.value.player == player)
  }

  /** What the next spend acts on: the joined escrow, or the continuation the lead left behind. */
  function Facing(t: Table, first: Option<Attempt>): Position
    requires t.stage.Ready?
  {
    if first.None? then Position(t.stage, t.escrow)
    else Position(LedBy(t, first.value.player, first.value.choice), Outpoint(first.value.Id(), 0))
  }

  datatype Wallet = Wallet(funding: seq<Coin>, fee: int, change: Option<Change>)

  function MoveFor(first: Option<Attempt>, player: Player, choice: Choice, nonce: string, wallet: Wallet): Move {
    if first.None? then Lead(player, choice, nonce, wallet.funding, wallet.fee, wallet.change)
    else Settle(player, choice, nonce, wallet.funding, wallet.fee, wallet.change)
  }

  function WinnerFor(t: Table, first: Option<Attempt>, player: Player, choice: Choice): Option<Player>
    requires t.stage.Ready?
  {
    if first.None? then None else Some(Winner(t.game, Facing(t, first).stage, player, choice))
  }

  function PayoutFor(t: Table, first: Option<Attempt>, player: Player, choice: Choice): Key
    requires t.stage.Ready?
  {
    var winner := WinnerFor(t, first, player, choice);
    KeyOf(t.game, t.stage, if winner.Some? then winner.value else player)
  }

  function PrepareRefreshed(t: Table, w: World, player: Player, choice: Choice, nonce: string, wallet: Wallet,
          now: Millis, deep: set<TxId>)
    : Result<World, RevealError>
    requires IsTable(t)
  {
    if w.record.status.Settled? then Err(GameSettled)
    else if CommitOf(t, player) != Committed(choice, nonce) then Err(InvalidReveal)
    else if RevealedBy(w.record.attempts, player) then Err(AlreadyRevealed)
    else if PendingBy(w.record.attempts, player, now) then Err(ActionPending)
    else
      var first := FirstConfirmed(w.record.attempts);
      if first.None? && !MayLead(w, player, now) then Err(RevealWaiting)
      else
        var p := Facing(t, first);
        if p.at.txId !in deep
           || !Visible(w.chain, p.at.txId, Resolve(t.game.stake).value.pot, Covenant(StateOf(t.game, p.stage)))
               then Err(ChainNotReady)
        else match Build(t.game, p.stage, p.at, MoveFor(first, player, choice, nonce, wallet))
          case Err(e) => Err(CannotBuild(e))
          case Ok(tx) =>
            var held := Preparation(player, choice, WinnerFor(t, first, player, choice),
                PayoutFor(t, first, player, choice));
            Ok(w.(preparations := w.preparations[tx := held],
                  claim := if first.None? then Some(Claim(player, now + REVEAL_CLAIM_TTL_MS)) else w.claim))
  }

  function Prepare(t: Table, w: World, player: Player, choice: Choice, nonce: string, wallet: Wallet, now: Millis,
          deep: set<TxId>): World
    requires IsTable(t)
  {
    var refreshed := Refresh(t, w, deep);
    match PrepareRefreshed(t, refreshed, player, choice, nonce, wallet, now, deep)
    case Err(_) => refreshed
    case Ok(next) => next
  }

  // --- Submitting ----------------------------------------------------------

  /** A preparation that was already broadcast is recorded again without a second broadcast; otherwise
      the node may accept or reject it. */
  predicate Recorded(w: World, tx: Tx, accepted: bool) {
    tx in w.preparations && (tx in w.sent || accepted)
  }

  function Released(w: World, player: Player): Option<Claim> {
    if w.claim.Some? && w.claim.value.player == player then None else w.claim
  }

  function AttemptOf(tx: Tx, p: Preparation, now: Millis): Attempt {
    Attempt(tx, p.player, p.choice, false, p.winner, p.payout, now)
  }

  function Submit(w: World, tx: Tx, accepted: bool, now: Millis): World {
    if tx !in w.preparations then w
    else
      var p := w.preparations[tx];
      if !Recorded(w, tx, accepted) then w.(claim := Released(w, p.player))
      else
        w.(record := w.record.(attempts := w.record.attempts + [AttemptOf(tx, p, now)],
                               status := if p.winner.Some? then SettlementBroadcast else RevealBroadcast),
           sent := w.sent + {tx}, claim := Released(w, p.player))
  }

  // --- The permissionless timeout ------------------------------------------

  function ConfirmedCount(attempts: seq<Attempt>): nat {
    if attempts == [] then 0 else (if attempts[0].confirmed then 1 else 0) + ConfirmedCount(attempts[1..])
  }

  /** The timeout keeper's move for a joined game whose current escrow output is `age` DAA scores old.
      `current` tells whether that output is still listed. */
  function TimeoutMove(record: Record, current: bool, age: int): Option<Move> {
    if ConfirmedCount(record.attempts) > 1 || record.status.Settled? || !current then None
    else if ConfirmedCount(record.attempts) == 0 then if age >= NO_REVEAL_REFUND_DAA_OFFSET then Some(RefundAll)
        else None
    else if age >= FALLBACK_CLAIM_DAA_OFFSET then Some(FallbackClaim) else None
  }

  // --- Runs ----------------------------------------------------------------

  datatype Event =
    | OnPrepare(player: Player, choice: Choice, nonce: string, wallet: Wallet, now: Millis, deep: set<TxId>)
    | OnSubmit(tx: Tx, accepted: bool, now: Millis)
    | OnRefresh(deep: set<TxId>)
    | OnForget(tx: Tx)
    | OnMine(tx: Tx)

  ghost predicate Possible(w: World, e: Event) {
    e.OnMine? ==> NoDoubleSpend(w.chain + [e.tx])
  }

  function React(t: Table, w: World, e: Event): World
    requires IsTable(t)
  {
    match e
    case OnPrepare(player, choice, nonce, wallet, now, deep) => Prepare(t, w, player, choice, nonce, wallet, now, deep)
    case OnSubmit(tx, accepted, now) => Submit(w, tx, accepted, now)
    case OnRefresh(deep) => Refresh(t, w, deep)
    case OnForget(tx) => w.(preparations := w.preparations - {tx})
    case OnMine(tx) => w.(chain := w.chain + [tx])
  }

  function RunEvents(t: Table, w: World, events: seq<Event>): World
    requires IsTable(t)
    decreases |events|
  {
    if events == [] then w else RunEvents(t, React(t, w, events[0]), events[1..])
  }

  ghost predicate PossibleRun(t: Table, w: World, events: seq<Event>)
    requires IsTable(t)
    decreases |events|
  {
    events == [] || (Possible(w, events[0]) && PossibleRun(t, React(t, w, events[0]), events[1..]))
  }

  /** A freshly joined game. */
  ghost predicate Start(w: World) {
    NoDoubleSpend(w.chain) && w.record == Record(JoinBroadcast, [], None, false) && w.preparations == map[]
        && w.sent == {} && w.claim.None?
  }
}
