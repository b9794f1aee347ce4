/**
 The matchmaking store as a value: what one persisted snapshot holds, and what every
 queued mutation makes of it.  A mutation that throws is an `Err`, and persists nothing.
 */
module MatchData {
  import opened Outcomes

  type Address = string
  type MatchId = string
  type GameId = string
  type Millis = int

  const MATCH_WAIT_TIMEOUT_MS: Millis := 30_000
  const BOT_UNFUNDED_TIMEOUT_MS: Millis := 300_000
  const GAME_RESULT_RETENTION_MS: Millis := 360_000
  const MIN_STAKE_KAS := 1.0
  const DEFAULT_LIMIT_KAS := 1.0

  datatype Status = Waiting | Matched | Started | Cancelled
  datatype Side = Even | Odd
  datatype Role = Creator | Joiner

  /** A wallet as it arrives in a request. */
  datatype Wallet = Wallet(address: Address, publicKey: string)

  datatype Seat = Seat(wallet: Wallet, limitKas: Option<real>, joinedAt: Millis, lastSeenAt: Millis)

  datatype Match = Match(
    status: Status,
    isPrivate: bool,
    code: Option<string>,
    stakeKas: Option<real>,
    players: seq<Seat>,
    creatorIndex: Option<nat>,
    creatorSide: Option<Side>,
    createdAt: Millis,
    botAddress: Option<Address>,
    botClaimedAt: Option<Millis>,
    gameId: Option<GameId>)

  /** The fields of a game record that the store itself looks at. */
  datatype Game = Game(matchId: Option<MatchId>, joiner: Option<Address>, createdAt: Millis,
      completedAt: Option<Millis>)

  datatype Lease = Lease(matchId: MatchId, botAddress: Address, acquiredAt: Millis)

  datatype Data = Data(
    matches: map<MatchId, Match>,
    queue: seq<MatchId>,
    games: map<GameId, Game>,
    lease: Option<Lease>)

  const EMPTY := Data(map[], [], map[], None)

  datatype StoreError =
    | CodeTaken | MatchNotFound | MatchFull | MatchNotReady | NotAPlayer
    | BotBusy | BotNotReady
    | GameNotFound | GameCancelled | GameAlreadyJoined

  // --- Reading a match -----------------------------------------------------

  predicate IsLive(m: Match) {
    m.status.Waiting? || m.status.Matched?
  }

  predicate IsPublicWaiting(m: Match) {
    m.status.Waiting? && !m.isPrivate
  }

  predicate Seated(m: Match, address: Address) {
    exists i :: 0 <= i < |m.players| && m.players[i].wallet.address == address
  }

  /** The seats whose presence keeps a match alive: the bot never polls. */
  function Humans(players: seq<Seat>, bot: Option<Address>): seq<Seat> {
    if players == [] then []
    else (if bot == Some(players[0].wallet.address) then [] else [players[0]]) + Humans(players[1..], bot)
  }

  function Earliest(players: seq<Seat>): Millis
    requires players != []
  {
    if |players| == 1 then players[0].lastSeenAt
    else var rest := Earliest(players[1..]); if players[0].lastSeenAt < rest then players[0].lastSeenAt else rest
  }

  /** No seat at all counts as never seen. */
  predicate IsIdle(m: Match, now: Millis) {
    var humans := Humans(m.players, m.botAddress);
    var seats := if humans != [] then humans else m.players;
    seats == [] || now - Earliest(seats) > MATCH_WAIT_TIMEOUT_MS
  }

  function SeatFor(wallet: Wallet, limitKas: Option<real>, now: Millis): Seat {
    Seat(wallet, limitKas, now, now)
  }

  function AssignedSide(m: Match, index: nat): Side {
    if m.creatorSide == Some(if m.creatorIndex == Some(index) then Even else Odd) then Even else Odd
  }

  function AssignedRole(m: Match, index: nat): Option<Role> {
    if m.status.Waiting? then None
    else if m.creatorIndex == Some(index) then Some(Creator)
    else Some(Joiner)
  }

  // --- The shared clean-up steps -------------------------------------------

  predicate BotHasLiveGame(games: map<GameId, Game>, bot: Address) {
    exists g :: g in games && games[g].joiner == Some(bot) && games[g].completedAt.None?
  }

  function CancelAll(matches: map<MatchId, Match>, ids: set<MatchId>): map<MatchId, Match> {
    map id | id in matches :: if id in ids then matches[id].(status := Cancelled) else matches[id]
  }

  /** The lease after the matches `ids` end: it stays held while the bot still plays a game. */
  function LeaseAfter(lease: Option<Lease>, ids: set<MatchId>, games: map<GameId, Game>): Option<Lease> {
    if lease.Some? && lease.value.matchId in ids && !BotHasLiveGame(games, lease.value.botAddress) then None else lease
  }

  function PruneQueue(queue: seq<MatchId>, matches: map<MatchId, Match>): seq<MatchId> {
    if queue == [] then []
    else (if queue[0] in matches && IsPublicWaiting(matches[queue[0]]) then [queue[0]] else [])
         + PruneQueue(queue[1..], matches)
  }

  function Without(queue: seq<MatchId>, id: MatchId): seq<MatchId> {
    if queue == [] then []
    else (if queue[0] == id then [] else [queue[0]]) + Without(queue[1..], id)
  }

  function Retire(d: Data, ids: set<MatchId>): Data {
    var matches := CancelAll(d.matches, ids);
    Data(matches, PruneQueue(d.queue, matches), d.games, LeaseAfter(d.lease, ids, d.games))
  }

  function IdleIds(d: Data, now: Millis): set<MatchId> {
    set id | id in d.matches && IsLive(d.matches[id]) && IsIdle(d.matches[id], now)
  }

  function LiveIdsOf(d: Data, address: Address): set<MatchId> {
    set id | id in d.matches && IsLive(d.matches[id]) && Seated(d.matches[id], address)
  }

  function Sweep(d: Data, now: Millis): Data {
    Retire(d, IdleIds(d, now))
  }

  function CancelFor(d: Data, address: Address): Data {
    Retire(d, LiveIdsOf(d, address))
  }

  // --- Operations ----------------------------------------------------------

  function LimitOf(limitKas: Option<real>): real {
    if limitKas.Some? && limitKas.value >= MIN_STAKE_KAS then limitKas.value else DEFAULT_LIMIT_KAS
  }

  /** Joining the public queue; `coin` and `side` are the two random draws of a pairing. */
  function JoinMatchmaking(d: Data, matchId: MatchId, wallet: Wallet, limitKas: Option<real>,
                           coin: nat, side: Side, now: Millis): Data
  {
    var ready := CancelFor(Sweep(d, now), wallet.address);
    EnterQueue(ready, matchId, SeatFor(wallet, Some(LimitOf(limitKas)), now), coin, side, now)
  }

  function EnterQueue(d: Data, matchId: MatchId, seat: Seat, coin: nat, side: Side, now: Millis): Data {
    match FirstWaiting(d.queue, d.matches)
    case None =>
      var m := Match(Waiting, false, None, None, [seat], None, None, now, None, None, None);
      d.(matches := d.matches[matchId := m], queue := d.queue + [matchId])
    case Some(id) =>
      d.(matches := d.matches[id := Paired(d.matches[id], seat, coin, side)], queue := Without(d.queue, id))
  }

  function FirstWaiting(queue: seq<MatchId>, matches: map<MatchId, Match>): (r: Option<MatchId>)
    ensures r.Some? ==> r.value in queue && r.value in matches && IsPublicWaiting(matches[r.value])
    ensures r.None? ==> forall id :: id in queue && id in matches ==> !IsPublicWaiting(matches[id])
  {
    if queue == [] then None
    else if queue[0] in matches && IsPublicWaiting(matches[queue[0]]) then Some(queue[0])
    else FirstWaiting(queue[1..], matches)
  }

  function SeatLimit(seat: Seat): real {
    if seat.limitKas.Some? then seat.limitKas.value else DEFAULT_LIMIT_KAS
  }

  /** The stake of a pairing is the lower of the two limits. */
  function Paired(m: Match, seat: Seat, coin: nat, side: Side): Match {
    var mine := SeatLimit(seat);
    var first := if m.players == [] then mine else SeatLimit(m.players[0]);
    m.(players := m.players + [seat], stakeKas := Some(if first < mine then first else mine),
       status := Matched, creatorIndex := Some(coin), creatorSide := Some(side))
  }

  /** An empty code is never compared, exactly as a missing one. */
  predicate CodeInUse(matches: map<MatchId, Match>, code: Option<string>) {
    code.Some? && code.value != "" &&
    exists id :: id in matches && matches[id].isPrivate && matches[id].code == code && IsLive(matches[id])
  }

  function CreatePrivate(d: Data, matchId: MatchId, wallet: Wallet, stakeKas: real, code: Option<string>,
                         side: Side, now: Millis): Result<Data, StoreError>
  {
    OpenRoom(CancelFor(Sweep(d, now), wallet.address), matchId, wallet, stakeKas, code, side, now)
  }

  function OpenRoom(d: Data, matchId: MatchId, wallet: Wallet, stakeKas: real, code: Option<string>,
                    side: Side, now: Millis): Result<Data, StoreError>
  {
    if CodeInUse(d.matches, code) then Err(CodeTaken)
    else
      var m := Match(Waiting, true, code, Some(stakeKas), [SeatFor(wallet, Some(stakeKas), now)],
                     None, Some(side), now, None, None, None);
      Ok(d.(matches := d.matches[matchId := m]))
  }

  function TakeSeat(m: Match, wallet: Wallet, now: Millis): Result<Match, StoreError> {
    if Seated(m, wallet.address) then Ok(m)
    else if !m.status.Waiting? || |m.players| != 1 then Err(MatchFull)
    else Ok(m.(players := m.players + [SeatFor(wallet, m.stakeKas, now)],
               status := Matched, creatorIndex := Some(0)))
  }

  predicate IsOpenRoom(d: Data, id: MatchId) {
    id in d.matches && d.matches[id].isPrivate && IsLive(d.matches[id])
  }

  function JoinPrivate(d: Data, id: MatchId, wallet: Wallet, now: Millis): Result<Data, StoreError> {
    EnterRoom(Sweep(d, now), id, wallet, now)
  }

  function EnterRoom(d: Data, id: MatchId, wallet: Wallet, now: Millis): Result<Data, StoreError> {
    if !IsOpenRoom(d, id) then Err(MatchNotFound)
    else match TakeSeat(d.matches[id], wallet, now)
      case Err(e) => Err(e)
      case Ok(m) => Ok(d.(matches := d.matches[id := m]))
  }

  /** What looking a code up may answer: any live private room carrying it, or nothing if there is none. */
  ghost predicate Resolves(d: Data, code: string, found: Option<MatchId>) {
    match found
    case Some(id) => IsOpenRoom(d, id) && d.matches[id].code == Some(code)
    case None => forall id :: IsOpenRoom(d, id) ==> d.matches[id].code != Some(code)
  }

  function JoinByCode(d: Data, found: Option<MatchId>, wallet: Wallet, now: Millis): Result<Data, StoreError> {
    match found
    case None => Err(MatchNotFound)
    case Some(id) => JoinPrivate(d, id, wallet, now)
  }

  function ClaimForBot(d: Data, id: MatchId, bot: Wallet, minWaitMs: Millis, side: Side,
          now: Millis): Result<Data, StoreError>
  {
    SeatBot(Sweep(d, now), id, bot, minWaitMs, side, now)
  }

  function SeatBot(d: Data, id: MatchId, bot: Wallet, minWaitMs: Millis, side: Side,
          now: Millis): Result<Data, StoreError>
  {
    if id !in d.matches || !IsPublicWaiting(d.matches[id]) || |d.matches[id].players| != 1 then Err(MatchNotReady)
    else if d.lease.Some? then Err(BotBusy)
    else if now - d.matches[id].createdAt < minWaitMs then Err(BotNotReady)
    else Ok(Data(d.matches[id := Claimed(d.matches[id], bot, side, now)], Without(d.queue, id), d.games,
                 Some(Lease(id, bot.address, now))))
  }

  /** The bot always joins, never creates, and always plays for the minimum. */
  function Claimed(m: Match, bot: Wallet, side: Side, now: Millis): Match {
    m.(players := m.players + [SeatFor(bot, Some(MIN_STAKE_KAS), now)], stakeKas := Some(MIN_STAKE_KAS),
       status := Matched, creatorIndex := Some(0), creatorSide := Some(side),
       botAddress := Some(bot.address), botClaimedAt := Some(now))
  }

  /** `id` absent releases whatever lease is held. */
  function ReleaseLease(d: Data, id: Option<MatchId>): Data {
    if d.lease.None? || (id.Some? && d.lease.value.matchId != id.value) then d
    else d.(lease := LeaseAfter(d.lease, {d.lease.value.matchId}, d.games))
  }

  function Touch(d: Data, id: MatchId, address: Address, now: Millis): Data {
    if id !in d.matches then d
    else d.(matches := d.matches[id := d.matches[id].(players := TouchFirst(d.matches[id].players, address, now))])
  }

  function TouchFirst(players: seq<Seat>, address: Address, now: Millis): (r: seq<Seat>)
    ensures |r| == |players|
    ensures forall i :: 0 <= i < |r| ==> r[i] == players[i].(lastSeenAt := r[i].lastSeenAt)
  {
    if players == [] then []
    else if players[0].wallet.address == address then [players[0].(lastSeenAt := now)] + players[1..]
    else [players[0]] + TouchFirst(players[1..], address, now)
  }

  function DropSeats(players: seq<Seat>, address: Address): seq<Seat> {
    if players == [] then []
    else (if players[0].wallet.address == address then [] else [players[0]]) + DropSeats(players[1..], address)
  }

  function Leave(d: Data, id: MatchId, address: Address): Data {
    if id !in d.matches then d
    else
      var m := d.matches[id].(players := DropSeats(d.matches[id].players, address));
      if !IsLive(m) then d.(matches := d.matches[id := m])
      else Data(d.matches[id := m.(status := Cancelled)], Without(d.queue, id), d.games,
          LeaseAfter(d.lease, {id}, d.games))
  }

  // --- The two uses of a targeted match update, and the game records --------

  function IndexOf(players: seq<Seat>, address: Address): (r: Option<nat>)
    ensures r.Some? ==> r.value < |players| && players[r.value].wallet.address == address
    ensures r.None? ==> forall i :: 0 <= i < |players| ==> players[i].wallet.address != address
  {
    if players == [] then None
    else if players[0].wallet.address == address then Some(0)
    else match IndexOf(players[1..], address)
      case None => None
      case Some(i) => Some(i + 1)
  }

  /** Publishing a created game in its match: the creator's seat only, and only once. */
  function Attach(d: Data, id: MatchId, gameId: GameId, creator: Address): Result<Data, StoreError> {
    if id !in d.matches then Err(MatchNotFound)
    else
      var m := d.matches[id];
      var index := IndexOf(m.players, creator);
      if index.None? then Err(NotAPlayer)
      else if !m.status.Matched? || index != m.creatorIndex then Err(MatchNotReady)
      else Ok(d.(matches := d.matches[id := m.(gameId := Some(gameId), status := Started)]))
  }

  /** A submitted creation replaces the record first and publishes it afterwards, so a refused
      publication leaves the fresh record behind. */
  function SubmitCreation(d: Data, gameId: GameId, matchId: Option<MatchId>, creator: Address, now: Millis): Data {
    var saved := d.(games := d.games[gameId := Game(matchId, None, now, None)]);
    if matchId.None? then saved
    else match Attach(saved, matchId.value, gameId, creator)
      case Err(_) => saved
      case Ok(attached) => attached
  }

  predicate MayJoin(d: Data, id: MatchId, gameId: GameId, joiner: Address) {
    id in d.matches &&
    var m := d.matches[id];
    var index := IndexOf(m.players, joiner);
    index.Some? && m.status.Started? && m.gameId == Some(gameId) && index != m.creatorIndex
  }

  function SubmitJoin(d: Data, gameId: GameId, joiner: Address): Result<Data, StoreError> {
    if gameId !in d.games then Err(GameNotFound)
    else
      var game := d.games[gameId];
      if game.completedAt.Some? then Err(GameCancelled)
      else if game.matchId.Some? && !MayJoin(d, game.matchId.value, gameId, joiner) then Err(MatchNotReady)
      else if game.joiner.Some? then Err(GameAlreadyJoined)
      else Ok(d.(games := d.games[gameId := game.(joiner := Some(joiner))]))
  }

  function CompleteGame(d: Data, gameId: GameId, now: Millis): Data {
    if gameId !in d.games then d
    else
      var game := d.games[gameId];
      var ended := game.(completedAt := if game.completedAt.Some? then game.completedAt else Some(now));
      var games := d.games[gameId := ended];
      if game.matchId.None? then d.(games := games)
      else Data(d.matches - {game.matchId.value}, Without(d.queue, game.matchId.value), games,
                LeaseAfter(d.lease, {game.matchId.value}, games))
  }

  predicate IsExpired(game: Game, now: Millis) {
    game.completedAt.Some? && now - game.createdAt >= GAME_RESULT_RETENTION_MS
  }

  function PruneCompleted(d: Data, now: Millis): Data {
    d.(games := map g | g in d.games && !IsExpired(d.games[g], now) :: d.games[g])
  }

  /** The bot's own time-out: a claimed match whose human never published a game. */
  function ExpireUnfunded(d: Data, id: MatchId, bot: Address, now: Millis): Data {
    if id in d.matches && d.matches[id].botAddress == Some(bot) && d.matches[id].status.Matched?
       && d.matches[id].gameId.None? && d.matches[id].botClaimedAt.Some?
       && now - d.matches[id].botClaimedAt.value > BOT_UNFUNDED_TIMEOUT_MS
    then d.(matches := d.matches[id := d.matches[id].(status := Cancelled)])
    else d
  }

  // --- Runs ----------------------------------------------------------------

  datatype Op =
    | OpJoin(id: MatchId, wallet: Wallet, limitKas: Option<real>, coin: nat, side: Side, now: Millis)
    | OpCreateRoom(id: MatchId, wallet: Wallet, stakeKas: real, code: Option<string>, side: Side, now: Millis)
    | OpJoinRoom(id: MatchId, wallet: Wallet, now: Millis)
    | OpJoinByCode(lookup: string, found: Option<MatchId>, wallet: Wallet, now: Millis)
    | OpClaim(id: MatchId, bot: Wallet, minWaitMs: Millis, side: Side, now: Millis)
    | OpReleaseLease(release: Option<MatchId>)
    | OpTouch(id: MatchId, address: Address, now: Millis)
    | OpLeave(id: MatchId, address: Address)
    | OpSubmitCreation(gameId: GameId, matchId: Option<MatchId>, address: Address, now: Millis)
    | OpSubmitJoin(gameId: GameId, address: Address)
    | OpCompleteGame(gameId: GameId, now: Millis)
    | OpPrune(now: Millis)
    | OpExpire(id: MatchId, now: Millis)

  function OrUnchanged(r: Result<Data, StoreError>, d: Data): Data {
    match r
    case Ok(next) => next
    case Err(_) => d
  }

  function Apply(d: Data, op: Op, bot: Address): Data {
    match op
    case OpJoin(id, wallet, limitKas, coin, side, now) => JoinMatchmaking(d, id, wallet, limitKas, coin, side, now)
    case OpCreateRoom(id, wallet, stakeKas, code, side, now) =>
        OrUnchanged(CreatePrivate(d, id, wallet, stakeKas, code, side, now), d)
    case OpJoinRoom(id, wallet, now) => OrUnchanged(JoinPrivate(d, id, wallet, now), d)
    case OpJoinByCode(_, found, wallet, now) => OrUnchanged(JoinByCode(d, found, wallet, now), d)
    case OpClaim(id, botWallet, minWaitMs, side, now) =>
        OrUnchanged(ClaimForBot(d, id, botWallet, minWaitMs, side, now), d)
    case OpReleaseLease(id) => ReleaseLease(d, id)
    case OpTouch(id, address, now) => Touch(d, id, address, now)
    case OpLeave(id, address) => Leave(d, id, address)
    case OpSubmitCreation(gameId, matchId, address, now) => SubmitCreation(d, gameId, matchId, address, now)
    case OpSubmitJoin(gameId, address) => OrUnchanged(SubmitJoin(d, gameId, address), d)
    case OpCompleteGame(gameId, now) => CompleteGame(d, gameId, now)
    case OpPrune(now) => PruneCompleted(d, now)
    case OpExpire(id, now) => ExpireUnfunded(d, id, bot, now)
  }

  /** An identifier drawn at random is one nobody has used yet. */
  ghost predicate IsFresh(d: Data, id: MatchId) {
    && id !in d.matches
    && (d.lease.Some? ==> d.lease.value.matchId != id)
    && (forall g :: g in d.games ==> d.games[g].matchId != Some(id))
  }

  /** What the callers of the store guarantee.  People never play from the bot's own wallet; the bot
      joins published match games only; the lease is released for a match the bot saw cancelled or
      for the match of a finished game it had joined; a resubmitted creation keeps its match. */
  ghost predicate Admissible(d: Data, op: Op, bot: Address) {
    match op
    case OpJoin(id, wallet, _, coin, _, _) => IsFresh(d, id) && wallet.address != bot && coin < 2
    case OpCreateRoom(id, wallet, _, _, _, _) => IsFresh(d, id) && wallet.address != bot
    case OpJoinRoom(_, wallet, _) => wallet.address != bot
    case OpJoinByCode(code, found, wallet, now) => wallet.address != bot && code != ""
        && Resolves(Sweep(d, now), code, found)
    case OpClaim(_, botWallet, _, _, _) => botWallet.address == bot
    case OpReleaseLease(release) =>
      release.Some? && ((release.value in d.matches && d.matches[release.value].status.Cancelled?)
                        || (exists g :: g in d.games && d.games[g].joiner == Some(bot) && d.games[g].completedAt.Some?
                                        && d.games[g].matchId == release))
    case OpSubmitCreation(gameId, matchId, _, _) => gameId in d.games ==> d.games[gameId].matchId == matchId
    case OpSubmitJoin(gameId, address) => gameId in d.games && d.games[gameId].matchId.None? ==> address != bot
    case _ => true
  }

  function Run(d: Data, ops: seq<Op>, bot: Address): Data
    decreases |ops|
  {
    if ops == [] then d else Run(Apply(d, ops[0], bot), ops[1..], bot)
  }

  ghost predicate AdmissibleRun(d: Data, ops: seq<Op>, bot: Address)
    decreases |ops|
  {
    ops == [] || (Admissible(d, ops[0], bot) && AdmissibleRun(Apply(d, ops[0], bot), ops[1..], bot))
  }
}
