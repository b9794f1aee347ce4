# KasOdds, verified

A Dafny model of KasOdds, a two-player commit-reveal wager escrowed on Kaspa, with proofs about it.
`dafny verify dfyconfig.toml` checks the whole project.

The model has four parts.

1. **Matchmaking and the bot lease.** `MatchData` is the persisted snapshot as a value and every queued
   mutation as a function on it; `MatchOperations` tells what each does to seats, times and games; `MatchStore` is the
   store as a class, one method per mutation, each proved equal to its function; `MatchInvariant` and `MatchTheorems`
   hold over every run of operations.
2. **A game over a spend-once ledger.** `Economics`, `Transactions` and `EscrowLedger` say what the service
   builds; `EscrowRuns` says what any chain without a double spend can do to one game's escrow. `RevealGame`,
   `RevealService`, `RevealSafety`, `RevealWaiting`, `RevealRetries` and `RevealExample` are the two ordered reveals
   with their retries, `RevealAnswers` what the calls answer, `RevealTimeouts` the timeout keeper beside them; `CrashRepair`, `CrashRepairRuns`,
   `CrashRepairLimits`, `CrashedCreations` and `CrashedLosses` the operation log and its repair.
3. **Building, pricing and checking transactions.** `Intent` (the wallet-side verifier), `FeeRepricing` (both
   fixed-point loops), `UtxoSelection`, `FundingCandidates`, `TerminalFunding`, `Encoding` (byte strings and their decoders),
   `Json`, `JsonText`, `StableJson`, `JsonEquality`, `SignedComparison` (canonical JSON and what a wallet may change).
4. **History and bounded stores.** `History`, `HistoryReport`, `HistoryResume`, `NamelessHistory`, `ExpiringStore`, `ExpiringStoreRuns`,
   `RateLimiter`, `RateLimiterRuns`, `Feedback`, `FeedbackRuns`.

`StableSort` is the language's own stable sort, shared by four of these; `Outcomes` holds the result types.

What the model takes for granted: each service call is one atomic step, its guard and its write together;
a transaction identifier is an injective function of everything but the signature scripts, and a commitment
an injective function of a choice and a nonce; serialisation is the identity; transaction mass is an
uninterpreted function; clocks, random draws, node answers and file-system answers are parameters.

## Where the code and its documentation disagree

The model follows the code. Each of these is proved, with the exact condition where one is known.

- `docs/http-api.md:245-246` says submissions are idempotent per preparation. The answer and the broadcast
  are; the game record is not. Submitting a first reveal again after it confirmed appends it again, the next
  refresh confirms it a second time, and the timeout keeper, which skips games with more than one confirmed
  reveal, never acts on the game again
  (`LeadDoublesIff`, `RetryingALeadLosesTheTimeout`). Submitting a creation again saves a blank record over the game
  (`ResubmissionHarmlessIff`, `ResubmissionForgets`).
- The comment at `src/backend-game-store.js:477` says a wallet holds one live session. Entering a private
  room does not retire the wallet's other sessions (`EnteringARoomKeepsOthers`, `TwoSessionsExist`).
- The repair of a crashed creation restores the game but not the match that should point at it, so the
  second player is refused until the creation is submitted again (`RepairedCreationJoinableIff`,
  `CrashesLeaveNoTraceIff`, `CrashesShowInOrphansOnly`).
- The reducer drops a checkpoint only when a removal names one of its transactions; its own checkpoints
  carry no block, so a removal by block leaves an orphaned transaction applied (`ReorganisedAppliedIff`,
  `RemovedBlockStaysApplied`) and can leave its state (`ReorganisedStateIff`). A falsy state does not survive a checkpoint (`ResumeEqualsReplay`), and an old
  confirmed event without an id is applied again (`ResumeEqualsReplayIff`).
- Two different values can share a canonical text: a number too large for a double and `null`
  (`InfinityPrintsAsNull`). Two different authorisations can share a covenant id: an output index is only
  required to be an integer, and only its low 32 bits are encoded (`CovenantIdsCollide`).
- The refund and reveal builder, on its own, accepts covenant coins as fee inputs, which the wallet-side
  verifier refuses (`TerminalAccepted`, `CovenantFundingRefused`). The join builder refuses them itself, and the
  service never offers them to the other (`ChosenIsPriced`).

## Model

| member | source | states |
|---|---|---|
| `MatchStore.PrunedQueue` | src/backend-game-store.js:514-516 | The queue loop keeps exactly the entries that are public waiting matches, in order. |
| `MatchStore.SweepIdle` | src/backend-game-store.js:461-475 | The sweep cancels exactly the live matches nobody was seen in, prunes the queue and releases the lease of a swept match unless the bot still plays. |
| `MatchStore.CancelActiveFor` | src/backend-game-store.js:478-488 | Every live match of the wallet is cancelled, nothing else, with the same queue and lease rules. |
| `MatchStore.FindByCode` | src/backend-game-store.js:242-250 | The scan finds a live private room with the code, or there is none. |
| `MatchStore.Store.Join` | src/backend-game-store.js:176-202 | The whole new state of joining the public queue: sweep, retire the wallet's sessions, pair with the first waiting match or wait. |
| `MatchStore.Store.OpenPrivate` | src/backend-game-store.js:206-227 | Opening a room, or refusing a code in use and persisting nothing. |
| `MatchStore.Store.EnterById` | src/backend-game-store.js:229-238 | Taking the second seat of a room by id, each refusal persisting nothing. |
| `MatchStore.Store.EnterByCode` | src/backend-game-store.js:242-250 | The same transition through whichever room the code leads to. |
| `MatchStore.Store.Claim` | src/backend-game-store.js:254-285 | The bot takes a waiting match only if the single lease is free, and then holds it. |
| `MatchStore.Store.Release` | src/backend-game-store.js:290-302 | The lease is released only for the named match and only while the bot plays no unfinished game. |
| `MatchStore.Store.SeenNow` | src/backend-game-store.js:322-328 | Only the wallet's seat is marked as seen. |
| `MatchStore.Store.PublishGame` | src/backend-game-service.js:1164-1187 | A created game is published in its match by the creator's seat only, and only while the match is matched. |
| `MatchStore.Store.ExpireClaim` | src/fallback-bot-service.js:76-87 | The bot cancels a claimed match whose human never published a game in time. |
| `MatchStore.Store.Abandon` | src/backend-game-store.js:343-355 | Leaving drops the wallet's seats and cancels a live match. |
| `MatchStore.Store.Complete` | src/backend-game-store.js:112-146 | Completing a game keeps its record and drops its match, queue entry and lease. |
| `MatchStore.Store.Prune` | src/backend-game-store.js:57-65 | Exactly the completed games past their retrieval window are removed. |
| `MatchOperations.SweepIs` | src/backend-game-store.js:461-475 | The sweep ends exactly the live matches in which nobody is seated, or somebody who counts was not seen for more than thirty seconds; the bot counts only where nobody else sits. |
| `MatchOperations.CancelForIs` | src/backend-game-store.js:478-488 | A new session ends exactly the live matches the wallet sits in. |
| `MatchOperations.JoinIs` | src/backend-game-store.js:176-202 | Whoever waits first is paired, for the lower of the two limits, with the drawn creator and side; otherwise the wallet waits; a limit below 1 KAS, or none, stands for 1 KAS. |
| `MatchOperations.CreateIs` | src/backend-game-store.js:206-227 | A room is refused exactly when a live room has its code, and otherwise waits with the stake its host named. |
| `MatchOperations.EnterIs` | src/backend-game-store.js:525-534 | Entering: the three refusals, the seated wallet that changes nothing, and the friend who takes the second seat for the stake of the room. |
| `MatchOperations.ClaimIs` | src/backend-game-store.js:254-285 | The bot's claim, with its three refusals in order: the second seat for 1 KAS, the person as creator, and the lease. |
| `MatchOperations.ReleaseIs` | src/backend-game-store.js:290-302 | A release ends the named lease, or any, exactly unless the bot still plays. |
| `MatchOperations.ExpireIs` | src/fallback-bot-service.js:76-87 | The bot gives up exactly a match it claimed more than five minutes ago and in which no game was published. |
| `MatchOperations.TouchIs` | src/backend-game-store.js:322-328 | A heartbeat marks one seat as seen now, and nothing else. |
| `MatchOperations.LeaveIs` | src/backend-game-store.js:343-355 | Leaving drops the wallet's seats; a live match ends with its place in the queue and its lease. |
| `MatchOperations.SubmitCreationIs` | src/backend-game-service.js:1164-1187 | A submitted creation saves a fresh record, and starts its match exactly if that is matched and the wallet has the creator's seat. |
| `MatchOperations.SubmitJoinIs` | src/backend-game-service.js:1199-1206 | The refusals of a join in order, and that otherwise only the game's joiner changes. |
| `MatchOperations.CompleteIs` | src/backend-game-store.js:112-146 | Completing keeps the time a game first ended and drops its match, queue entry and lease. |
| `MatchOperations.PruneIs` | src/backend-game-store.js:57-65 | Exactly the completed games that began six minutes ago are removed. |
| `MatchInvariant.ApplyKeeps` | src/backend-game-store.js:461-535 | Every operation keeps the store invariant: seats, queue, codes, lease and the links between games and matches. |
| `MatchInvariant.EveryRunKeeps` | src/backend-game-store.js:176-355 | So does every run, by induction over the operations. |
| `MatchTheorems.BotIsCommittedOnce` | src/backend-game-store.js:490-507 | In every reachable state a match the bot is bound to, or an unfinished game it joined, is the one the lease names; no lease means the bot is free; it never plays two games. |
| `MatchTheorems.QueueIsTheWaitingSet` | src/backend-game-store.js:514-516 | The queue is duplicate-free, is exactly the set of public waiting matches, and holds at most one. |
| `MatchTheorems.PairsAreFair` | src/matchmaking-service.js:154-184 | A matched pair is two different wallets on opposite sides with complementary roles; two people who met in public play for the lower of their limits, friends for the stake of their room, nobody for more than it agreed to. |
| `MatchTheorems.BotAlwaysJoinsForTheMinimum` | src/backend-game-store.js:254-285 | The bot is always the joiner of a public match at the minimum stake. |
| `MatchTheorems.CodeIsAnAlias` | src/backend-game-store.js:242-250 | Codes of live rooms are unique in every run, so joining by code is joining that one room by id. |
| `MatchTheorems.RoomAdmitsTwo` | src/backend-game-store.js:525-534 | Reconnecting to a room changes nothing, a third wallet is refused and changes nothing, and the second seat completes the pair. |
| `MatchTheorems.OpeningRetiresOthers` | src/backend-game-store.js:176-227 | Joining the queue or opening a room leaves the wallet exactly one live session. |
| `MatchTheorems.EnteringARoomKeepsOthers` | src/backend-game-store.js:229-238 | Entering a room leaves one live session if and only if the wallet had none elsewhere. |
| `MatchTheorems.TwoSessionsExist` | src/backend-game-store.js:229-238 | A concrete state in which entering a room leaves a wallet two live sessions. |
| `Economics.Resolve` | src/protocol.js:145-159 | Terms exist exactly from 1 KAS up; however a game ends, payouts, game fee and the automation fee of 0.016 KAS equal what was locked, which is the stake, and every payout is positive. |
| `Economics.GameFeeIsOnePercent` | src/protocol.js:116-119 | The game fee is one percent of the pot rounded down, charged from 100 KAS in the pot. |
| `Transactions.TerminalIsExact` | src/terminal-transactions.js:127-166 | A funded covenant spend pays exactly its stated fee and returns exactly the wallet's remainder. |
| `Transactions.JoinIsExact` | src/join-transactions.js:7-46 | A join locks exactly the pot, uses ordinary positive coins, and returns exactly the joiner's remainder. |
| `Transactions.TerminalBuiltIff` | src/terminal-transactions.js:127-166 | A funded covenant spend is built exactly when its wallet pays in, every amount is positive and the stated change is what is left; otherwise which error it is. |
| `Transactions.JoinBuiltIff` | src/join-transactions.js:7-46 | A join is built exactly when ordinary positive coins pay the other half of the pot and the fee and the stated change is what is left; otherwise which error it is. |
| `Transactions.CovenantOnlyBuiltIff` | src/terminal-transactions.js:168-189 | A permissionless settlement is built exactly when it pays something, only positive amounts, and less than it spends. |
| `EscrowLedger.EitherPlayerDecides` | src/reveal.js:99-103 | Each player's own choice decides the winner whatever the other does. |
| `EscrowLedger.CreatorWinsIff` | src/reveal.js:99-103 | The creator wins exactly when the choices are equal in an even game, or different in an odd one. |
| `EscrowLedger.BuiltIff` | src/terminal-transactions.js:33-189 | Each move can be built exactly from its one stage, from 1 KAS up, and if its wallet affords it: positive coins, a fee that is not negative, and the exact rest as change. |
| `EscrowLedger.BuildIsExact` | src/terminal-transactions.js:33-189 | Every transaction the service builds for a game spends its escrow coin first, begins with the escrow's own outputs and is exact to the sompi. |
| `EscrowLedger.EndingPaysAsPromised` | src/backend-game-service.js:471-536 | Who is paid what by each ending, and after which wait: the creator its stake, both their stakes less half the network fee, the player who revealed alone, or the winner by the two choices, with the game fee beside. |
| `EscrowLedger.ContinuationLeavesBehind` | src/backend-game-service.js:832-858 | A join and a first reveal leave the whole pot under the same covenant, in the state they lead to. |
| `EscrowLedger.BuildNamesItsPayees` | src/terminal-transactions.js:33-125 | The covenant is invoked by the entry of the move, and the keys it is given are the keys the outputs pay. |
| `EscrowLedger.RevealNamesThePlayer` | src/terminal-transactions.js:98-104 | A reveal also names the key of the player who makes it, and the game fee's. |
| `EscrowLedger.EndingConserves` | src/protocol.js:122-159 | Each way a game ends pays creator, joiner, game fee and automation fee exactly the escrow, and pays some player. |
| `EscrowRuns.SignedBuildIsAStep` | src/terminal-transactions.js:33-189 | Whatever the wallet signs into a build, the signed transaction on the chain is a step of the escrow, with the identifier of the build. |
| `EscrowRuns.StepPaysAsPromised` | src/terminal-transactions.js:33-189 | On the chain, too, each ending pays whom it promises, and what a continuation leaves is the next covenant coin. |
| `EscrowRuns.OneMeaning` | src/backend-game-service.js:832-858 | One transaction on the chain, signed by the wallet, cannot have been built for two continuations, or for a continuation and an ending. |
| `EscrowRuns.EndingIsTheFate` | src/terminal-transactions.js:33-189 | Every sequence of signed escrow steps on a spend-once chain that ends the game ends it with the same transaction. |
| `EscrowRuns.PaidAtMostOnce` | src/terminal-transactions.js:33-189 | The escrow is paid out at most once, whichever ending it is. |
| `EscrowRuns.HeldOrPaidInFull` | src/protocol.js:145-159 | At any moment the escrow is still held in full, or has been paid out in full to whom that ending promises. |
| `RevealService.Service.RefreshActionState` | src/backend-game-service.js:917-942 | The refresh loop confirms the first pending attempt the chain answered, drops the other pending attempts of its step, and completes a settled game. |
| `RevealService.Service.PrepareReveal` | src/backend-game-service.js:321-401 | The whole call, with its guards in the order of the source: a stranger and a refused player get the stated error and leave nothing but the refresh behind; a granted player gets the transaction built against what the refreshed record faces, and it is prepared. |
| `RevealService.Service.SubmitReveal` | src/backend-game-service.js:403-446 | A known preparation that was broadcast or is accepted is appended to the record; the lead claim is released either way. |
| `RevealAnswers.RefreshShowsTheChain` | src/backend-game-service.js:917-942 | A refresh confirms the first pending attempt whose output the chain shows, with its value and script and one score deep, drops the other pending attempts of that step and no others, settles the record exactly by a settlement, and otherwise does nothing. |
| `RevealAnswers.GrantedIff` | src/backend-game-service.js:321-401 | A player is granted a transaction exactly when the game is not settled, it opens its commitment, it has no confirmed reveal and none of the last minute, nobody else leads if nothing is confirmed yet, the coin it would spend is there, and its wallet can pay. |
| `RevealAnswers.GrantedIsRight` | src/backend-game-service.js:832-858 | What is granted first moves the escrow on and takes the lead for two minutes; what is granted second pays the pot, less the game fee, to the player whom the two choices make the winner. |
| `RevealAnswers.SubmissionIsRecorded` | src/backend-game-service.js:403-446 | What a submission records and releases, broadcast or refused. |
| `RevealSafety.OneFirstReveal` | src/backend-game-service.js:832-858 | Any two confirmed first reveals are the same transaction by the same player with the same choice. |
| `RevealSafety.StepKeeps` | src/backend-game-service.js:321-446 | Every step of either player, of the refresh and of the chain keeps the reveal invariant. |
| `RevealSafety.EveryRunIsFair` | src/backend-game-service.js:917-942 | In every run at most one settlement is confirmed, by the other player than the first reveal; every attempt opens its player's commitment; the recorded winner and the key paid are the creator's exactly when the two committed choices are equal in an even game or different in an odd one. |
| `RevealSafety.SettledIsTheFate` | src/backend-game-service.js:935-940 | A settled record means the chain has paid the pot, less the game fee, to the key that won. |
| `RevealWaiting.PreparingLeads` | src/backend-game-service.js:1032-1034 | A call that prepares a first reveal makes its player lead until the claim runs out. |
| `RevealWaiting.SubmittedLeadHasNoEnd` | src/backend-game-service.js:414-434 | Once the first reveal is submitted, the lead no longer depends on the clock. |
| `RevealWaiting.LeadingLastsIff` | src/backend-game-service.js:1023-1049 | A player who leads goes on leading over a step of either player, the chain or the store exactly unless a refresh confirms something or the node refuses a submission that only the claim stood for. |
| `RevealWaiting.RivalMustWaitIff` | src/backend-game-service.js:321-343 | While one player leads, the other's whole call, refresh included, is told to wait exactly when its refresh confirms nothing, and is granted only if the refresh confirmed the leader's own first reveal. |
| `RevealWaiting.OnlyOneLeads` | src/backend-game-service.js:1018-1041 | The same from the preparation of a first reveal on, over any run in which nothing ends the lead. |
| `RevealWaiting.OwnRetryMustWait` | src/backend-game-service.js:339-341 | For a minute after a recorded submission the player's whole call is refused, unless its refresh confirmed another attempt at the same step and so dropped the submitted one. |
| `RevealRetries.CarefulRunsRecordOneLead` | src/backend-game-service.js:465-536 | In a run that never resubmits a confirmed first reveal, at most one is recorded and the timeout keeper can always act. |
| `RevealRetries.LeadDoublesIff` | src/backend-game-service.js:403-440 | A submission and a refresh record a second first reveal exactly when the submission goes through, names the confirmed lead, and the chain still lists its continuation. |
| `RevealRetries.NeverTimesOutAgain` | src/backend-game-service.js:465-466 | Once two first reveals are recorded, the timeout keeper never acts on the game again. |
| `RevealTimeouts.OneEnding` | src/backend-game-service.js:451-552 | In every run of reveals and looks of the timeout keeper, a game that the keeper's settlement ended is never settled by a reveal, and a refund to both players ends only a game in which no first reveal was confirmed. |
| `RevealTimeouts.KeeperPaysTheRevealer` | src/backend-game-service.js:502-536 | In every run a game that the keeper ended pays the player who revealed, if one did, and refunds both players equally otherwise. |
| `RevealTimeouts.KeeperActsIff` | src/backend-game-service.js:451-545 | The keeper broadcasts a settlement exactly when the record is not settled, at most one reveal is confirmed, and the coin it would spend is there and 3000 scores old. |
| `RevealTimeouts.KeeperConfirmsIff` | src/backend-game-service.js:615-633 | A broadcast settlement stays the only one, and is confirmed exactly when the chain shows all its payouts unspent. |
| `RevealExample.RetryingALeadLosesTheTimeout` | docs/http-api.md:245-246 | From any freshly joined game, leading and then submitting the same reveal again is a possible run after which the timeout keeper never acts, although it could before. |
| `RevealExample.ExampleIsReady` | src/backend-game-service.js:321-446 | A concrete game in which that run can happen. |
| `CrashRepair.ReconcilePendingSubmissions` | src/backend-game-service.js:1275-1309 | The repair loop applies each logged operation in turn. |
| `CrashRepair.SubmitOperation` | src/backend-game-service.js:1316-1342 | The log entries a submission writes, in order: none for a broadcast or unfinished operation; otherwise first that it is under way, then broadcast exactly when one of at most four attempts was accepted, of which only transient refusals are followed by another, else failed; a retry keeps the time of its first entry. |
| `CrashRepairRuns.ShowsIff` | src/backend-game-service.js:1275-1309 | The repair leaves the games alone exactly when they already show the operation. |
| `CrashRepairRuns.RepairIsTheSave` | src/backend-game-service.js:1275-1309 | A crash between the log and the save, repaired, leaves the record the call would have saved, up to timestamps, for creation, join, creator refund and automatic settlement. |
| `CrashRepairRuns.JoinIsTakenIff` | src/backend-game-service.js:1199-1220 | A join is saved exactly if the game has none, no refund of it is confirmed and its match names it, and then as it was prepared. |
| `CrashRepairRuns.EndDropsOperations` | src/backend-game-store.js:112-146 | The end of a game drops exactly its operations, its match and the preparation of its creation. |
| `CrashRepairRuns.CrashesLeaveNoTraceIff` | src/backend-game-service.js:1206-1213 | Over every run, each call checking the store the crashes left it, the games are at every moment as if nothing had crashed, up to timestamps, exactly when no join finds its match otherwise than it would have; then a further repair changes nothing. |
| `CrashedCreations.CrashesShowInOrphansOnly` | src/backend-game-service.js:1280-1290 | If each match is given one game, that is exactly when no game whose creation was cut off before it reached its match is joined before the creation is submitted again. |
| `CrashedLosses.LossyRunsLeaveNoTraceIff` | src/backend-game-service.js:1275-1309 | The same for every run on one chain, also one whose resubmitted creations wipe joins, refunds and settlements: exactly when, besides, no call is cut off while something its record lost still waits for a repair. |
| `CrashedLosses.OneRepairFindsAll` | src/backend-game-service.js:1275-1309 | However much such a run has lost, one repair brings back every join, refund and settlement of its log. |
| `CrashRepairLimits.RepairTwiceIff` | src/backend-game-service.js:1275-1309 | Told from the store before the first repair, a second one changes nothing exactly when no game that the repair knows or can create has a join or a refund behind its last change of settlement in the log that neither the games nor an earlier operation show. |
| `CrashRepairLimits.EveryRunIsWellLogged` | src/backend-game-service.js:1316-1342 | What that asks of the log holds in every run: it names a game only after its creation, and its settlements have statuses of their own. |
| `CrashRepairLimits.RepairTwiceIsRepairOnce` | src/backend-game-service.js:1275-1309 | Without two broadcast settlements of one game a second repair changes nothing. |
| `CrashRepairLimits.LedgerRunsRepairOnce` | src/backend-game-service.js:1275-1309 | In every run on a ledger, where nothing spends the open escrow once the keeper has settled the joined one and the refund of an open escrow is one transaction, a second repair changes nothing, whatever crashes and is submitted again. |
| `CrashRepairLimits.LostRefundIsUndone` | src/backend-game-service.js:1295-1306 | Stores, which no such run reaches, whose second repair takes back the status of a repaired refund. |
| `CrashedCreations.RepairedCreationJoinableIff` | src/backend-game-service.js:1280-1290 | The second player may join a repaired game exactly when it belongs to no match. |
| `CrashedCreations.ResubmissionHarmlessIff` | src/backend-game-service.js:142-180 | Submitting a creation again leaves the record alone exactly if the game was not joined, refunded or settled since and no read wrote back another status or a reveal. |
| `CrashedCreations.ResubmissionForgets` | src/backend-game-service.js:142-180 | A resubmission drops the join and the reveals; a repair brings the join back and never a reveal. |
| `Intent.VerifyTransactionIntent` | src/transaction-intent.js:7-70 | The verifier as one pass with early refusals. |
| `Intent.AcceptedIff` | src/transaction-intent.js:7-70 | Exactly what is accepted: the announced covenant input field by field, the announced outputs, exact change, and at least one wallet input, all ordinary coins still to be signed and the announced ones. |
| `Intent.RefusedAs` | src/transaction-intent.js:17-66 | Which of the two errors a refusal is: invalid where the announcement or a signature is missing, a mismatch where the transaction is not the announced one. |
| `Intent.AcceptedMeansExact` | src/transaction-intent.js:7-70 | Acceptance implies the announced coin, invocation, sequence and lock time, the stated fee, the stated outputs in place, at most an exact change output to the approved script, clean wallet inputs, and the announced signing list. |
| `Intent.OwnIntentAccepted` | src/transaction-intent.js:72-93 | A transaction is accepted against its own intent exactly when it pays the stated fee and its inputs are as the verifier requires. |
| `Intent.OwnIntentFixes` | src/transaction-intent.js:72-93 | The intent announced for one transaction accepts another only if both begin with the same input and pay the same outputs at the same fee. |
| `Intent.TerminalAccepted` | src/terminal-transactions.js:127-166 | Every reveal and refund build is accepted exactly when no fee input is a covenant coin, and signs exactly the inputs behind the first. |
| `Intent.JoinAccepted` | src/join-transactions.js:7-46 | Every join build is accepted. |
| `Intent.CovenantFundingRefused` | src/terminal-transactions.js:136-149 | A concrete build with a covenant fee input that the verifier refuses; a property of the builder alone, whose caller in the service filters such coins first. |
| `Intent.BothSidesSignTheSame` | public/kasware-signing.js:9-23 | The browser's own choice of inputs to sign is the verified one. |
| `FeeRepricing.PrepareWithDynamicFee` | src/transaction-fee.js:7-28 | The repricing loop, with its round bound. |
| `FeeRepricing.OnlyFixedPoints` | src/transaction-fee.js:7-28 | It returns only a transaction whose fee is the ceiling of its own mass times the rate, built with the rest of what is available as its change. |
| `FeeRepricing.FoundIfReached` | src/transaction-fee.js:13-27 | It succeeds exactly when a fixed point is reached within the bound, and throws otherwise. |
| `FeeRepricing.FixedPointPassesBroadcastCheck` | src/transaction-mass.js:40-51 | With the same rate and standard signatures the broadcast check accepts such a transaction. |
| `FeeRepricing.BroadcastIff` | src/transaction-mass.js:40-51 | The broadcast check lets a transaction through exactly when it pays at least its mass times the rate. |
| `FeeRepricing.RepricedTerminalPasses` | src/terminal-transactions.js:136-149 | Repriced reveals and refunds pass the broadcast check. |
| `FeeRepricing.RepricedJoinPasses` | src/join-transactions.js:29-38 | Repriced joins pass the broadcast check. |
| `FeeRepricing.CreateGenesis` | src/wasm-transaction.js:19-91 | The creation pricing loop over the whole transaction, with its refusals and its consistency check. |
| `FeeRepricing.GenesisIsExact` | src/wasm-transaction.js:39-91 | A creation it returns locks the stake, pays inputs minus outputs equal to the ceiling of its own mass times the rate, and gives the rest back in one positive change output. |
| `FeeRepricing.PricedGenesisPasses` | src/backend-game-service.js:1364-1370 | Signed at standard size, a priced creation passes the broadcast check at its rate. |
| `FeeRepricing.GenesisFoundIfReached` | src/wasm-transaction.js:53-91 | Pricing succeeds exactly when the coins pay the bare transaction to the sompi or the change settles within the bound, fails for want of funds exactly when they do not pay it or the change runs out, and is given up otherwise. |
| `UtxoSelection.SelectOrdinaryUtxos` | src/fee-policy.js:31-56 | The accumulating loop takes the shortest largest-first prefix. |
| `UtxoSelection.FewestCoins` | src/fee-policy.js:31-56 | The selection takes listed coins that carry no covenant and are not excluded, the largest first, and reaches the target with as few as any choice of such coins; it fails for want of funds exactly when there are such coins but no choice of them reaches it, and the other failures are told apart. |
| `UtxoSelection.SelectionIgnoresOrder` | src/fee-policy.js:122-125 | For distinct outpoints the result does not depend on the order the node lists the coins in. |
| `FundingCandidates.ListsAreAll` | src/terminal-funding.js:95-106 | The nested loops meet exactly the increasing index lists of each size. |
| `FundingCandidates.ListFundingCandidates` | src/terminal-funding.js:75-116 | The loops list the selections in the order they are tried, the largest-first selection last, without two of the same coins; the cap of 600 never binds. |
| `FundingCandidates.CandidatesAreAll` | src/terminal-funding.js:86-113 | They are every combination of one to four pool coins that reaches the target and the largest-first selection, nothing else, no two alike. |
| `FundingCandidates.TriedInOrder` | src/terminal-funding.js:95-106 | Fewer coins are tried first, and among as many the smaller ones first, which decides between equally light candidates. |
| `FundingCandidates.PoolIsSmallest` | src/terminal-funding.js:80-84 | The pool is ten coins, none larger than any coin left out. |
| `FundingCandidates.PoolIsOrdered` | src/terminal-funding.js:80-84 | The pool is in order of amount, and of the text of the outpoint among equal amounts. |
| `FundingCandidates.ChosenAre` | src/terminal-funding.js:107-112 | The last candidate holds exactly the listed coins that the largest-first selection took. |
| `FundingCandidates.SelectFunding` | src/terminal-funding.js:33-63 | The first lightest candidate that can be priced and fits is kept; failure exactly when none does, with the error the source chooses. |
| `TerminalFunding.Select` | src/terminal-funding.js:25-63 | From the node's coins to the priced spend: success exactly when some candidate reprices within a storage mass of 500000, and then no candidate that reprices is lighter. |
| `TerminalFunding.ChosenIsPriced` | src/terminal-funding.js:28-48 | What is chosen holds no covenant coin and is the transaction built from its coins at a fee that is the price of that very transaction. |
| `TerminalFunding.PricedIff` | src/terminal-funding.js:33-48 | A candidate can be priced exactly when the fees that start from none settle within the rounds. |
| `Encoding.EncodeFixed` | src/reveal.js:196-204 | The byte loop writes the low bytes, least significant first. |
| `Encoding.CovenantPreimage` | src/genesis-transaction.js:11-39 | The chunk-pushing loop, with its refusals in order. |
| `Encoding.PreimageReadsBack` | src/genesis-transaction.js:11-39 | A decoder recovers outpoint, values, script versions, scripts, and indices up to 32 bits. |
| `Encoding.SameCovenantIff` | src/genesis-transaction.js:216-222 | Two authorisations share a preimage exactly when they agree with indices taken modulo 2^32. |
| `Encoding.SmallIndicesTell` | src/genesis-transaction.js:11-39 | With all indices below 2^32 different authorisations have different preimages. |
| `Encoding.CovenantIdsCollide` | src/genesis-transaction.js:23-27 | Two different authorisations with one covenant id. |
| `Encoding.GenesisCovenantIsUnique` | src/genesis-transaction.js:41-56 | For the creation path, which authorises output zero only, the id determines outpoint, value and script. |
| `Encoding.RevealPreimageBinds` | src/reveal.js:83-89 | The commitment preimage is the choice, seven zero bytes and the nonce, and determines both. |
| `Encoding.RevealPreimageIff` | src/reveal.js:83-89 | There is a preimage exactly for a choice of zero or one and a nonce of 32 bytes. |
| `Encoding.PushReadsBack` | src/terminal-transactions.js:357-366 | A script push is one length byte, or 77 and two, before the data, and is read back whole whatever follows it; only empty and oversized data are refused. |
| `StableJson.TextReadsBack` | src/genesis-transaction.js:173-179 | A quoted string is read back exactly, lone surrogates and control characters included. |
| `JsonText.EscapedIsWellFormed` | src/genesis-transaction.js:173-179 | Whatever a string holds, its text has no control character and surrogates in pairs only. |
| `JsonText.KeptAsItIs` | src/genesis-transaction.js:173-179 | A string that needs no escape is printed as it is. |
| `JsonText.EscapesAre` | src/genesis-transaction.js:173-179 | What each code unit is escaped to: five short forms, quote and backslash, and four digits for other control characters and lone surrogates. |
| `JsonText.MarksAre` | src/genesis-transaction.js:173-179 | The brackets, separators and literal names are those of section 2 and 3 of RFC 8259. |
| `StableJson.FlatIsUnique` | src/genesis-transaction.js:173-179 | The text of a value determines the value and where it ends. |
| `JsonEquality.PrintIsFlat` | src/genesis-transaction.js:173-179 | Sorting keys while printing is printing the value with sorted members. |
| `JsonEquality.CanonIffSame` | src/genesis-transaction.js:173-179 | Sorted values are equal exactly when the values were equal up to member order. |
| `JsonEquality.PrintsAlikeIff` | src/genesis-transaction.js:173-179 | Two parsed values have one canonical text exactly when what they show is equal up to member order (section 4 of RFC 8259). |
| `JsonEquality.FinitePrintsAlikeIff` | src/genesis-transaction.js:173-179 | Without an overflowed number: exactly when they are equal up to member order. |
| `JsonEquality.InfinityPrintsAsNull` | src/genesis-transaction.js:173-179 | An overflowed number and null are different values with one text. |
| `SignedComparison.SameByLookup` | src/genesis-transaction.js:166-179 | Two objects are equal up to member order exactly when looking any key up gives the same. |
| `SignedComparison.SigningChangesOnlySignatures` | src/genesis-transaction.js:114-124 | A signed creation compares equal to the prepared one exactly when they show the same under every key but the id, and in each input under every key but the signature script. |
| `History.ReduceGameHistory` | src/recovery.js:31-69 | The reducer as one pass over the sorted survivors. |
| `HistoryReport.ClassIs` | src/recovery.js:8-20 | A transaction is confirmed when something says so and nothing speaks against it, pending when it is merely seen. |
| `HistoryReport.GoesThrough` | src/recovery.js:36-40 | The reducer goes through exactly the events whose block and id were not removed, by rising score. |
| `HistoryReport.ReportSays` | src/recovery.js:41-64 | The reported state is the one set last by an event that is deep enough and was not applied before, or the one of the checkpoint that stands; the applied ids are those of the deep events and of the checkpoint; the pending ones are merely seen. |
| `HistoryReport.ReportCarries` | src/recovery.js:31-69 | The refusal of a depth below one, the status, and the checkpoint with the highest score. |
| `HistoryResume.ResumeEqualsReplay` | src/recovery.js:31-69 | Resuming from its own checkpoint applies what a full replay applies, in the same order, when the history grows later and old confirmed events carry ids; the state agrees exactly when the checkpoint could carry it or a later event replaces it. |
| `HistoryResume.ResumedPending` | src/recovery.js:47-64 | The pending list a resumed run reports is that of a full replay less what the checkpoint already applied. |
| `HistoryResume.ReorganisedResumeEqualsReplay` | src/recovery.js:36-46 | With removals named by transaction id, resuming equals replaying the survivors, under the same exact state condition. |
| `HistoryResume.ReplayIgnoresReportingOrder` | src/recovery.js:37-40 | Without shared scores the order events are reported in does not matter. |
| `HistoryResume.AppliedIsConfirmed` | src/recovery.js:48-58 | The applied list as a set is the ids of the confirmed events. |
| `HistoryResume.ReorganisedAppliedIff` | src/recovery.js:41-46 | With removals of any kind the applied transactions are right exactly when the checkpoint is dropped or none of its transactions lost its last confirmed event. |
| `HistoryResume.ReorganisedStateIff` | src/recovery.js:41-58 | With removals of any kind that keep the checkpoint, the resumed state is right exactly when the later events leave the same state over what the checkpoint carries as over what the surviving history gives, each skipping what it has applied already. |
| `HistoryResume.ReorganisedStateWithoutReturns` | src/recovery.js:41-58 | If no later event bears the id of an orphaned one, exactly when a later event sets the state or the checkpoint carries that of the surviving history. |
| `HistoryResume.RemovedBlockStaysApplied` | src/recovery.js:41-46 | An event whose block is removed is still reported applied. |
| `NamelessHistory.ResumeEqualsReplayIff` | src/recovery.js:48-58 | Whatever the old events: a resumed run applies what a full replay applies exactly when every old confirmed event carries an id, be it empty; it ends in the same state exactly when a later event sets it or folding the old events without a known id again leads back to it. |
| `ExpiringStore.RelayStore.Set` | src/relay-store.js:17-27 | A store sweeps, refuses an oversized payload, moves the entry to the end and evicts the oldest. |
| `ExpiringStore.RelayStore.Get` | src/relay-store.js:29-33 | A read sweeps and answers from what is left. |
| `ExpiringStore.EphemeralPreparations.Save` | src/ephemeral-preparations.js:15-23 | The same for reveal preparations. |
| `ExpiringStore.EphemeralPreparations.Delete` | src/ephemeral-preparations.js:31-33 | Exactly the named preparation is deleted. |
| `ExpiringStore.EphemeralPreparations.DeleteForGame` | src/ephemeral-preparations.js:35-39 | Exactly the game's preparations are deleted. |
| `ExpiringStoreRuns.ExpiryOnlyHides` | src/relay-store.js:17-45 | Over any such run under a monotone clock, read twice by a store, expiry only hides: it never changes what eviction keeps; insertion order is expiry order and the capacity is kept. |
| `ExpiringStoreRuns.RemembersTheLastStore` | src/ephemeral-preparations.js:15-51 | Over any run of stores, reads and deletions a read returns the last value stored under its key exactly when it was not deleted since, it has not reached its time to live, and at every moment since fewer than the capacity of other keys stored after it were standing. |
| `ExpiringStoreRuns.CrowdsOnlyGrow` | src/relay-store.js:17-45 | Without deletions the last condition is that fewer other keys than the capacity were stored since. |
| `RateLimiter.RateLimiter.Check` | src/rate-limit.js:14-27 | One call is counted in its key's window; a refused caller is told the fewest whole seconds after which the window has passed. |
| `RateLimiterRuns.StaysOrderedAndSmall` | src/rate-limit.js:29-37 | Windows stay in the order they opened, one to a key, at most one more than the key limit. |
| `RateLimiterRuns.LimitsLikeUnbounded` | src/rate-limit.js:14-37 | While nothing has to be evicted, the swept, bounded limiter decides exactly like one that never forgets. |
| `RateLimiterRuns.FirstCallsOfEachWindow` | src/rate-limit.js:14-27 | In any run of calls of any keys the limiter allows a call exactly when it is among the first calls, up to the limit, of its key since the call that opened its window, as long as nothing has to be evicted. |
| `RateLimiterRuns.WindowsAreApart` | src/rate-limit.js:17-21 | The calls counted in a window lie within its length, and the next window opens at its end or later. |
| `RateLimiterRuns.TwiceTheLimit` | src/rate-limit.js:14-37 | In any interval as long as a window the limiter itself grants a key at most twice the limit, whatever else is called, as long as nothing has to be evicted. |
| `Feedback.FeedbackSpill.Add` | src/feedback.js:73-79 | An entry is appended in memory and acknowledged only if the whole queue was written. |
| `Feedback.FeedbackSpill.Remove` | src/feedback.js:81-88 | The entry leaves memory, and the file if it can be written. |
| `Feedback.FeedbackSpill.Drain` | src/feedback.js:92-107 | Every queued entry is offered once; what is refused stays in order. |
| `FeedbackRuns.AcknowledgedIff` | src/feedback.js:73-79 | A submission is acknowledged exactly when the queue could be read, or was before, and could be written. |
| `FeedbackRuns.NothingIsLost` | src/feedback.js:172-191 | Over any run with failed deliveries, failed writes and crashes, every acknowledged message is delivered or in the file, and nothing is delivered that nobody submitted. |
| `FeedbackRuns.OneDrainCatchesUp` | src/feedback.js:193-201 | From any such moment one drain that reaches file and bot delivers every acknowledged message. |
| `FeedbackRuns.LeavesForGood` | src/feedback.js:81-107 | An entry that was removed after its delivery, or delivered by a drain, is never offered again, if the file can be written and no earlier removal of it went unwritten. |

## Left out

- HTTP routing, start-up, timers, logging, metrics, Telegram and node calls, file reads and renames: plumbing. What remains of them is that a change that throws persists nothing and that the file holds the last successful write.
- The browser pages, wallet connection and local storage: no state the other parts depend on.
- Hashes, Schnorr signatures, addresses, the covenant's own script and the mass formula: taken as injective or uninterpreted functions. The covenant script is not part of this model, so an escrow moves only by the transactions the service builds.
- Interleavings inside one service call, around the awaited node answers: every call is one step. A stale whole-record save is therefore not represented.
- Reorganisations of the ledger itself: the chain of the escrow and reveal parts only grows.
- RevealTimeouts.OneEnding: of the record's status texts only whether it is settled is modelled; the refund of a game nobody joined is part of the crash and escrow parts.
- The delay computation of the timeout keeper, status projections, room-code and invite parsing, and the lifecycle wrappers: single-branch code.
- `resolveReveal` and the other projections of the reveal page: they repeat the service's guards.
- Seats taken by the bot's own address as a human player, equal creator and joiner keys, and repeated outpoints: ruled out as preconditions, as the callers rule them out.
- The bot's own scan: its effects on the store are operations of a run (claim, expire, join, release), in any order.
- EnteringARoomKeepsOthers: one live session per wallet is not an invariant of the store, only a result of joining the queue or opening a room.
- CrashRepairRuns.CrashesLeaveNoTraceIff: says nothing about reveals, which the repair does not cover; a creation is submitted again only while its record holds no join, refund or settlement; LossyRunsLeaveNoTraceIff drops that for a chain that takes one join and one settlement of a game and no transaction twice.
- RevealService.Service.PrepareReveal: the check that an output is one score old is a parameter, the set of transactions old enough.
- RateLimiterRuns.TwiceTheLimit: assumes that no current window has to be evicted; a limiter that evicts one forgets what it counted.
- FundingCandidates.ListFundingCandidates: the four nested loops are one loop that calls itself for the next depth; the text order of outpoints is a parameter.
- SignedComparison.SigningChangesOnlySignatures: the validation that precedes the comparison is represented by its shape only (an object whose inputs are an array of objects).
- Json.Print: a finite number is represented by the text the language prints for it, so that minus zero and zero are one value.
- History.Reduce: scores and confirmation counts are integers; fractional, missing or malformed ones are coerced before the model begins.
- Economics.Resolve: amounts are unbounded integers in sompi, as in the source; the conversion from a decimal stake is not modelled.
