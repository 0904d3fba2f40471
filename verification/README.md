# Arena model

A Dafny model of a multiplayer snake arena with staked matches: the lobby protocol that turns queued players
into games, the double-entry ledger that holds their money, the fixed-step game simulation, the binary wire
format, and the authority that ranks and guards a match. What the table below states are contracts that
`dafny verify dfyconfig.toml` proves of the model.

The model follows the code, not its comments. Where the two part, the code's behaviour is modelled, a lemma or a
method gives an input on which they differ, and another says exactly when the intended property does hold:

- A tick changes a stored lobby without raising its version (state.ts:138-139), so a save can land over a tick it
  never saw: a join loaded before an expiring tick launches its player twice (`LobbyReplicas.TornTickLaunchesTwice`),
  and two ticks launch one roster twice (`LobbyTorn.TwoTicksLaunchTwice`). The stored lobby is the fold of the saved
  events exactly when each save fits the lobby it replaces, event kind by event kind (`LobbyTorn.SaveAgreesIff`,
  `LobbyTorn.FoldsIffFits`). From each launch until the lobby is opened or cleared it stays launched and launches no
  second time exactly when no join, leave, ready or tick, and no close or mark loaded with too few players, is saved
  over it (`LobbyHeld.LaunchesHoldIff`).
- A launch that throws after its first save leaves the tier stuck: the fallback reset expects the version before
  that save and its miss is not looked at (service.ts:123-151, `LobbyStuck.ThrowAfterMarkSticks`). Undisturbed, the
  tier is emptied exactly when the launch does not throw there (`LobbyService.LaunchClearsIff`). A lost reply to the
  save that launches leaves the same behind (`LobbyService.LostLaunchKillsTier`).
- An accepted join can leave the joiner out: in a paid lobby past its deadline the expiry that the join itself
  settles drops the unpaid newcomer (`Lobby.LateJoinerLeftOut`; `Lobby.JoinedPlayerStays` says exactly when).
- Retrying a withdrawal confirmation that stopped after its ledger entry was written asks for the funds again
  before it meets the unique key (`CompletedFlows.CrashStrandsRetry`), so it succeeds exactly when the account still
  holds twice the amount (`CompletedFlows.CrashThenRetry`). The money still moves once.
- Releasing a withdrawal's reservation reads it and writes it back without a version check
  (withdrawal.service.ts:320-338), so a stake reserved in between is no longer held (`ClerkRuns.ReleaseLosesStake`);
  a release is exact when it finds what it read (`ClerkRuns.ReleaseExactIff`), and throughout a run of interleaved
  writes every account reserves its stakes and its unreleased withdrawals exactly when each withdrawal's first release
  takes its amount off what it finds and no further one changes anything (`Releases.ReleasesMatchIff`).
- A manual adjustment checks the new balance against zero, not against what is reserved, and the treasury not at all
  (players.routes.ts:371-391, `Adjustments.AdjustmentsUncover`); `Adjustments.AdjustKeepsIff` says exactly which
  adjustments keep the books and the reservations covered, and `SettledRuns.HealthyIffCovered` which runs do.
- The collision sweep queries the grid with a margin of 40. A snake of mass over 400 is wider, and a world shows it
  missed (`SweepReach.HeavySnakeMissed`): the sweep kills whom brute force kills in every world of snakes up to a
  given mass exactly when that mass is at most 400 (`SweepReach.SweepIsBruteForceIff`).
- Movement promises an evenly spaced body at any speed (simulation.ts:390-391). The points a straight run records lie a
  tick's travel apart, times the ticks between two recordings, so at the default 30 ticks a second a cruising snake
  lays them 22/3 and 44/3 apart (`Spacing.CruisingLaysUnevenly`). They lie equally far apart exactly when a tick covers
  a spacing or more or a spacing is a whole number of ticks (`Spacing.EvenSpacingIff`), and a spacing apart exactly in
  the second case (`Spacing.SpacingKeptIff`): at multiples of 55 ticks a second, when boosting of 209
  (`Spacing.TickRatesSpaceEvenly`). The number of points keeps up with the travel from 19 ticks a second on, when
  boosting from 35 (`Movement.TickRatesKeepCount`).
- Scattering is meant to lose 40% of a body. A snake that has died and scattered is scattered again when its player
  leaves (room.ts:217), so in every run in which that happens the two scatterings add up to 120% of the body
  (`DeadLeaver.DeadLeaverPaysTwice`); a departure adds mass exactly in that case (`WorldRuns.LeavingIsLossyIff`).
- `angleDelta` documents (-pi, pi] and can return -pi (`Steering.MinusHalfTurnReached`,
  `Steering.DocumentedRangeIff`).
- An angle may pack into the last step (`Quantise.LastStepReached`), which unpacks to a full turn and repacks as
  zero; no other step does (`Quantise.AngleStable`).
- A snapshot cut off inside its list of removed snakes decodes with zero ids instead of an error
  (`SnapshotCodec.CutRemovalsAccepted`). A cut is noticed exactly when it falls before the end of the food list, or
  anywhere if removed food is listed (`Snapshots.CutNoticedIff`).

## How it is laid out

- **Lobby** (`Lobby`, `LobbyReplicas`, `LobbyTorn`, `LobbyHeld`, `LobbyStuck`, `LobbyService`). `Lobby` is the pure
  reducer. `LobbyReplicas` is a state machine: any number of replicas interleave load, reduce and compare-and-set over
  one cell, and any of them may stop or throw during a launch; `LobbyTorn` is about saves over ticks they never saw,
  `LobbyHeld` about what saves do to a launched lobby, `LobbyStuck` about the launch that throws. `LobbyService` is the
  retry loop and the launch over a store object, with rival writes between its steps.
- **Money** (`Ledger`, `Stakes`, `Refunds`, `CustodyFlows`, `CompletedFlows`, `Adjustments`, `BankRuns`, `ClerkRuns`,
  `Releases`, `SettledRuns`, `Bank`). The operations are functions on a database value; `Bank` holds the same operations
  as methods with the source's loops and in-place writes, each proved equal to its function. Confirmations carry a
  `writes` budget: the number of separate writes made before the process dies. `BankRuns` is about runs of these
  operations, crashes included; `ClerkRuns` interleaves confirmations one write at a time and `Releases` follows the
  reservations through that; `SettledRuns` is about runs whose operations complete, adjustments among them.
- **Simulation** (`Geometry`, `Angles`, `Numbers`, `Snakes`, `Spine`, `Steering`, `Inputs`, `World`, `Movement`, `Spacing`,
  `SpatialHash`, `Feeding`, `Eating`, `Collisions`, `Sweep`, `SweepReach`, `Scattering`, `FoodSupply`, `Timestep`,
  `Matter`, `WorldRuns`, `DeadLeaver`). `Feeding` and `Collisions` state the rules without the grid; `Eating` and
  `Sweep` are the passes through it. `Timestep` strings the phases of a tick together, `Matter` follows mass through
  them, and `WorldRuns` is about runs of players coming, leaving and steering while the clock ticks.
- **Wire format** (`Wire`, `Uuid`, `Quantise`, `Snapshots`, `SnapshotCodec`, `InputCodec`). Bytes, rounding and
  text ids are separate layers; the codecs write and read arrays in place.
- **Match authority** (`Standings`, `Room`, `TokenBucket`, `Guards`, `InputGuard`), the sign-in message
  (`AuthMessage`) and the weekly key (`IsoWeek`).

What the model takes as given: a database transaction is atomic and rolls back on refusal, unique keys and the
store's compare-and-set hold, and idempotency keys are distinct for distinct uses (they are a datatype, not
strings). Clocks, chain observations, the stream of random draws, the square root, the sine and cosine, the
platform's text codec and its string collation are parameters. Floating-point numbers are reals.

## Model

| member | source | states |
|---|---|---|
| Lobby.ReduceKeeps | packages/lobby/src/state.ts:92-211 | Every event keeps a lobby well formed (distinct players within capacity, a deadline exactly in countdown, countdown only when unscheduled with enough players, never closed); a refused or unchanged event returns the same state; exactly the changes other than a tick raise the version, by one |
| Lobby.SettleKeeps | packages/lobby/src/state.ts:224-337 | Settling keeps a lobby well formed, never adds or reorders players, never refuses and never raises the version |
| Lobby.FoldWellFormed | packages/lobby/src/state.ts:92-337 | Every lobby reached by any sequence of timed events is well formed |
| Lobby.LaunchExactly | packages/lobby/src/state.ts:224-337 | A launch happens exactly when the settled lobby expires with enough payers or is free; it takes all payers and only them, in queue order, at least the minimum |
| Lobby.JoinedPlayerStays | packages/lobby/src/state.ts:92-337 | An accepted joiner is queued afterwards exactly unless the join itself settles the expiry of a paid countdown |
| Lobby.LateJoinerLeftOut | packages/lobby/src/state.ts:92-337 | A lobby reached by a join and a payment that accepts a late joiner, launches and leaves the joiner out |
| Lobby.SettleFixpoint | packages/lobby/src/state.ts:224-337 | Settling twice at one clock changes something the second time exactly when the applicable timer is not positive and a countdown could start or stand |
| Lobby.FailedExpiriesBounded | packages/lobby/src/state.ts:224-337 | Over any event sequence, failed expiries plus the players still queued never outnumber the initial roster plus the joins |
| Lobby.FailedExpiryLeavesShort | packages/lobby/src/state.ts:255-331 | A countdown that expires without enough payers leaves a waiting lobby of payers only, too few to count down again |
| Lobby.ShortUntilJoin | packages/lobby/src/state.ts:92-337 | Until someone joins, a short lobby stays short and never launches; a later tick changes it only by reopening an unscheduled lobby stuck in launching |
| Lobby.CountdownStartsInWindow | packages/lobby/src/state.ts:255-331 | A fresh countdown's deadline is within the longest timer of its start |
| Lobby.DeadlineNeverLater | packages/lobby/src/state.ts:255-331 | Within one unbroken countdown the deadline never moves later |
| Lobby.CountdownEnds | packages/lobby/src/state.ts:255-331 | A countdown is over at the first settled event from its start plus the longest timer on |
| LobbyReplicas.RunSafe | packages/lobby/src/service.ts:85-151 | In every interleaving of any number of replicas the stored lobby is well formed and its version counts the saves other than ticks, so it never falls |
| LobbyReplicas.OneWinnerPerVersion | packages/lobby/src/redis-store.ts:20-33 | Of two replicas that loaded the same version, only one version-raising save takes effect, whatever runs in between |
| LobbyReplicas.ReplicasLinearize | packages/lobby/src/service.ts:85-151 | In every run with no torn save the stored lobby is the reducer folded over the saved events in save order, launch saves included, and between any two launches the lobby was opened anew or cleared |
| LobbyReplicas.LaunchesApart | packages/lobby/src/state.ts:92-337 | In any log of folded events two launches have an opening or a clearing between them |
| LobbyReplicas.WithoutTicksUntorn | packages/lobby/src/state.ts:138-139 | Runs of events other than ticks are never torn |
| LobbyReplicas.TornTickLaunchesTwice | packages/lobby/src/service.ts:85-114 | A run with a tick in which one player is launched into two games and the stored lobby is no fold of the saved events |
| LobbyTorn.SettleAgreesIff | packages/lobby/src/state.ts:224-337 | Exactly when two lobbies of one version that differ by ticks settle to the same lobby |
| LobbyTorn.SaveAgreesIff | packages/lobby/src/state.ts:92-337 | For each kind of event, exactly when reducing the loaded lobby gives what reducing the stored one would: a clearing always, a launch or an opening when the rosters agree, and so on |
| LobbyTorn.RunKin | packages/lobby/src/service.ts:85-151 | In every interleaving a replica whose loaded version is still stored holds a lobby that differs from the stored one at most by ticks |
| LobbyTorn.FoldsIffFits | packages/lobby/src/service.ts:85-151 | The stored lobby is the fold of the saved events throughout a run exactly when every save of the run fits the lobby it replaces |
| LobbyTorn.TwoTicksLaunchTwice | packages/lobby/src/service.ts:85-151 | A run of two ticks that launches one roster twice although the stored lobby is the fold |
| LobbyHeld.LaunchesHoldIff | packages/lobby/src/service.ts:85-151 | In any run, ticks included: from each launch until the lobby is opened or cleared it stays in launch and launches no second time, exactly when every save over it is an opening, a clearing, or a close or a mark loaded with enough players |
| LobbyHeld.SparedLaunchesPart | packages/lobby/src/service.ts:85-151 | In such runs the lobby was opened or cleared between any two launches |
| LobbyHeld.UntornSpares | packages/lobby/src/service.ts:85-114 | Runs with no torn save are among them |
| LobbyStuck.ThrowAfterMarkSticks | packages/lobby/src/service.ts:116-151 | A run in which a launch throws after its first save and the tier stays launching for good: no tick changes it, no one joins and no one leaves |
| LobbyService.LobbyStore.Load | packages/lobby/src/store.ts:27-36 | Reading an absent lobby gives the empty one |
| LobbyService.LobbyStore.Save | packages/lobby/src/store.ts:38-50 | A save writes exactly when the stored version is the expected one, an absent lobby counting as version zero |
| LobbyService.Apply | packages/lobby/src/service.ts:85-114 | The retry loop computes its attempt-by-attempt account against arbitrary rival writes between load and save, a lost reply to any of its saves, and the launch it triggers |
| LobbyService.PerformLaunch | packages/lobby/src/service.ts:123-151 | The two saves of a launch wherever it throws, and the reset after a throw, no result looked at, with rivals before each |
| LobbyService.SavedOverFreshState | packages/lobby/src/service.ts:85-114 | A save replaces a lobby of the version it loaded, the very state it reduced if the rivals of that attempt raised versions; giving up means a rival wrote during every attempt; a lost reply throws whether or not the save was written |
| LobbyService.LaunchMovesOn | packages/lobby/src/service.ts:123-151 | Wherever a launch throws and whatever its rivals save, ticks included, the launched version does not stay stored |
| LobbyService.LaunchClearsIff | packages/lobby/src/service.ts:116-151 | Undisturbed, a launch leaves its tier empty and open exactly when it does not throw between its two saves; when it does, the tier stays launching one version on |
| LobbyService.ThrowBetweenSavesKillsTier | packages/lobby/src/service.ts:116-151 | What the tier then stays in changes by no tick and admits and releases no one |
| LobbyService.LostLaunchKillsTier | packages/lobby/src/service.ts:103-107 | A launching save whose reply is lost leaves the tier in a launch that nobody carries on and no event ends |
| Ledger.AssertBalanced | apps/gateway/src/services/ledger.ts:69-92 | Accepts exactly the entries with at least two legs, positive amounts and equal debits and credits |
| Ledger.PostEntryKeeps | apps/gateway/src/services/ledger.ts:107-183 | A posted entry keeps the books sound, moves each account by the net of its legs and appends one row a leg under fresh keys |
| Ledger.PostLegsSucceed | apps/gateway/src/services/ledger.ts:107-183 | An entry whose accounts exist, whose prefixes are funded and whose keys are fresh is never refused |
| Ledger.BooksAddUp | apps/gateway/src/services/reconciler.ts:129-149 | The account balances sum to the net of every row ever posted |
| Ledger.CheckLedgerInvariant | apps/gateway/src/services/reconciler.ts:129-149 | The reconciler's drift is the difference of the two sums, zero on consistent books |
| Ledger.FindImbalancedGroups | apps/gateway/src/services/admin-treasury.ts:121-145 | Reports exactly the groups whose legs do not sum to zero, each once with its drift, the largest first |
| Stakes.ReserveKeeps | packages/db/src/stake.ts:95-152 | Reserving keeps reserved equal to the commitments whatever its outcome, and succeeds exactly for a repeat, a free tier or a fee within the spendable balance |
| Stakes.ReleaseKeeps | packages/db/src/stake.ts:161-194 | Releasing gives back exactly what was reserved; the clamp never bites and a second release finds nothing |
| Stakes.TierIsCovered | packages/db/src/stake.ts:286-311 | Each player's stakes in a tier are within its reservation and its balance, so the exceeds-balance throw is unreachable |
| Stakes.ConsumeKeeps | packages/db/src/stake.ts:242-358 | Consuming moves exactly each stake and its reservation into the pot and keeps the commitments; it is refused only for a mismatched total, a missing escrow or stakes the game already took |
| Stakes.StaleStakesRefused | packages/db/src/stake.ts:276-355 | Stakes a game already took are refused as duplicates, not charged again |
| Refunds.OwedLess | packages/db/src/refund.ts:161-198 | Repaying one line takes exactly it off what is owed |
| Refunds.CancelKeeps | packages/db/src/refund.ts:121-279 | Cancelling is refused exactly for an unknown, completed or paid-out game (never for a shortfall); it pays every owed player exactly what is owed and empties the escrow |
| Refunds.CancelCommitted | packages/db/src/refund.ts:199-266 | Cancelling keeps every account's reserved amount equal to its commitments |
| Refunds.CancelAgain | packages/db/src/refund.ts:121-279 | Any further cancel moves nothing |
| Refunds.CancelUndoesConsume | packages/db/src/refund.ts:121-279 | Consuming a tier and cancelling the game gives each player back exactly its stake besides what the game owed already, leaves reservations at the other commitments and empties the escrow |
| CustodyFlows.SplitBounds | packages/solana/src/instructions.ts:129-142 | Fee and net are non-negative and add up to the gross for every accepted amount and rate |
| CustodyFlows.SplitLegsBalance | apps/gateway/src/services/withdrawal.service.ts:226-262 | For every accepted amount and fee rate the withdrawal legs are positive and balanced |
| CustodyFlows.ConfirmDepositOnce | apps/gateway/src/services/deposit.service.ts:95-217 | Stopping after any write, a deposit confirmation keeps the books sound and every deposit's and withdrawal's entry at most once and whole |
| CustodyFlows.ConfirmWithdrawalOnce | apps/gateway/src/services/withdrawal.service.ts:161-297 | The same for a withdrawal confirmation |
| CustodyFlows.FailWithdrawalOnce | apps/gateway/src/services/withdrawal.service.ts:306-338 | The same for failing a withdrawal and releasing its reservation |
| CompletedFlows.CreateWithdrawalKeeps | apps/gateway/src/services/withdrawal.service.ts:82-146 | A withdrawal is accepted exactly within the minimum, the fee limit and the spendable balance, and keeps every reservation equal to its commitments |
| CompletedFlows.WithdrawalPosts | apps/gateway/src/services/withdrawal.service.ts:263-275 | The ledger entry of an open withdrawal always posts: it cannot run out of funds |
| CompletedFlows.ConfirmCompletes | apps/gateway/src/services/withdrawal.service.ts:161-297 | Run to completion over a valid transfer, a confirmation succeeds and takes exactly the gross amount off balance and reservation |
| CompletedFlows.ConfirmKeeps | apps/gateway/src/services/withdrawal.service.ts:161-297 | Every outcome of a completed confirmation keeps the commitments exact |
| CompletedFlows.FailKeeps | apps/gateway/src/services/withdrawal.service.ts:306-338 | A completed failure keeps every reservation equal to the stakes and the withdrawals still open, so it gives back exactly the failed one |
| CompletedFlows.CrashThenRetry | apps/gateway/src/services/withdrawal.service.ts:161-297 | For every crash point, exactly when a retry succeeds, that the money moves once, and when the reservation comes out right |
| CompletedFlows.CrashStrandsRetry | apps/gateway/src/services/withdrawal.service.ts:161-297 | A withdrawal of the whole balance that stops after its entry and is refused on every retry |
| CompletedFlows.FailureStrands | apps/gateway/src/services/withdrawal.service.ts:306-318 | A failure that stops between its two writes leaves the amount reserved beyond the commitments, and no later attempt on that withdrawal changes anything |
| CompletedFlows.Reposted | apps/gateway/src/services/ledger.ts:107-183 | An entry posted again is refused as already made if its first leg could be paid again, and for the funds otherwise |
| BankRuns.BooksAlwaysAudit | apps/gateway/src/services/ledger.ts:69-183 | In every run of the modelled operations, crashes included, each balance is the net of its rows, each row's stored balance is its prefix, only EXTERNAL is negative, totals agree, every group balances, and every confirmation's entry is single |
| BankRuns.RunAudited | packages/db/src/stake.ts:242-358 | The same as an invariant from any audited state |
| ClerkRuns.InterleavedBooksAudit | apps/gateway/src/services/deposit.service.ts:90-217 | However the writes of any number of confirmations and failures are interleaved with each other and with the other operations, with no lock relied on, the books stay sound and every deposit's and withdrawal's entry is posted at most once, whole, and is there whenever its row is confirmed |
| ClerkRuns.RunSound | apps/gateway/src/services/withdrawal.service.ts:161-338 | The same as an invariant: a confirmation past its posting has its entry in the books for good |
| ClerkRuns.ReleaseExactIff | apps/gateway/src/services/withdrawal.service.ts:320-338 | A release takes its amount off the reservation it finds exactly when that is what it read, or the amount covers both |
| ClerkRuns.ReleaseLosesStake | apps/gateway/src/services/withdrawal.service.ts:320-338 | For any amounts that fit, an interleaving after which a stake is still held by its tier and no longer by the account |
| Releases.ReleasesMatchIff | apps/gateway/src/services/withdrawal.service.ts:161-338 | However confirmations, failures and all other operations are interleaved, crashes included, every account goes on reserving exactly its stakes and its unreleased withdrawals, exactly when each withdrawal's first release takes its amount off the reservation it finds and no other release takes anything |
| Releases.ExactReleasesCommit | apps/gateway/src/services/withdrawal.service.ts:320-338 | Once no release is under way, each account then reserves exactly its stakes and open withdrawals |
| Adjustments.AdjustKeepsIff | apps/gateway/src/routes/admin/players.routes.ts:345-418 | An applied adjustment moves the amount between player and treasury and keeps the rows consistent and balanced; it keeps the books sound exactly when the treasury covers it, and the reservations covered exactly when the spendable balance does |
| Adjustments.AdjustOnce | apps/gateway/src/routes/admin/players.routes.ts:353-367 | Under a used key an adjustment moves nothing |
| Adjustments.AdjustmentsUncover | apps/gateway/src/routes/admin/players.routes.ts:371-391 | From sound books, an accepted adjustment that takes staked money and one that overdraws the treasury |
| SettledRuns.HealthyIffCovered | packages/db/src/stake.ts:95-358 | In any run of completed operations, posted entries and manual adjustments the books, reservations and escrows stay exact, exactly when every entry that posts and every adjustment that applies leaves the players' reservations covered and the treasury can pay the adjustments |
| SettledRuns.ReservationsAlwaysMatch | packages/db/src/stake.ts:95-194 | In any such run every custody account reserves exactly its stakes and open withdrawals, within its balance; every escrow holds what cancelling would refund, cancelling fails only for an unknown or settled game, no stake exceeds its balance and an open withdrawal can always be posted |
| SettledRuns.PostSettledIff | apps/gateway/src/services/ledger.ts:107-183 | A posted entry keeps reservations equal to commitments and covered exactly when it leaves every player's reservation covered |
| Bank.Database.ReserveEntryFee | packages/db/src/stake.ts:95-152 | The writes in place compute the reservation function on the whole database |
| Bank.Database.ReleaseEntryFee | packages/db/src/stake.ts:161-194 | The writes in place compute the release function |
| Bank.Database.PostLedgerEntry | apps/gateway/src/services/ledger.ts:107-183 | The leg-by-leg loop computes the posting function, and any refusal restores the database |
| Bank.Database.ConsumeReservations | packages/db/src/stake.ts:242-358 | The loop, which writes the escrow once at the end, computes the per-leg consumption function, or rolls back |
| Bank.Database.CancelGameAndRefund | packages/db/src/refund.ts:121-279 | The two loops compute the cancellation function, or roll back |
| Bank.Database.ConfirmWithdrawalFlow | apps/gateway/src/services/withdrawal.service.ts:161-297 | The successive writes, stopped anywhere, compute the confirmation function |
| Bank.Database.ConfirmDepositFlow | apps/gateway/src/services/deposit.service.ts:95-217 | The successive writes, stopped anywhere, compute the confirmation function |
| SpatialHash.CellKeyInjective | packages/game-core/src/spatial-hash.ts:10-13 | Inside the 16-bit window two cells share a key exactly when they are the same cell |
| SpatialHash.KeysCollideOutside | packages/game-core/src/spatial-hash.ts:10-13 | One cell past the window has the key of a cell inside it |
| SpatialHash.Hash.constructor | packages/game-core/src/spatial-hash.ts:27-30 | A new grid is empty |
| SpatialHash.Hash.Insert | packages/game-core/src/spatial-hash.ts:36-41 | Adds one occurrence under the position's key and moves nothing else |
| SpatialHash.Hash.Remove | packages/game-core/src/spatial-hash.ts:43-57 | Swap-remove takes exactly one occurrence from the key's bucket, if there is one, and drops an emptied bucket |
| SpatialHash.SwapRemovedBag | packages/game-core/src/spatial-hash.ts:43-57 | Moving the last element into the freed slot removes that element and no other |
| SpatialHash.Hash.QueryCircle | packages/game-core/src/spatial-hash.ts:68-85 | The candidates are exactly the ids in the cells that the circle's bounding box overlaps |
| SpatialHash.Hash.Clear | packages/game-core/src/spatial-hash.ts:87-89 | Empties every bucket |
| SpatialHash.ReachedIsVisited | packages/game-core/src/spatial-hash.ts:68-85 | A point within reach lies in a visited cell of any query at least as wide |
| SpatialHash.VisitedIsCandidate | packages/game-core/src/spatial-hash.ts:68-85 | An id filed under a visited cell is a candidate, whatever keys collide |
| SpatialHash.QueryServesIff | packages/game-core/src/spatial-hash.ts:68-85 | A query covers every point within a reach exactly when the reach is at most the queried radius |
| Snakes.SetMassFits | packages/game-core/src/simulation.ts:398-405 | Setting any mass leaves radius, score and length fitting it; the body only ever loses its tail, and only to a loss of mass |
| Feeding.SharesPartition | packages/game-core/src/simulation.ts:412-436 | Each pellet is left over or the share of exactly one snake, its first living reacher |
| Feeding.EatingConserves | packages/game-core/src/simulation.ts:412-436 | Snake mass plus pellet mass is the same after any number of turns |
| Eating.RebuildFoodHash | packages/game-core/src/simulation.ts:407-410 | The grid becomes an exact index of the pellets, in whatever order they are listed |
| Eating.Bite | packages/game-core/src/simulation.ts:422-431 | A bite moves one pellet's mass to the snake and keeps the grid an exact index |
| Eating.Graze | packages/game-core/src/simulation.ts:415-433 | A snake's turn takes exactly the pellets within its reach at the start of the turn, whatever the order or repetition of the candidates |
| Eating.ConsumeFood | packages/game-core/src/simulation.ts:412-436 | The pass gives each pellet to its first living reacher, counts them, conserves mass, keeps the grid exact and the world consistent |
| Collisions.EachVictimOnce | packages/game-core/src/simulation.ts:463-514 | The victims are exactly the snakes alive before the sweep and dead after it, each once, whichever points a turn looks at |
| Collisions.KillsRise | packages/game-core/src/simulation.ts:500-512 | Kills over all snakes rise by exactly the number of collision deaths, whichever points a turn looks at |
| Sweep.BodyIndex.Post | packages/game-core/src/simulation.ts:453-459 | Filing a body point keeps every earlier one findable and every filed one under its own cell |
| Sweep.BodyIndex.Rebuild | packages/game-core/src/simulation.ts:444-461 | The index names only body points of living snakes past the neck, each under its own cell, and all of them |
| Sweep.BodyIndex.FindKiller | packages/game-core/src/simulation.ts:483-512 | Finds a killer exactly when some other living snake has a body point touching the head under the key of a cell the query visits |
| Sweep.BodyIndex.KillerIsCandidate | packages/game-core/src/simulation.ts:483-500 | The candidates miss no contact that the queried cells bring up |
| Sweep.BodyIndex.CandidateIsSeen | packages/game-core/src/simulation.ts:483-498 | Whatever keys collide, a candidate is a real body point that the queried cells bring up |
| Sweep.BodyIndex.TakeTurn | packages/game-core/src/simulation.ts:464-513 | One turn: the wall first, then the first killer found, credited with the kill |
| Sweep.BodyIndex.JudgeHeads | packages/game-core/src/simulation.ts:463-514 | For snakes of any width, the sweep leaves alive exactly whom the turn-by-turn rule over the queried cells does; each death is at the wall or by another snake alive at that moment and in contact, and the world stays consistent |
| SweepReach.SeenKillsAreReal | packages/game-core/src/simulation.ts:483-512 | A killer found through the grid is one that brute force would accept |
| SweepReach.SlimSweepsSame | packages/game-core/src/simulation.ts:463-514 | With no living snake wider than 40 the sweep kills the same snakes as brute force and accepts the same deaths |
| SweepReach.MarginServesIff | packages/game-core/src/simulation.ts:483-500 | The queried margin covers every contact distance exactly when the other radius is at most 40 |
| SweepReach.WideSnakeMissed | packages/game-core/src/simulation.ts:483-500 | For every radius over 40 and every cell size, a contact in a cell the query does not visit |
| SweepReach.HeavySnakeMissed | packages/game-core/src/simulation.ts:483-500 | For every mass over 400 and cell size from 1, two snakes of sizes their masses give, one of which brute force kills and the sweep does not |
| SweepReach.SweepIsBruteForceIff | packages/game-core/src/simulation.ts:463-514 | For snakes up to a given mass the sweep and brute force agree in every world exactly when that mass is at most 400 |
| Scattering.EachBodyFalls | packages/game-core/src/simulation.ts:516-521 | After the deaths every victim's drops all lie where its body was, from the id it was given on |
| Scattering.NothingElseFalls | packages/game-core/src/simulation.ts:516-521 | Nothing else is added and the earlier pellets are untouched |
| Scattering.DetectCollisions | packages/game-core/src/simulation.ts:463-522 | The sweep's deaths and survivors, then every body fallen as food: 60% of the dead's mass, under fresh ids, in a consistent world |
| Spine.RunFollowsTrack | packages/game-core/src/simulation.ts:280-287 | Over any run of pushes, slides and mass changes the length stays within 1 and what the mass allows, and the body is the newest stretch of the recorded track |
| Spine.SlotsDistinct | packages/game-core/src/simulation.ts:273-278 | Offsets below the capacity never share a slot |
| Spine.Ring.constructor | packages/game-core/src/simulation.ts:151-161 | A fresh ring reads as fifteen points straight behind the head |
| Spine.Ring.PointAt | packages/game-core/src/simulation.ts:273-278 | Reads the clamped element of the head-first list |
| Spine.Ring.PushPoint | packages/game-core/src/simulation.ts:280-287 | Prepends to the head-first list and truncates to the capacity |
| Spine.Ring.SlideHead | packages/game-core/src/simulation.ts:389-394 | Replaces the first element only |
| Spine.Ring.SetMass | packages/game-core/src/simulation.ts:398-405 | Truncates the list to what the new mass allows |
| Spine.Ring.Advance | packages/game-core/src/simulation.ts:385-394 | Records a point exactly when a spacing has been travelled, carrying the remainder, however long the tick |
| Steering.DeltaLeads | packages/game-core/src/simulation.ts:64-69 | The difference leads from one heading to the other up to whole turns and is at most half a turn |
| Steering.DeltaShortest | packages/game-core/src/simulation.ts:64-69 | No other way round is shorter |
| Steering.DocumentedRangeIff | packages/game-core/src/simulation.ts:58-69 | The result is in the documented half-open range exactly when the remainder is not minus a half turn |
| Steering.MinusHalfTurnReached | packages/game-core/src/simulation.ts:58-69 | An input whose result is minus a half turn |
| Steering.SteersWithinCap | packages/game-core/src/simulation.ts:363-366 | A tick turns by at most the cap: within it the snake faces the target, beyond it the gap shrinks by exactly the cap |
| Inputs.DrainIsNewest | packages/game-core/src/simulation.ts:343-352 | Draining obeys the first command with the highest sequence number, if newer than the last acknowledged, and nothing else |
| Inputs.DrainIgnoresOrder | packages/game-core/src/simulation.ts:343-352 | With distinct sequence numbers every permutation of a queue drains to the same heading, boost and acknowledgement |
| Inputs.DrainInParts | packages/game-core/src/simulation.ts:335-355 | Draining in two parts is draining at once, and acknowledgements never fall |
| World.DropsOnBody | packages/game-core/src/simulation.ts:250-252 | Every scattered drop starts at a real body point |
| World.DiscPointInside | packages/game-core/src/simulation.ts:219-224 | A drawn place is inside the disc it is drawn for |
| World.ClearIff | packages/game-core/src/simulation.ts:197-205 | A place counts as clear exactly when no living head is within 400 |
| World.WorldState.constructor | packages/game-core/src/simulation.ts:95-110 | A new world is consistent and holds its target of pellets, each inside 97% of the disc and of ordinary mass |
| World.WorldState.SpawnFood | packages/game-core/src/simulation.ts:215-237 | Adds one pellet where and as heavy as asked, else drawn in the disc and in the mass range |
| World.WorldState.FindSpawnPoint | packages/game-core/src/simulation.ts:186-213 | The first clear place of twelve draws, else the one of them with the most room |
| World.WorldState.SpawnSnake | packages/game-core/src/simulation.ts:116-166 | A known player keeps its snake; a new one gets a fresh id, last in order, inside 85% of the disc; the world stays consistent |
| World.WorldState.EnqueueInput | packages/game-core/src/simulation.ts:293-300 | Appends to the present player's queue only |
| World.WorldState.ApplyInputs | packages/game-core/src/simulation.ts:335-355 | Every queue empties, living snakes obey theirs, others are untouched |
| World.WorldState.ScatterMass | packages/game-core/src/simulation.ts:245-260 | Adds 3 to 60 pellets with fresh ids that sum to 60% of the body: each within 15 of its own body point, of equal mass, decaying two minutes on |
| World.WorldState.DespawnSnake | packages/game-core/src/simulation.ts:168-178 | Removes the snake, its index entry and its inputs, scattering 60% of its mass if asked, and keeps the world consistent |
| Movement.MovedKeeps | packages/game-core/src/simulation.ts:357-396 | A moved snake is the same snake, as fit as before and no heavier |
| Movement.BoostCost | packages/game-core/src/simulation.ts:368-378 | Boosting for any number of ticks of up to a second each costs exactly the whole part of the drain run up, and the floor at mass 1 forgives none of it |
| Movement.LaidByAccount | packages/game-core/src/simulation.ts:385-394 | A tick records a point or slides the head by the account of distance travelled |
| Movement.TravelBalances | packages/game-core/src/simulation.ts:385-388 | Distance travelled is recorded in whole spacings or carried over |
| Movement.FallsBehind | packages/game-core/src/simulation.ts:385-394 | When a tick covers more than a spacing a point is recorded at every tick and the distance carried over grows without bound |
| Movement.CountKeptIff | packages/game-core/src/simulation.ts:385-394 | The number of points recorded is the number of spacings travelled, from every start and after any number of ticks, exactly when a tick covers at most one spacing |
| Movement.TickRatesKeepCount | packages/game-core/src/simulation.ts:369-394 | For a cruising snake that is from 19 ticks a second on, for a boosting one from 35 |
| Movement.MoveSnakes | packages/game-core/src/simulation.ts:357-396 | Every living snake turns, burns and moves by the account, the dead lie still, and the world stays consistent |
| Spacing.StraightBody | packages/game-core/src/simulation.ts:357-394 | The body of a snake that runs straight, boosting or not, lies at the places its head had reached at the ticks before a recording, newest first, behind the head itself |
| Spacing.GapsOnBody | packages/game-core/src/simulation.ts:380-394 | Neighbouring points of that body lie a tick's travel apart, times the ticks between their recordings |
| Spacing.EvenSpacingIff | packages/game-core/src/simulation.ts:385-394 | Whatever was carried over, all gaps between recorded points are equal exactly when a tick covers a spacing or more or a spacing is a whole number of ticks |
| Spacing.SpacingKeptIff | packages/game-core/src/simulation.ts:385-394 | All gaps are a spacing exactly when a spacing is a whole number of ticks |
| Spacing.TickRatesSpaceEvenly | packages/game-core/src/simulation.ts:369-394 | A cruising snake's gaps are equal exactly up to 18 ticks a second and at multiples of 55, a boosting one's up to 34 and at multiples of 209; a spacing wide exactly at the multiples |
| Spacing.CruisingLaysUnevenly | packages/game-core/src/simulation.ts:385-394 | At 30 ticks a second five ticks of any cruising snake with nothing carried over leave gaps of 22/3 and 44/3 |
| FoodSupply.MaintainFood | packages/game-core/src/simulation.ts:524-536 | Adds at most eight pellets and never passes the target |
| FoodSupply.ExpireFood | packages/game-core/src/simulation.ts:538-546 | Every thirtieth tick removes exactly the pellets past their time |
| FoodSupply.SweepRenews | packages/game-core/src/simulation.ts:538-546 | A tick's sweep leaves no pellet that was past its time at the last sweep |
| Timestep.Simulation.Step | packages/game-core/src/simulation.ts:313-333 | One tick is inputs, movement, eating, the sweep with its scattering, new pellets and decay, in that order, with no condition on the snakes; the world stays consistent |
| Matter.EatingKeepsTotal | packages/game-core/src/simulation.ts:412-436 | The mass of the living plus that of the pellets is unchanged by eating |
| Matter.DyingLoses | packages/game-core/src/simulation.ts:516-521 | A sweep loses exactly 40% of the mass of its dead |
| Matter.TickCreatesNothing | packages/game-core/src/simulation.ts:313-333 | A tick adds no mass but its new pellets' and loses 40% of its dead |
| WorldRuns.Play | packages/game-core/src/simulation.ts:116-333 | In any run of arrivals, departures, inputs and ticks the world is consistent throughout, each step as its operation says |
| WorldRuns.IdsNeverReturn | packages/game-core/src/simulation.ts:116-237 | In any run an id once gone is never used again and no snake's id is ever a pellet's |
| WorldRuns.RunDecays | packages/game-core/src/simulation.ts:245-260 | In any run no dropped pellet outlives its two minutes by thirty ticks |
| WorldRuns.RunMass | packages/game-core/src/simulation.ts:239-260 | Over any run the mass of the world grows at most by its newcomers, its new pellets and the bodies of players who leave after their bodies have fallen |
| WorldRuns.LeavingIsLossyIff | packages/game-core/src/simulation.ts:168-178 | A departure adds to the world's mass exactly when a snake whose body has fallen is scattered again |
| WorldRuns.BodiesLieWhole | packages/game-core/src/simulation.ts:516-521 | Every body that falls in a tick is still there whole when the tick ends |
| DeadLeaver.DeadLeaverPaysTwice | apps/realtime/src/rooms/room.ts:194-219 | In any run in which a tick kills a player's snake and the player leaves later, its body falls twice, as two separate sets of pellets that together weigh 120% of it |
| DeadLeaver.RunKeepsDead | packages/game-core/src/simulation.ts:313-396 | Until its player leaves a dead snake stays in the world, dead and at the mass it died with |
| Wire.ReadsU32 | packages/protocol/src/binary.ts:122-124 | A little-endian word reads back modulo its width |
| Wire.ListInverts | packages/protocol/src/binary.ts:215-281 | Parsing a counted list gives back what was printed, wherever it lies, if each item's parser does |
| Uuid.RoundTrip | packages/protocol/src/binary.ts:64-77 | An id survives its 16 bytes up to letter case |
| Uuid.Write | packages/protocol/src/binary.ts:64-69 | Writes the 16 bytes of the id in place |
| Uuid.Read | packages/protocol/src/binary.ts:71-77 | Reads an id anywhere, missing bytes as zero |
| Quantise.NormaliseTurns | packages/protocol/src/binary.ts:138-140 | Normalising moves an angle by whole turns into one turn |
| Quantise.AngleFits | packages/protocol/src/binary.ts:141-142 | A packed angle fits 16 bits and unpacks within half a step |
| Quantise.AngleStable | packages/protocol/src/binary.ts:224-224 | Repacking an unpacked angle gives it back, except that the last step is a full turn and becomes zero |
| Quantise.LastStepReached | packages/protocol/src/binary.ts:141-142 | An angle that packs into the last step |
| Quantise.PositionCloseIff | packages/protocol/src/binary.ts:60-62 | A coordinate comes back within an eighth exactly inside the window around the origin |
| Quantise.PositionStable | packages/protocol/src/binary.ts:240-241 | Repacking an unpacked coordinate gives it back |
| Quantise.MassClose | packages/protocol/src/binary.ts:144-147 | Masses come back within a half and radii within an eighth below their caps, and never leave their field |
| Snapshots.ParseInverts | packages/protocol/src/binary.ts:110-284 | Parsing a printed packed snapshot gives exactly it back |
| Snapshots.RoundTrip | packages/protocol/src/binary.ts:110-284 | With one origin at both ends decoding an encoded snapshot succeeds and recovers ids, names, counts, flags, ticks and acknowledgement exactly and the rest within the stated steps |
| Snapshots.CutNoticedIff | packages/protocol/src/binary.ts:185-284 | A snapshot cut short decodes to an error exactly when the cut is before the end of the food list, or removed food is listed; otherwise to the same snapshot with zero ids for those cut off |
| SnapshotCodec.EstimateSize | packages/protocol/src/binary.ts:85-98 | The estimate is the header plus what each entity needs |
| SnapshotCodec.EncodeSnake | packages/protocol/src/binary.ts:128-160 | Writes one snake's bytes in place within its estimate |
| SnapshotCodec.EncodeSnapshot | packages/protocol/src/binary.ts:110-182 | Every write stays inside the estimate and the trimmed buffer is exactly the format |
| SnapshotCodec.DecodeSnake | packages/protocol/src/binary.ts:215-256 | Reads one snake as the format assigns it, or fails |
| SnapshotCodec.DecodeSnapshot | packages/protocol/src/binary.ts:185-284 | Reads any buffer in bounds, to the snapshot or the error the format assigns it |
| SnapshotCodec.CutRemovalsAccepted | packages/protocol/src/binary.ts:71-77 | A bare header that announces removed snakes decodes, with zero ids |
| InputCodec.EncodeInputBatch | packages/protocol/src/binary.ts:287-306 | Writes exactly the batch format |
| InputCodec.DecodeInputBatch | packages/protocol/src/binary.ts:315-347 | Reads any buffer in bounds, to the batch or the error the format assigns it |
| InputCodec.AcceptedInRange | packages/protocol/src/binary.ts:315-347 | Whatever is accepted has 1 to 10 commands, sequence numbers and times in range and angles in (-pi, pi] |
| InputCodec.AcceptedIff | packages/protocol/src/binary.ts:287-327 | An encoded batch is accepted exactly when its count byte is 1 to 10 |
| InputCodec.RoundTrip | packages/protocol/src/binary.ts:287-347 | Sequence numbers, boosts and the client time come back exactly, headings within half a step up to whole turns, times within a half below the cap |
| Standings.RankedUnique | apps/realtime/src/rooms/room.ts:503-509 | One set of rows has one ranked list, so the comparator leaves the sort no choice |
| Standings.Sort | apps/realtime/src/rooms/room.ts:503-509 | Sorts to a permutation in which every row is ahead of every later one |
| Room.RunKeeps | apps/realtime/src/rooms/room.ts:151-319 | Over any run of joins, leaves, ticks and respawns entrants stay distinct, elimination numbers are distinct and count up from one, and no elimination is ever rewritten |
| Room.VictimsOut | apps/realtime/src/rooms/room.ts:281-297 | Everyone a tick reports dead is eliminated |
| Room.LastStandingFirst | apps/realtime/src/rooms/room.ts:499-509 | The never-eliminated come first and the rest in reverse order of first elimination |
| Room.EveryonePlacedOnce | apps/realtime/src/rooms/room.ts:475-497 | Every entrant has exactly one place |
| Room.OrderIsSettled | apps/realtime/src/rooms/room.ts:281-297 | Two eliminated players keep their relative places whatever happens later |
| Room.OutStaysBehind | apps/realtime/src/rooms/room.ts:194-215 | A player already out never overtakes one still in |
| Room.EntryOrderIrrelevant | apps/realtime/src/rooms/room.ts:482-509 | The table is the same for every order of entry |
| Room.Arena.AddPlayer | apps/realtime/src/rooms/room.ts:151-181 | Seats a new player once; a returning one changes nothing modelled |
| Room.Arena.RemovePlayer | apps/realtime/src/rooms/room.ts:194-219 | Leaving records an elimination and the final score unless one is recorded |
| Room.Arena.Tick | apps/realtime/src/rooms/room.ts:274-297 | Records the deaths in order, first elimination only, latest score |
| Room.Arena.Respawn | apps/realtime/src/rooms/room.ts:262-268 | A seated player gets a new snake and keeps any elimination |
| Room.Arena.BuildResult | apps/realtime/src/rooms/room.ts:460-521 | The standings are the ranked table of every entrant's row with placements from one up |
| TokenBucket.WindowBound | apps/realtime/src/anticheat/validators.ts:76-89 | In any window of a run the calls granted are at most the burst plus the refill of the clock's forward movement in it |
| TokenBucket.QuietRestores | apps/realtime/src/anticheat/event-guard.ts:61-68 | After enough quiet the whole burst is granted at one instant |
| Guards.EventsIndependent | apps/realtime/src/anticheat/event-guard.ts:48-69 | In any mixed stream an event's budget follows its own calls and nothing else |
| Guards.EventBound | apps/realtime/src/anticheat/event-guard.ts:36-69 | A limited event passes at most its burst plus its refill, whatever is mixed in |
| Guards.EventGuard.Allow | apps/realtime/src/anticheat/event-guard.ts:48-69 | One call spends from its own event's bucket, created full at first use; unlisted events always pass |
| InputGuard.SplitsInOrder | apps/realtime/src/anticheat/validators.ts:102-139 | Every command is accepted or rejected, both in order |
| InputGuard.AcceptedClimb | apps/realtime/src/anticheat/validators.ts:55-139 | Across all batches accepted sequence numbers climb by 1 to 600 from the last known one, and accepted fields are finite and in range, times not negative unless a batch caps them below zero |
| InputGuard.SuspicionIsWeighted | apps/realtime/src/anticheat/validators.ts:141-164 | Without decay suspicion moves with the weighted sum of the counters, and each counter counts its rejections |
| InputGuard.AcceptedBound | apps/realtime/src/anticheat/validators.ts:76-139 | Accepted commands are at most the burst plus the refill |
| InputGuard.InputGuardState.ConsumeInputBudget | apps/realtime/src/anticheat/validators.ts:76-89 | Refills for forward time, caps at the burst and spends one token if there is one |
| InputGuard.InputGuardState.ValidateOne | apps/realtime/src/anticheat/validators.ts:109-135 | The first failing check in order names the reason and counts it |
| InputGuard.InputGuardState.ValidateInputBatch | apps/realtime/src/anticheat/validators.ts:102-139 | The loop computes the run's accepted and rejected lists and guard state |
| AuthMessage.ParseAuthMessage | packages/solana/src/auth/message.ts:47-69 | The loop keeps the last line that carries each field |
| AuthMessage.RoundTripIff | packages/solana/src/auth/message.ts:20-69 | All five fields come back exactly when they are non-empty and free of line terminators (for the wallet, of line feeds), whatever the statement holds |
| IsoWeek.SameKeyIffSameWeek | apps/gateway/src/routes/leaderboard.routes.ts:40-51 | Two dates share a key exactly when they share a Monday-to-Sunday week |
| IsoWeek.KeyIsIsoWeek | apps/gateway/src/routes/leaderboard.routes.ts:40-51 | The key is the ISO 8601 week: week 1 holds the year's first Thursday, the year owns the week's Thursday, and weeks run from 1 to 53 |
| IsoWeek.LongYearIff | apps/gateway/src/routes/leaderboard.routes.ts:47-50 | A year has a week 53 exactly when it starts on a Thursday, or on a Wednesday in a leap year |

## Left out

- LobbyReplicas.ReplicasLinearize: requires that no save overwrites a tick stored since its load, which is sufficient for each half and necessary for neither; the exact conditions are `LobbyTorn.FoldsIffFits` for the fold and `LobbyHeld.LaunchesHoldIff` for the launches.
- LobbyHeld.LaunchesHoldIff: is about staying launched and not launching again; a run that leaves the launch may still end before it launches twice.
- LobbyService.PerformLaunch: a throw of the fallback reset itself propagates to the caller and is not modelled.
- LobbyService.LaunchClearsIff: no rival writes during the launch; with rivals `LobbyService.LaunchMovesOn` holds.
- Sweep.BodyIndex.JudgeHeads: which of several killers in contact is credited depends on bucket order and is only constrained to be one of them.
- SweepReach.SweepIsBruteForceIff: cells are at least 1 wide; the configuration demands 64.
- CompletedFlows.CrashThenRetry: one crash point and one full retry; any number of them is covered for the ledger entry by `ClerkRuns.InterleavedBooksAudit`.
- ClerkRuns.InterleavedBooksAudit: is about the books and the entries; what interleaved releases do to reservations is `Releases.ReleasesMatchIff`.
- SettledRuns.ReservationsAlwaysMatch: posted entries touch an escrow only to pay its own game out.
- Releases.ReleasesMatchIff: is about what is reserved, not about whether the balance covers it between two writes of a confirmation.
- Feeding.EatingConserves: mass is conserved by eating; `Matter` and `WorldRuns` say what deaths, departures and new pellets do to it.
- Spacing.EvenSpacingIff: is about the points recorded in a straight run at one speed; a turn or a change of speed starts from the distance carried over, and the gap to the tail laid before the run is not claimed.
- Uuid.RoundTrip: ids are valid UUID text, as the message schema demands; the parse of malformed ids is not modelled.
- IsoWeek.KeyIsIsoWeek: the platform's reading of years 0 to 99 as the 1900s is not modelled; the key is a year and week, not its padded text.
- Room.Arena.Respawn: a removal followed by a new spawn is one step; seats, sockets, views, shadow bans and broadcasts are not modelled.
- Row versions: the version columns of the account rows are not modelled, because a transaction is taken to be atomic.
- The escrow handed to `consumeReservations` is the game's own; wallet ownership checks, manual review, reversal and the rejected statuses of deposits and withdrawals are not modelled.
- Manual adjustments are operations of the settled runs and not of the crashing ones; the worker's settlement is modelled only as entries that pay an escrow out.
- Expiry sweeps of deposits and withdrawals: modelled one intent at a time.
- The player index of the lobby store: it expires by time and several paths leave it stale, so it promises nothing to prove.
- The pseudo-random generator is a stream of draws in [0, 1); nicknames, hues, bot flags and spawn ticks, which nothing modelled reads, are left out of snakes and pellets.
- Area-of-interest views, leaderboards, chat sanitising, suspicion decay and the shadow-ban threshold.
- HTTP routes, schemas, sockets, metrics, Prisma, Redis, BullMQ, Solana calls, cryptography and the user interface.
- Cycle stages in the worker.
- Floating-point rounding, NaN in world coordinates, and the 32-bit float storage of spine points.
