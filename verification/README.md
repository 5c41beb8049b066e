# Nosana programs: a Dafny model of the on-chain accounting

The Nosana network is a set of Solana programs. Users stake NOS tokens for xNOS weight
(`nosana-staking`), stakers share fees through a reflection pool (`nosana-rewards`), projects list
jobs that nodes run for an escrowed price (`nosana-jobs`), and pools emit tokens at a steady rate
(`nosana-pools`). A script draws the winners of a mint pass lottery. This project models the state
these programs keep and proves what holds of it over every run.

## How the model is built

- Every account the programs update in place is a class with the same fields (`StakeAccount`,
  `ReflectionAccount`, `RewardAccount`, `MarketAccount`, `JobAccount`, `RunAccount`, `PoolAccount`),
  and every instruction handler a method on these objects and a `Bank` of token accounts. Each method
  is proved against a function on values. An instruction that aborts is rolled back by the runtime, so
  the methods say nothing about the objects after an abort.
- Whole programs are state machines over these functions: staking and rewards together on one ledger
  (`Network`), the job market (`Marketplace`) and one token pool (`Pools`). A run is any sequence of
  instructions by anyone, with clock ticks and outside transfers in between; an aborted instruction
  changes nothing.
- The release profile has overflow checks on (`Cargo.toml:9`), so every intermediate value that does
  not fit its type aborts: `ToU64`, `ToU128`, `ToI64` and `Quotient` in `Machine` make each such point
  explicit.
- History that the programs do not store (fees taken in, rewards paid out, tokens withdrawn or sent
  by outsiders) is kept in fields of the state machines that no instruction reads.

| file | content |
|---|---|
| `Machine`, `Arith`, `Sequences`, `MapSum`, `Token` | machine integers, arithmetic lemmas, sequences, sums over maps, the token ledger |
| `Staking`, `Rewards`, `Network` | the two programs and their joint state machine |
| `Reflection` | why the reflection pool is fair and solvent |
| `RewardRuns`, `StakeRuns` | whole runs of both programs |
| `Markets`, `Jobs`, `Marketplace` | the market queue, the job instructions and the state machine of the job market |
| `Escrow`, `JobFates`, `Matching` | escrow conservation, what can become of a job, and who is matched with whom over whole runs |
| `StakeEffects`, `RewardEffects`, `JobEffects` | what each instruction does: exactly when it goes through, every field and balance afterwards, and the way from start to payment |
| `Pools` | token pools |
| `Lottery` | the weighted draw |

## Where the code falls short of what it is meant to do

Each of these is stated exactly, with a concrete case. (`HoldersShareFee` in `Reflection` is the case of
a fee that is shared as it should be.)

- The books on which the solvency of the reflection pool rests survive a run if and only if every fee
  in it is *sound*: the remainder of `total_reflection / total_xnos` is below the quotient, and the
  quotient is no higher than the old rate (`Reflection.FeeKeepsBooksExactly`,
  `RewardRuns.RunSoundExactly`; `Reflection.CoveredExactly` says why nothing weaker would do). A rate
  of at least `total_xnos` after a positive fee is enough (`Reflection.RateAbovePoolIsSound`). The code
  tests neither; `Reflection.UnsoundFeeBlocksClaim` is a fee after which the only holder cannot claim.
- Overflow is not excluded. The comment on `INITIAL_RATE` calls it as high as possible without
  overflow, and it is, for pools below the token supply (`Reflection.InitialRateIsLargest`,
  `RewardRuns.RewardsAbortOnlyByConstraint`). But a stake may weigh four times its tokens. Every rewards
  instruction then goes through if and only if its account constraints hold and both totals it leaves
  fit 128 bits (`RewardRuns.RewardsGoThroughExactly`); `Reflection.StakeOutweighsSupply` is a first entry
  that does not, `Reflection.SecondHolderOverflows` a second one. Fees lower the rate and make room.
- A slash can make a claim fail (`StakeRuns.SlashCoversExactly`, `StakeRuns.SlashStopsClaim`) and can
  make withdrawals fail until the lock has elapsed (`StakeRuns.WithdrawGoesThrough`,
  `StakeRuns.SlashOnSchedule`, `StakeRuns.SlashStopsWithdrawal`).
- A gift to the vault of an unstaking stake can do the same. The vault's balance is taken to be at most
  the amount, so as soon as more was given than withdrawn, every withdrawal aborts until the lock has
  elapsed (`StakeRuns.WithdrawGoesThrough`, `StakeRuns.GiftStopsWithdrawal`,
  `StakeRuns.OneUnitStopsWithdrawal`).
- A pool of the fee type loses what an early return books without paying (`Pools.StepSkips`,
  `Pools.RunPaysClaimed`, `Pools.SkippedIsLost`).
- An administrator's quit, and listing in a market of unknown job type, leave a queued job with its
  escrow where none of the modelled instructions can settle or free it (`JobFates.StuckExactly`,
  `JobFates.UnknownTypeStrands`, `JobFates.QuitAdminStrands`).
- Recovering computes a deposit for free jobs too, so a free job with a negative timeout cannot be
  recovered (`Escrow.RecoverGoesThrough`, `JobFates.FreeJobNotRecovered`).

## Model

| member | source | states |
|---|---|---|
| `Reflection.FreshBooks` | programs/nosana-rewards/src/state.rs:35-42 | An initialised pool has exact books: no reflections, no weight, nothing held, and everything covered. |
| `Reflection.CoveredExactly` | programs/nosana-rewards/src/state.rs:59-77 | The pool's inequality `total_reflection < rate * (total_xnos + 1)` holds if and only if every population of holders with these total reflections can be paid its floored shares out of `total_xnos`. |
| `Reflection.Solvent` | programs/nosana-rewards/src/state.rs:59-77 | With exact books, all pending rewards together are at most the fees taken in less the rewards paid out. |
| `Reflection.HolderWithinTotals` | programs/nosana-rewards/src/state.rs:112-114 | `reflection / rate - xnos` never underflows for a holder of a pool with exact books, and removing the holder with its reward never underflows the totals. |
| `Reflection.EnterKeepsBooks` | programs/nosana-rewards/src/instructions/enter.rs:27-34 | Entering keeps the books and the rate, and the new holder starts with no pending reward. |
| `Reflection.ClaimKeepsBooks` | programs/nosana-rewards/src/instructions/claim.rs:27-51 | A claim pays exactly the pending reward, leaves its holder with none, keeps the rate, and the books stay exact for the amount still held. |
| `Reflection.SyncKeepsBooks` | programs/nosana-rewards/src/instructions/sync.rs:18-29 | A sync re-weights its holder, keeps the holder's pending reward to the unit, and keeps the books and the rate. |
| `Reflection.CloseKeepsBooks` | programs/nosana-rewards/src/instructions/close.rs:14-17 | A close never underflows, and what it forfeits stays in the books for the others. |
| `Reflection.RateAbovePoolIsSound` | programs/nosana-rewards/src/state.rs:21-32 | A positive fee after which `rate >= total_xnos` is sound: the comment's reason for a large initial rate, made a sufficient condition. |
| `Reflection.FeeKeepsBooksExactly` | programs/nosana-rewards/src/state.rs:59-62 | A fee, zero included, keeps the books without raising the rate if and only if the remainder of its division is below the quotient and the quotient is at most the old rate; a positive fee always lowers the rate. |
| `Reflection.UnsoundFeeBlocksClaim` | programs/nosana-rewards/src/state.rs:59-62 | A concrete unsound fee: one holder of weight 1 and a fee of a tenth of the supply leave a pending reward above the pool, and the claim aborts. |
| `Reflection.FeeLeavesOnlyDust` | programs/nosana-rewards/src/state.rs:59-62 | Right after a sound fee, what is held exceeds the sum of pending rewards by less than one base unit a holder, so forfeited rewards and rounding have gone back to the holders. |
| `Reflection.PendingRisesAsRateFalls` | programs/nosana-rewards/src/state.rs:112-114 | A lower rate never lowers a pending reward. |
| `Reflection.ConsecutiveFeesAreOne` | programs/nosana-rewards/src/state.rs:59-62 | Any sequence of consecutive fees leaves the totals of a single fee of their sum: rounding does not accumulate. |
| `Reflection.FairShare` | programs/nosana-rewards/src/state.rs:59-62 | After consecutive fees ending soundly, `reflection / rate` is the floor of the proportional share `reflection * total_xnos / total_reflection`, or one more. |
| `Reflection.SyncIdempotent` | programs/nosana-rewards/src/instructions/sync.rs:18-29 | A second sync with the same stake changes nothing. |
| `Reflection.SyncThenClaim` | programs/nosana-rewards/src/instructions/sync.rs:18-29 | With a reward pending, sync then claim gives the totals, the holder and the payout of the claim alone. |
| `Reflection.InitialRateIsLargest` | programs/nosana-rewards/src/state.rs:21-32 | A weight times `INITIAL_RATE` fits 128 bits if and only if the weight is at most the token supply. |
| `Reflection.FirstHolderFits` | programs/nosana-rewards/src/state.rs:32 | The special case of an empty pool at the initial rate: it takes a holder if and only if its weight is at most the token supply. |
| `Reflection.StakeOutweighsSupply` | programs/nosana-staking/src/state.rs:40-44 | A stake of 26 million tokens locked for a year outweighs the whole supply, and its entry into an empty pool overflows: the comment on `INITIAL_RATE` does not rule this out. |
| `Reflection.SecondHolderOverflows` | programs/nosana-rewards/src/state.rs:64-71 | After a first holder as heavy as the supply, a second one of weight 1 cannot enter. |
| `Reflection.RateLeavesRoom` | programs/nosana-rewards/src/state.rs:21-32 | With `total_reflection < rate * (total_xnos + 1)`, both totals fit 128 bits whenever that product does. |
| `Reflection.SupplyLeavesRoom` | programs/nosana-rewards/src/state.rs:21-32 | The initial rate, and any lower one, times a pool below the token supply fits 128 bits. |
| `Reflection.EnterGoesThrough` | programs/nosana-rewards/src/state.rs:64-71 | Entering goes through if and only if both totals it leaves fit 128 bits, whatever the books. |
| `Reflection.FeeGoesThrough` | programs/nosana-rewards/src/state.rs:59-62 | A fee goes through if and only if the pool it leaves is not zero and fits 128 bits, whatever the books. |
| `Reflection.ClaimGoesThrough` | programs/nosana-rewards/src/instructions/claim.rs:27-51 | With exact books a claim's arithmetic goes through if and only if nothing is pending or both totals it leaves fit 128 bits: nothing underflows, nothing divides by zero, the payout fits 64 bits. |
| `Reflection.SyncGoesThrough` | programs/nosana-rewards/src/instructions/sync.rs:18-29 | With exact books a sync goes through if and only if both totals it leaves fit 128 bits. |
| `Rewards.TakeReward` | programs/nosana-rewards/src/instructions/claim.rs:28-42 | Removing, re-entering and updating in place is the one-step claim of the proofs, the early return on zero included. |
| `Rewards.SyncReward` | programs/nosana-rewards/src/instructions/sync.rs:8-29 | Removing first and reading the pending reward afterwards still gives the one-step sync of the proofs; only an active stake syncs. |
| `RewardRuns.StepSoundExactly` | programs/nosana-rewards/src/state.rs:59-77 | One instruction of either program keeps the pool sound and its rate from rising if and only if it is not an unsound fee; only fees change the rate, and a positive one strictly lowers it. |
| `RewardRuns.RunSoundExactly` | programs/nosana-rewards/src/state.rs:59-77 | A run over both programs is sound with a falling rate after every step if and only if every fee in it is sound. |
| `RewardRuns.RunSolvent` | programs/nosana-rewards/src/instructions/claim.rs:27-52 | From a fresh pool, after any run of sound fees, the sum of all pending rewards is covered by the vault, gifts to the vault not counted. |
| `RewardRuns.RunLeavesOnlyDust` | programs/nosana-rewards/src/state.rs:59-62 | After any such run, a further sound fee leaves less than one base unit a holder undistributed in the vault. |
| `RewardRuns.StepKeepsPending` | programs/nosana-rewards/src/instructions/sync.rs:18-30 | Nobody else's instruction lowers a holder's pending reward. |
| `RewardRuns.RunKeepsPending` | programs/nosana-rewards/src/instructions/claim.rs:27-52 | Over any run of sound fees a pending reward never falls unless its own holder claims or closes. |
| `RewardRuns.RewardsGoThroughExactly` | programs/nosana-rewards/src/state.rs:59-77 | In every sound world a rewards instruction goes through if and only if its account constraints hold and both totals it leaves fit 128 bits: no underflow, division by zero or short vault ever stops it. |
| `RewardRuns.RewardsAbortOnlyByConstraint` | programs/nosana-rewards/src/state.rs:21-32 | Hence nothing but its account constraints stops it while the pool it leaves is below the token supply, or the fallen rate has room for a larger one. |
| `RewardRuns.TotalsAfterExactly` | programs/nosana-rewards/src/state.rs:59-77 | The two totals this speaks of are exactly the ones each instruction leaves. |
| `RewardRuns.ClaimsInTurn` | programs/nosana-rewards/src/instructions/claim.rs:27-52 | Distinct holders who may claim one after the other all get through if and only if both totals fit 128 bits after each claim, which is known before the first. |
| `RewardRuns.ClaimsPayEach` | programs/nosana-rewards/src/instructions/claim.rs:44-50 | If they all get through, each is paid exactly what was pending for it before the first claim, and nobody else is paid anything. |
| `RewardRuns.ClaimsInAnyOrder` | programs/nosana-rewards/src/instructions/claim.rs:27-52 | A set of holders whose net growths, payouts subtracted, leave the pool no heavier than the rate has room for can claim in every order: all get through, each for what was pending for it before the first. |
| `RewardRuns.ClaimStep` | programs/nosana-rewards/src/instructions/claim.rs:27-52 | A claim pays its holder's pending reward into its wallet and changes no other holder. |
| `Staking.WeightFits` | programs/nosana-staking/src/state.rs:102-111 | For every 64-bit amount and allowed duration the 128-bit weight computation does not overflow and is exact. |
| `Staking.WeightBounds` | programs/nosana-staking/src/state.rs:102-111 | A stake weighs between one and four times its tokens. |
| `Staking.WeightMonotone` | programs/nosana-staking/src/state.rs:102-111 | More tokens or a longer lock never weigh less. |
| `Staking.WeightSuperadditive` | programs/nosana-staking/src/state.rs:102-111 | Splitting a stake loses at most one unit of weight and never gains. |
| `Staking.WeightPrecision` | programs/nosana-staking/src/state.rs:40-44 | Up to the precision constant the weight is the floor of `amount * (XNOS_DIV + duration) / XNOS_DIV`, or one less. |
| `Staking.ReleaseFits` | programs/nosana-staking/src/state.rs:76-84 | Before the lock elapses the 64-bit release computation goes through if and only if the larger of amount and elapsed time is positive and at most half the range, and then equals the exact release. |
| `Staking.UnlockedBelowSchedule` | programs/nosana-staking/src/state.rs:80-83 | The release never exceeds `elapsed * amount / duration`. |
| `Staking.UnlockedPrecision` | programs/nosana-staking/src/state.rs:80-83 | The release is short of the exact rational value by less than `amount / precision + 1`. |
| `Staking.UnlockedWithinOne` | programs/nosana-staking/src/state.rs:80-83 | For amounts and times below 2^32 - 1 the release is at most one unit below the exact floor. |
| `Staking.PrecisionCoversDuration` | programs/nosana-staking/src/state.rs:81 | Wherever the scaling factor can change between two calls, it is at least the lock duration. |
| `Staking.UnlockedMonotone` | programs/nosana-staking/src/state.rs:76-84 | The released total never falls with time, even where the scaling factor falls, and never exceeds the amount. |
| `Staking.WithdrawExact` | programs/nosana-staking/src/state.rs:76-84 | Exactly when a withdrawal goes through, and what it pays: the release not paid out yet, or the whole vault once the lock has elapsed. |
| `Staking.OpenedValid` | programs/nosana-staking/src/instructions/stake.rs:35-60 | A stake opens if and only if its duration is within limits, and then carries its weight. |
| `Staking.ToppedUpHeavier` | programs/nosana-staking/src/instructions/topup.rs:14-30 | A top-up keeps the weight in step with the amount and never lowers it. |
| `Staking.ExtendedHeavier` | programs/nosana-staking/src/instructions/extend.rs:8-27 | An extension keeps the duration within limits and never lowers the weight. |
| `Staking.UnstakeCycleValid` | programs/nosana-staking/src/instructions/restake.rs:16-25 | Unstaking drops the weight to zero, and restaking with the full amount restores the very same stake. |
| `Staking.SlashedValid` | programs/nosana-staking/src/instructions/slash.rs:23-31 | A slash goes through up to the staked amount and keeps the weight in step. |
| `Network.StepSafe` | programs/nosana-staking/src/instructions/unstake.rs:12-16 | Every instruction of the staking and rewards programs keeps every vault accounted for, every reward account on an existing active stake, and the tokens in total. |
| `Network.RunSafe` | programs/nosana-rewards/src/instructions/enter.rs:8-11 | The same over every interleaving of both programs' instructions. |
| `Network.InitialSafe` | programs/nosana-rewards/src/state.rs:35-42 | The programs start in such a state, with exact books. |
| `Network.SlashMoves` | programs/nosana-staking/src/instructions/slash.rs:23-33 | A slash keeps the difference between amount and vault. |
| `Network.ClaimMoves` | programs/nosana-rewards/src/instructions/claim.rs:44-50 | A claim moves exactly its payout, from the rewards vault to the holder's wallet, and no stake vault. |
| `StakeRuns.HolderPinsStake` | programs/nosana-staking/src/instructions/unstake.rs:12-16 | While a reward account is open its stake can be neither unstaked, restaked, withdrawn from nor closed. |
| `StakeRuns.StepCoversExactly` | programs/nosana-rewards/src/instructions/claim.rs:15-19 | An instruction keeps every stake at least as heavy as its holder is registered if and only if it is not a slash below that weight. |
| `StakeRuns.SlashCoversExactly` | programs/nosana-staking/src/instructions/slash.rs:23-33 | A slash leaves all holders covered if and only if the slashed stake still weighs what its holder is registered with. |
| `StakeRuns.SlashStopsClaim` | programs/nosana-rewards/src/instructions/claim.rs:18 | A concrete slash after which the claim aborts for a decreased stake. |
| `StakeRuns.RunCoversExactly` | programs/nosana-rewards/src/instructions/claim.rs:15-19 | Over every run, `stake.xnos >= reward.xnos` holds after every step if and only if every slash in it leaves the weight its holder is registered with; in particular over runs without slashes. |
| `StakeRuns.VestedMonotone` | programs/nosana-staking/src/state.rs:76-84 | The schedule of an unstaking stake never falls and ends at its amount. |
| `StakeRuns.WithdrawReachesSchedule` | programs/nosana-staking/src/instructions/withdraw.rs:23-32 | Every withdrawal brings the total withdrawn to the schedule's value at that time plus the gifts to the vault, whatever was withdrawn, slashed or given before. |
| `StakeRuns.WithdrawGoesThrough` | programs/nosana-staking/src/instructions/withdraw.rs:7-32 | For every unstaking stake, slashed or given to or not: a withdrawal goes through if and only if the wallet exists, the vault is not empty, and either the lock has elapsed, or the amount is at most half the 64-bit range and the vault holds at most the amount and lacks at most what is released. |
| `StakeRuns.StepOnScheduleExactly` | programs/nosana-staking/src/instructions/restake.rs:22-25 | An instruction keeps a stake's vault on schedule if and only if it is neither a gift of more than was withdrawn nor a slash after which too little is released. |
| `StakeRuns.GiftOnSchedule` | programs/nosana-staking/src/state.rs:82 | The case of a gift, from the state before it. |
| `StakeRuns.SlashOnSchedule` | programs/nosana-staking/src/instructions/slash.rs:23-33 | The case of a slash, from the state before it. |
| `StakeRuns.RunOnScheduleExactly` | programs/nosana-staking/src/state.rs:76-84 | A run keeps a stake on schedule after every step if and only if every gift and slash in it does. |
| `StakeRuns.RunNeverBlocks` | programs/nosana-staking/src/instructions/withdraw.rs:7-32 | After such a run a withdrawal fails only for a missing wallet, an empty vault, or an amount above half the 64-bit range before the lock has elapsed. |
| `StakeRuns.RunThenWithdraw` | programs/nosana-staking/src/state.rs:76-84 | Schedule independence over every run, slashes and gifts included: the total after the next withdrawal depends on the stake, the time and the gifts alone. |
| `StakeRuns.SlashStopsWithdrawal` | programs/nosana-staking/src/state.rs:82 | A concrete slash between two withdrawals after which the second aborts. |
| `StakeRuns.GiftStopsWithdrawal` | programs/nosana-staking/src/state.rs:82 | While the vault of an unstaking stake holds the full amount, a gift of one base unit makes every withdrawal abort until the lock has elapsed. |
| `StakeRuns.OneUnitStopsWithdrawal` | programs/nosana-staking/src/state.rs:82 | The same in numbers: 1 given to the vault of 1000 tokens. |
| `StakeRuns.RunVault` | programs/nosana-staking/src/state.rs:63-94 | Over every run a vault holds the amount of its stake and the gifts less what an unstaking stake has withdrawn; an active stake has withdrawn nothing. |
| `Markets.Position` | programs/nosana-jobs/src/state.rs:180-182 | The first position of a key in the queue, and none exactly when the key is absent. |
| `Markets.StepRefines` | programs/nosana-jobs/src/state.rs:99-134 | Each step of the tagged queue is the step of two separate waiting rooms: the same matches, always with whoever waited longest, the same refusals, and everyone else keeps their place. |
| `Markets.RunRefines` | programs/nosana-jobs/src/state.rs:99-134 | Over whole runs the tagged queue makes the matches of the two waiting rooms. |
| `Markets.OpenedRefines` | programs/nosana-jobs/src/state.rs:37-61 | A newly opened market stands for two empty rooms. |
| `Markets.FloorDecides` | programs/nosana-jobs/src/instructions/list.rs:88-98 | The rule of the waiting rooms leaves no choice: its matches and its next state are determined. |
| `Jobs.SettlementSplits` | programs/nosana-jobs/src/instructions/finish.rs:69-74 | For a job that has run, with a timeout that is not negative, a settlement goes through exactly when `price * timeout` fits 64 bits, pays the time used up to the timeout, and pays out the whole deposit between node and payer. |
| `Jobs.ReimbursedAtMostDeposit` | programs/nosana-jobs/src/state.rs:328-330 | The node's payment never exceeds the deposit, so the refund does not underflow. |
| `Jobs.ListJob` | programs/nosana-jobs/src/instructions/list.rs:77-111 | Job, market, run and ledger after listing: queued, or matched with the first waiting node, and the deposit moved. |
| `Marketplace.RunningJob` | programs/nosana-jobs/src/instructions/end.rs:9-24 | The job of every run exists, is queued, waits nowhere, and has no other run: the reason `end` and `quit` need no state test. |
| `Marketplace.StepLives` | programs/nosana-jobs/src/state.rs:99-134 | Every instruction keeps the lifecycle invariant: the queue type is empty exactly when the queue is, entries are distinct, waiting jobs are existing, queued, idle jobs of that market, and every run works alone on an existing queued job. |
| `Marketplace.RunLives` | programs/nosana-jobs/src/instructions/quit.rs:5-13 | The same over every run of the program. |
| `JobFates.OthersKeepFate` | programs/nosana-jobs/src/state.rs:99-134 | An instruction about one job leaves every other job's account, place in the queues and runs as they were. |
| `JobFates.StuckExactly` | programs/nosana-jobs/src/instructions/quit_admin.rs:14-17 | A queued job is left where nothing can settle it if and only if it was already, or an administrator's quit or a listing under an unknown job type has just put it there; nothing gets it out again. |
| `JobFates.RunStuckExactly` | programs/nosana-jobs/src/state.rs:99-102 | The same over whole runs. |
| `JobFates.RunLeavesNoneStuck` | programs/nosana-jobs/src/instructions/list.rs:88-98 | Without such steps, every queued job of a run from the start either waits in its market's queue or runs, and not both. |
| `JobFates.StepMovesLegally` | programs/nosana-jobs/src/state.rs:285-308 | Terms never change, a timeout never falls, a stopped job never changes, a done job only receives its result, and a queued one leaves that state only as its run closes: nothing is settled twice. |
| `JobFates.StepIsMarketStep` | programs/nosana-jobs/src/instructions/work.rs:47-60 | Listing and working take the step of the tagged queue, and a run is created exactly for each match, with the matched job and node. |
| `JobFates.StepIsRemoval` | programs/nosana-jobs/src/instructions/assign.rs:76-95 | Delisting, stopping and assigning take the tagged queue's removal step. |
| `Matching.StepFollows` | programs/nosana-jobs/src/instructions/list.rs:88-98 | Every instruction of the whole program is, for each market, either nothing or one step of its two waiting rooms, and a run started by listing or working is the match they make. |
| `Matching.RunFollows` | programs/nosana-jobs/src/state.rs:99-134 | Over whole runs, next to any number of other markets, each market stands for two waiting rooms that went through its events with none refused, and the runs started in it are exactly their matches, in order. |
| `Matching.OpenedMarketFollows` | programs/nosana-jobs/src/instructions/open.rs:28-49 | The same for a market opened anywhere in a run, from two empty waiting rooms on. |
| `Matching.TraceDecides` | programs/nosana-jobs/src/instructions/work.rs:47-60 | Those matches are determined by the events alone: first come, first served, whatever else the program does. |
| `Escrow.StepAccounted` | programs/nosana-jobs/src/instructions/finish.rs:69-74 | Every instruction keeps every market vault at exactly the escrow of its queued and stopped jobs plus outside gifts, and the tokens in total. |
| `Escrow.RunConservesEscrow` | programs/nosana-jobs/src/state.rs:310-334 | The same over every run from the start of the program, through price changes. |
| `Escrow.ExtendMoves` | programs/nosana-jobs/src/instructions/extend.rs:47-56 | An extension moves exactly the difference in escrow. |
| `Escrow.SettlingMoves` | programs/nosana-jobs/src/instructions/finish.rs:69-74 | Finishing and ending take exactly the job's escrow out of its market's vault and touch no other vault. |
| `Escrow.FinishGoesThrough` | programs/nosana-jobs/src/instructions/finish.rs:52-75 | Finishing never overflows or finds the vault short: it goes through if and only if the run's node signs with a result and the wallets exist. |
| `Escrow.EndGoesThrough` | programs/nosana-jobs/src/instructions/end.rs:51-65 | Ending only ever meets a queued job that waits nowhere, and goes through if and only if its project signs and the wallets exist. |
| `Escrow.FinishPays` | programs/nosana-jobs/src/instructions/finish.rs:58-74 | Finishing pays the account the node names the price for the time its run took, up to the timeout, and the payer's wallet the rest of exactly the job's escrow; one account in both roles gets the whole; the market's vault pays and no other account moves. |
| `Escrow.EndPays` | programs/nosana-jobs/src/instructions/end.rs:52-64 | Ending pays the run's own node and the job's payer by the same rule. |
| `Escrow.DelistGoesThrough` | programs/nosana-jobs/src/instructions/delist.rs:9-55 | Delisting goes through if and only if the job waits, its project signs and the payer's wallet exists. |
| `Escrow.RecoverGoesThrough` | programs/nosana-jobs/src/instructions/recover.rs:28-36 | Recovering goes through if and only if the job is stopped, its project signs, the wallet exists and the timeout is not negative: a free job with a negative timeout cannot be recovered. |
| `JobFates.UnknownTypeStrands` | programs/nosana-jobs/src/state.rs:99-102 | A concrete job that is stuck, with its deposit in the vault, as soon as it is listed under an unknown job type. |
| `JobFates.QuitAdminStrands` | programs/nosana-jobs/src/instructions/quit_admin.rs:14-17 | A concrete run from an empty program in which an administrator's quit leaves a job stuck with its escrow of 70. |
| `JobFates.FreeJobNotRecovered` | programs/nosana-jobs/src/instructions/recover.rs:28-36 | A concrete run from an empty program: a free job listed with a timeout of -1 and stopped by its node, which nobody can recover. |
| `StakeEffects.OpenStakeExactly` | programs/nosana-staking/src/instructions/stake.rs:35-61 | Exactly when a stake opens in the state machine, and the whole stake then: this amount, this duration, active, weighed; its owner's wallet alone pays, into its vault. |
| `StakeEffects.TopupExactly` | programs/nosana-staking/src/instructions/topup.rs:10-31 | Exactly when a top-up goes through. |
| `StakeEffects.TopupAdds` | programs/nosana-staking/src/instructions/topup.rs:20-30 | It adds the owner's tokens to the stake and to its vault, weighs the stake anew, and changes nothing else. |
| `StakeEffects.ExtendExactly` | programs/nosana-staking/src/instructions/extend.rs:5-27 | Exactly when an extension goes through, and that it changes the duration and the weight alone. |
| `StakeEffects.UnstakeExactly` | programs/nosana-staking/src/instructions/unstake.rs:5-23 | Unstaking goes through if and only if the stake exists, is active and has no reward account, and then only stamps the clock and drops the weight. |
| `StakeEffects.RestakeExactly` | programs/nosana-staking/src/instructions/restake.rs:6-25 | Restaking goes through if and only if the stake exists and is unstaking; the stake is active again for exactly what its vault holds. |
| `StakeEffects.SlashExactly` | programs/nosana-staking/src/instructions/slash.rs:23-33 | A slash goes through if and only if amount and vault cover it; stake and vault lose the same, the slashing account gains it. |
| `StakeEffects.CloseVaultExactly` | programs/nosana-staking/src/instructions/close.rs:8-28 | A vault closes if and only if it is empty, its stake unstaking, and the lock strictly over; the stake goes with it. |
| `StakeEffects.WithdrawPays` | programs/nosana-staking/src/instructions/withdraw.rs:23-32 | A withdrawal moves from the vault to the owner's wallet what the schedule and the gifts have above the total withdrawn, and leaves all stakes as they were. |
| `StakeEffects.UnstakeThenWithdraw` | programs/nosana-staking/src/state.rs:63-94 | From unstaking, over any ticks, to a withdrawal: exactly when it goes through, and that it pays `Unlocked(amount, duration, elapsed)` of the seconds since the unstaking, or the full vault once the lock is over. |
| `StakeEffects.HalfwayInNumbers` | programs/nosana-staking/src/state.rs:76-84 | In numbers: nothing of 1000 tokens is released when they are unstaked, and 500 half a lock later. |
| `RewardEffects.EnterAdds` | programs/nosana-rewards/src/instructions/enter.rs:27-34 | Both totals and the new reward account after an entry, in numbers of the stake's weight and the rate; nothing else changes. |
| `RewardEffects.FeeAdds` | programs/nosana-rewards/src/instructions/add_fee.rs:17-20 | The three totals after a fee, which the giver's wallet alone pays into the rewards vault. |
| `RewardEffects.ClaimReplaces` | programs/nosana-rewards/src/instructions/claim.rs:15-51 | After a claim the holder has the weight of its stake and that weight times the rate, unless nothing was pending; the pending reward moves from the rewards vault to its wallet. |
| `RewardEffects.SyncReplaces` | programs/nosana-rewards/src/instructions/sync.rs:8-29 | After a sync the holder has the weight of its stake, and that weight and the pending reward times the rate; no tokens move. |
| `RewardEffects.CloseRemoves` | programs/nosana-rewards/src/instructions/close.rs:14-17 | A close takes exactly the holder's reflections and weight out of the totals; no tokens move. |
| `JobEffects.KnownExactly` | programs/nosana-jobs/src/types.rs:31-54 | The known job types are 0 to 4, with or without the flag in the high bit; every other one is 127. |
| `JobEffects.OpenExactly` | programs/nosana-jobs/src/instructions/open.rs:28-49 | Exactly when a market opens, and all its fields: the signer's, with these terms, an empty queue and an empty vault. |
| `JobEffects.UpdateExactly` | programs/nosana-jobs/src/instructions/update.rs:13-29 | The authority alone updates; expiration, price, minimum and job type change, the restricted flag, queue and authority do not, nor does any job or run. |
| `JobEffects.ListExactly` | programs/nosana-jobs/src/instructions/list.rs:77-111 | Listing goes through if and only if the market exists, the accounts are fresh and the payer can pay. |
| `JobEffects.ListStarts` | programs/nosana-jobs/src/instructions/list.rs:77-111 | Field by field the job that listing creates: this payer, this project, the market's price, this timeout; its payer's wallet alone pays its escrow; and if a node waits, the first one runs exactly this job from the clock on. |
| `JobEffects.AssignExactly` | programs/nosana-jobs/src/instructions/assign.rs:8-108 | Assigning goes through if and only if the node waits in this market, the accounts are fresh and the payer can pay. |
| `JobEffects.AssignStarts` | programs/nosana-jobs/src/instructions/assign.rs:74-108 | The same job, field by field, run by the chosen node from the clock on. |
| `JobEffects.WorkExactly` | programs/nosana-jobs/src/instructions/work.rs:15-45 | Working goes through if and only if the market exists, the run account is fresh, the node has the xNOS and does not already wait. |
| `JobEffects.WorkStarts` | programs/nosana-jobs/src/instructions/work.rs:47-60 | If a job waits, the first one is run by exactly this node from the clock on; otherwise no run changes; tokens and jobs never do. |
| `JobEffects.StopExactly` | programs/nosana-jobs/src/instructions/stop.rs:5-20 | A waiting node leaves the queue for itself or the market's authority alone, and nothing but that market changes. |
| `JobEffects.ListedWaits` | programs/nosana-jobs/src/instructions/list.rs:88-98 | A listed job waits if and only if no node queue was met and the market's job type is known. |
| `JobEffects.DelistRefunds` | programs/nosana-jobs/src/instructions/delist.rs:42-55 | Delisting pays the whole escrow to the wallet of the job's own payer, and to nobody else, and removes the job. |
| `JobEffects.ListThenDelist` | programs/nosana-jobs/src/instructions/delist.rs:9-55 | A job that was listed and waits can be delisted by its project, and then every balance and every job is as before the listing; exactly when this is so. |
| `JobEffects.ExtendExactly` | programs/nosana-jobs/src/instructions/extend.rs:10-61 | An extension goes through if and only if the job is queued, its project signs, the timeout rises and the payer can pay for the time added. |
| `JobEffects.ExtendAdds` | programs/nosana-jobs/src/instructions/extend.rs:40-61 | It changes the timeout alone, and the payer's wallet pays the price of the time added. |
| `JobEffects.FinishWrites` | programs/nosana-jobs/src/instructions/finish.rs:52-67 | Finishing stores the result, the run's node and starting time, and the clock as its end; the run alone is closed. |
| `JobEffects.EndWrites` | programs/nosana-jobs/src/instructions/end.rs:51-65 | Ending stores the run's node and starting time and the clock, and leaves the result empty; the run alone is closed. |
| `JobEffects.QuitExactly` | programs/nosana-jobs/src/instructions/quit.rs:5-24 | Quitting goes through if and only if the run's node signs; the job is stopped, the run closed, and nothing else changes. |
| `JobEffects.RecoverRefunds` | programs/nosana-jobs/src/instructions/recover.rs:6-36 | Recovering pays the whole escrow of the job to the wallet named, and removes the job. |
| `JobEffects.CompleteExactly` | programs/nosana-jobs/src/instructions/complete.rs:5-23 | Completing goes through if and only if the node of a done job without result signs with one, and changes the result alone. |
| `JobEffects.CleanExactly` | programs/nosana-jobs/src/instructions/clean.rs:5-23 | A job is cleaned up if and only if it is done and over for longer than the expiration of the market named, whichever market that is. |
| `JobEffects.StepKeepsRun` | programs/nosana-jobs/src/state.rs:350-356 | While a run is open no instruction changes its job, its node or its starting time. |
| `JobEffects.RunKeepsTerms` | programs/nosana-jobs/src/state.rs:332-334 | Nor does any sequence of instructions, and its job keeps payer, project, market and price, with a timeout that never falls. |
| `JobEffects.StartThenFinish` | programs/nosana-jobs/src/instructions/finish.rs:58-74 | From start to payment: however a run was started, and whatever happens while it is open, finishing pays for the seconds since that start, up to the timeout, and refunds the job's payer. |
| `JobEffects.WorkTickFinish` | programs/nosana-jobs/src/instructions/work.rs:47-60 | A waiting job taken, run for some seconds and finished: the node is paid for exactly these seconds. |
| `JobEffects.ThreeSeconds` | programs/nosana-jobs/src/state.rs:328-330 | In numbers: price 7, timeout 10, taken at 1000, finished at 1003: 21 for the node and 49 back. |
| `Pools.PoolClaimExactly` | programs/nosana-pools/src/state.rs:48-56 | After the start a claim never underflows: it aborts if and only if the elapsed time or the emission no longer fits 64 bits. |
| `Pools.TransferClosedForm` | programs/nosana-pools/src/instructions/claim_transfer.rs:23-34 | After a successful transfer claim the total paid is the smaller of the emission so far and all deposits, whatever was claimed before. |
| `Pools.TransferGoesThroughExactly` | programs/nosana-pools/src/instructions/claim_transfer.rs:10-33 | A transfer claim goes through if and only if the beneficiary's account exists, the type is transfer, the pool has started, elapsed time and emission fit, and at least one emission can be taken. |
| `Pools.RunTransferClosedForm` | programs/nosana-pools/src/instructions/claim_transfer.rs:23-34 | The same after every schedule of deposits, claims and beneficiary changes since the pool was opened. |
| `Pools.EmittedModulo` | programs/nosana-pools/src/state.rs:48-49 | The emission counts the seconds since the start modulo 2^64, so before the start it is a huge number and not a negative one. |
| `Pools.TransferPays` | programs/nosana-pools/src/instructions/claim_transfer.rs:23-33 | A transfer claim moves exactly what is claimable from the pool's vault to its beneficiary, and books it. |
| `Pools.FeeGoesThroughExactly` | programs/nosana-pools/src/instructions/claim_fee.rs:13-39 | A fee claim goes through if and only if the beneficiary is the rewards vault, the type is fee, the pool has started, elapsed time and emission fit, and, once there is an emission to pay, the reflection pool can take it. |
| `Pools.FeeFeedsPool` | programs/nosana-pools/src/instructions/claim_fee.rs:27-39 | A fee claim that pays raises the reflection pool's weight by what is claimable, keeps its reflections, sets its rate to the floored quotient, and moves the tokens into the rewards vault; one that pays nothing leaves both alone. |
| `Pools.FeeClaimKeepsBooks` | programs/nosana-pools/src/instructions/claim_fee.rs:38 | If what a claim pays is a sound fee, the books of the reflection pool then hold for what it held and that amount. |
| `Pools.TenFeedThePool` | programs/nosana-pools/src/instructions/claim_fee.rs:38 | In numbers: a claim of 10 turns totals of rate 100, reflections 1000 and weight 10 into rate 50 and weight 20. |
| `Pools.FeeClosedForm` | programs/nosana-pools/src/instructions/claim_fee.rs:27-39 | A fee claim books the smaller of the emission so far and all it could ever take, and pays it only from one emission upwards. |
| `Pools.StepBalanced` | programs/nosana-pools/src/state.rs:48-56 | Every step keeps the vault accounted for and the claimed tokens within the emission so far. |
| `Pools.RunBalanced` | programs/nosana-pools/src/state.rs:48-56 | The same over whole runs, in which nothing but the claimed tokens of the pool changes. |
| `Pools.StepSkips` | programs/nosana-pools/src/instructions/claim_fee.rs:33-36 | A guard on the state before a claim tells exactly when it books tokens without paying them, and how many. |
| `Pools.RunPaysClaimed` | programs/nosana-pools/src/instructions/claim_fee.rs:33-36 | A fee pool pays exactly what it books as claimed less what the claims meeting that guard skipped; so it pays what it books if and only if none met it. |
| `Pools.SkippedIsLost` | programs/nosana-pools/src/instructions/claim_fee.rs:33-36 | A concrete early return whose tokens are booked, never paid, and never due again. |
| `Lottery.Select` | scripts/draw-mint-pass-lottery.ts:114-125 | The scan finds a row exactly for the points on the ticket scale, and the row found holds the point. |
| `Lottery.OneHolder` | scripts/draw-mint-pass-lottery.ts:111-125 | Every point of the scale is held by one row and no other, and that row has tickets. |
| `Lottery.ChanceIsTickets` | scripts/draw-mint-pass-lottery.ts:111-120 | Exactly as many points of the scale select a user as the user has tickets. |
| `Lottery.PointExactly` | scripts/draw-mint-pass-lottery.ts:111-112 | A random number picks a point if and only if it lies in the point's interval, which is as long as every other point's. |
| `Lottery.DrawExactly` | scripts/draw-mint-pass-lottery.ts:110-125 | One draw selects a user exactly for the random numbers that, scaled to the remaining tickets, lie among that user's tickets, and goes on with the other users. |
| `Lottery.HalfOfHundred` | scripts/draw-mint-pass-lottery.ts:110-125 | In numbers: with 1 and 99 tickets a random number of a half selects the second user. |
| `Lottery.PreselectedInOrder` | scripts/draw-mint-pass-lottery.ts:100-101 | The users selected in advance come in the order of the table. |
| `Lottery.PreselectedExactly` | scripts/draw-mint-pass-lottery.ts:100-101 | The users selected in advance are exactly those with no tickets, each once. |
| `Lottery.OutcomeIsFair` | scripts/draw-mint-pass-lottery.ts:110-126 | Nobody is drawn twice, nobody without tickets is drawn, and a draw selects nobody only once all who had tickets have been selected. |
| `Lottery.WinnersDistinct` | scripts/draw-mint-pass-lottery.ts:100-126 | The list of winners, those selected in advance included, holds no duplicates. |
| `Lottery.DrawWinners` | scripts/draw-mint-pass-lottery.ts:97-126 | The loop, with its running total weight, computes that outcome. |
| `Token.TransferConserves` | common/src/utils.rs:31-50 | A transfer creates and destroys nothing and touches only its two accounts. |
| `Token.TransferGoesThrough` | common/src/utils.rs:31-50 | While all balances together fit 64 bits, a transfer goes through if and only if both accounts exist and the payer holds the amount. |
| `Rewards.ReflectionAccount.AddFee` | programs/nosana-rewards/src/state.rs:59-62 | The in-place update ends in the pool that the proofs about fees speak of, and aborts in the same cases. |
| `Rewards.ReflectionAccount.AddRewardsAccount` | programs/nosana-rewards/src/state.rs:64-71 | The in-place update and the returned reflections are those that the proofs about joining speak of. |
| `Rewards.ReflectionAccount.RemoveRewardsAccount` | programs/nosana-rewards/src/state.rs:73-77 | The in-place update is the leaving that the proofs speak of, and aborts on either underflow. |
| `Rewards.EnterPool` | programs/nosana-rewards/src/instructions/enter.rs:8-34 | Only an active stake enters; pool and reward account end as the books proof has them. |
| `Rewards.AddFeeToPool` | programs/nosana-rewards/src/instructions/add_fee.rs:17-20 | The fee reaches both the pool and the vault, or aborts exactly when either cannot take it. |
| `Rewards.ClaimReward` | programs/nosana-rewards/src/instructions/claim.rs:15-51 | The whole claim: its constraints, the pool, the holder, and the transfer of the pending reward. |
| `Rewards.CloseReward` | programs/nosana-rewards/src/instructions/close.rs:14-17 | Closing removes exactly the holder's reflections and weight. |
| `Staking.StakeAccount.UpdateXnos` | programs/nosana-staking/src/state.rs:102-111 | The in-place weight update is the checked weight of the fields, zero while unstaking. |
| `Staking.StakeTokens` | programs/nosana-staking/src/instructions/stake.rs:35-61 | The stake account is filled and the tokens move, or it aborts exactly when the duration or the transfer fails. |
| `Staking.TopupStake` | programs/nosana-staking/src/instructions/topup.rs:10-31 | Amount, weight and tokens grow together, for active stakes and positive amounts only. |
| `Staking.ExtendStake` | programs/nosana-staking/src/instructions/extend.rs:5-27 | The duration grows up to the cap, for active stakes only. |
| `Staking.UnstakeTokens` | programs/nosana-staking/src/instructions/unstake.rs:5-23 | Unstaking requires an active stake whose reward account is closed. |
| `Staking.RestakeTokens` | programs/nosana-staking/src/instructions/restake.rs:6-25 | The amount is reset to what the vault holds, for unstaking stakes only. |
| `Staking.SlashStake` | programs/nosana-staking/src/instructions/slash.rs:23-33 | Amount and vault fall together. |
| `Staking.WithdrawTokens` | programs/nosana-staking/src/instructions/withdraw.rs:8-32 | The computed amount moves from the vault to the user, nothing when it is zero. |
| `Staking.CloseStake` | programs/nosana-staking/src/instructions/close.rs:8-28 | The vault closes only empty, while unstaking, and strictly after the lock has elapsed. |
| `Markets.MarketAccount.Update` | programs/nosana-jobs/src/state.rs:63-79 | Terms change, the restricted flag in the high bit of the job type and the queue do not. |
| `Markets.MarketAccount.AddToQueue` | programs/nosana-jobs/src/state.rs:99-112 | The order joins at the end and sets the type of an empty queue; nothing happens for an unknown job type. |
| `Markets.MarketAccount.RemoveFromQueue` | programs/nosana-jobs/src/state.rs:114-126 | The first occurrence leaves, the last one empties the type, and an absent key aborts with nothing changed. |
| `Markets.MarketAccount.PopFromQueue` | programs/nosana-jobs/src/state.rs:128-134 | The head leaves, the last one empties the type, and an empty queue aborts. |
| `Jobs.MakeDeposit` | programs/nosana-jobs/src/instructions/list.rs:100-110 | The deposit moves exactly when the job has a price. |
| `Jobs.WorkInMarket` | programs/nosana-jobs/src/instructions/work.rs:15-60 | Market and run after a node reports: queued once, or matched with the first waiting job. |
| `Jobs.AssignJob` | programs/nosana-jobs/src/instructions/assign.rs:74-108 | The chosen node leaves the queue and runs the new job, and the deposit moves. |
| `Jobs.FinishJob` | programs/nosana-jobs/src/instructions/finish.rs:9-75 | The job is done with its result and times, and node and payer are paid. |
| `Jobs.EndJob` | programs/nosana-jobs/src/instructions/end.rs:9-65 | The same by the project, with no test of the job's state. |
| `Jobs.ExtendJob` | programs/nosana-jobs/src/instructions/extend.rs:10-61 | The timeout rises and the escrow is topped up by the difference. |
| `Jobs.DelistJob` | programs/nosana-jobs/src/instructions/delist.rs:9-55 | The job leaves the queue and its deposit is refunded. |
| `Jobs.QuitJob` | programs/nosana-jobs/src/instructions/quit.rs:7-24 | The node of the run stops the job, with no test of the job's state. |
| `Jobs.RecoverJob` | programs/nosana-jobs/src/instructions/recover.rs:6-36 | The deposit of a stopped job is refunded, computed even for free jobs. |
| `Jobs.StopNode` | programs/nosana-jobs/src/instructions/stop.rs:5-20 | A node leaves the node queue at its own or the market's request. |
| `Jobs.CompleteJob` | programs/nosana-jobs/src/instructions/complete.rs:5-23 | The node of a done job posts a result once. |
| `Pools.PoolAccount.Claim` | programs/nosana-pools/src/state.rs:48-56 | The in-place claim raises what is claimed by the amount due, at most what is available. |
| `Pools.ClaimTransfer` | programs/nosana-pools/src/instructions/claim_transfer.rs:10-34 | The claim is paid to the beneficiary, or aborts below one emission with nothing claimed. |
| `Pools.ClaimFee` | programs/nosana-pools/src/instructions/claim_fee.rs:13-39 | The claim feeds the reflection pool, or below one emission is booked without being paid. |

## Left out

- Solana and Anchor plumbing: derived addresses, bumps, rent, account sizes (so the byte capacity of the market queue too), discriminators and cross-program call wrappers. Addresses are numbers, and an account is created at a key nobody uses yet.
- The heap objects keyed by address: the state machines hold the accounts of a program as maps of values, so aliasing between accounts passed to one instruction is not modelled.
- Signatures and `has_one` links appear as equality of keys where they decide anything. That an administrator or slashing authority signs is not modelled: in the state machines anyone may slash, and anyone may call the administrator's quit.
- Token accounts named by address are folded into one wallet per owner. For a free job the programs accept any token account in these places; the state machines name the same wallets there.
- Staking Withdraw and rewards Claim pay any token account of the caller's choice; the state machine pays the owner's wallet. The slashing account may be any token account the settings name; here it is one account apart from the vaults.
- Finish and Recover pay any token account of the caller's choice; the state machine pays any wallet. A payment straight into another market's vault is that payment followed by a transfer.
- `clean_admin`, and market `close` and `close_admin`: they discard jobs or sweep a vault by design, and the invariants do not speak of runs with them.
- Market restriction, access keys, NFT ownership and Metaplex metadata: external data and single-branch guards. The restricted flag is kept in the job type.
- The market's default `job_timeout` field and the `state` field of a run: stored, never read by the modelled instructions.
- The network fee on jobs: its fraction is 0, so the fee is always 0.
- `BpfWriter` and account serialization: only the created run record is modelled.
- Rewards `migrate`, staking `SettingsAccount::set`, pool `close` and `update_beneficiary` authority checks: assignments under an authority's signature.
- The `nodes` program: finite tables and field copies.
- `Pools` follows one pool. The reflection pool's totals are part of its state and may change in any way between its steps, as the rewards program's own instructions do.
- Lottery.DrawWinners: takes distinct addresses, as one stake account exists per authority, and the numbers of the seeded generator as exact reals in `[0, 1)`; floating-point rounding, the chain snapshot, the ticket tiers and the CSV files are not modelled.
- All other scripts, the deployment and the test suite.
