# Bulkmail, verified

A Dafny model of the two stateful cores of Bulkmail and of the arithmetic that couples them:

* the **mempool tracker** (`crates/mempooloracle`): per-account nonce slots, the base-fee index and the priority
  queue, through insertions, evictions, blocks and base-fee changes;
* the **concurrent Ethereum sender** (`crates/bulkmail`): one `run` loop, callers of `add_message` and up to 16 tasks
  that take a nonce, send, and then confirm, release or resubmit;
* the **fee loop** (quotes, bumps, running estimate) and the **message priority** in machine integers.

`dafny verify dfyconfig.toml` checks everything.

## How it is modelled

| file | content |
|---|---|
| `Prelude.dfy`, `Tally.dfy` | machine ranges; totals over sequences |
| `Messages.dfy` | deadline, retry budget, effective priority in wrapping u32/u64 |
| `Nonces.dfy`, `GasPrices.dfy`, `EthAdapter.dfy` | the managers as classes over pure state functions; fee bumps and the retry decision |
| `SenderModel.dfy` | the sender as a transition system |
| `SenderConservation.dfy`, `SenderProgress.dfy` | invariants under any adapter: permits, messages, wake-ups, send budget, bounded tasks, coming to rest, expiry |
| `SenderOrder.dfy`, `SenderFeedback.dfy` | which message is started and what its deadline decides; samples, estimate, quotes and nonce baseline as functions of the run so far |
| `SenderNonces.dfy`, `SenderFees.dfy` | invariants of the Ethereum adapter: nonce safety, the closed fee loop, the replacement law |
| `SenderExamples.dfy` | runs in which a replacement misses the 10% threshold on its max fee and in which a reverted nonce is handed out again |
| `SenderTask.dfy` | `process_message` and `send_and_watch` as imperative code under interference, matched step by step with the transition system |
| `MempoolState.dfy` | tracked state, abstract map (address, nonce) to transaction, classification, invariants |
| `MempoolInsert.dfy`, `MempoolBlock.dfy` | what an insertion and a block do to that state |
| `MempoolRuns.dfy`, `MempoolQueries.dfy` | whole runs; gas ahead and confirmation estimates |
| `MempoolExamples.dfy` | concrete runs in which an index goes wrong |
| `Mempool.dfy` | the tracker as a class with the source's loops, proved equal to the above |

The sender's steps are as fine as its lock acquisitions and await points. A new block cancels `process_next_message`
wherever it is suspended. Clock readings, node answers and send outcomes are free choices in the step labels.
`AnyStrategy` stands for an adapter about which nothing is known: it may decide anything and rewrite nonce and fee
state at any moment. `message_ready` is a flag: `notify_one` sets it, waking clears it, and a notification given
to a waiter that is then cancelled is handed back, as tokio's `Notify` does.

Integers are unbounded; widths are written out where they matter. Sums of gas and of the priority terms wrap as in
a release build, and lemmas say when they do not. Nonces obey EIP-2681 (below 2^64 - 1); under that rule the
subtractions and additions of the tracker are kept in `U64` variables, so their not wrapping is checked.
`private_flow_ratio` is a real number. `percent(x, 100)` has only 101 arguments; its double-precision values are
written out (one less than `x` at 29, 57 and 58, `x` elsewhere).

## What the proofs turned up

* Eviction pops the queue key with the **highest** fee and drops whatever transaction is in that slot now. Of the live
  transactions the queue names, that is the dearest exactly when every key claiming more than its tip is stale
  (`EvictionTakesDearestIff`): always in a sound queue, still with a stale key in front whose transaction tips most
  (`StaleFrontCanTakeDearest`), and not when a stale key shields a dearer one (`EvictionCanTakeCheapest`). The newcomer
  may then be rejected all the same.
* The base-fee index can outgrow `global_capacity` (`CapacityCanBeExceeded`, six insertions). `CapacityThroughoutIff`
  says exactly when.
* A block that skips a live nonce below an included one leaves its base-fee key behind
  (`BlockKeepsEligibilitySoundIff`); hearing of a mined transaction late is enough (`LateArrivalStrandsKey`). The key stays
  and takes up capacity until a transaction with the same sender, nonce and max fee is tracked again
  (`StrandedKeyStays`).
* A 20% tip bump does not always raise `max_fee_per_gas` by 10%: below 2 Gwei it never does (`MaxFeeBumpClearsIff`),
  and a quiet network leads there (`ReplacementCanBeUnderpriced`).
* A transaction that was mined and reverted has used its nonce, yet the nonce is released once the message is out of
  retries. It goes to the next task that asks, unless the baseline has passed it or a lower nonce is free
  (`IssuedIff`, `PassedNonceNeverIssued`); without a block in between, another message is sent with it
  (`RevertedNonceReissued`).
* `Requeue` and `Abandon` would release a nonce twice; with the constants as they are, neither is ever reached
  (`RequeueAndAbandonUnreachable`).
* The priority wraps around u32. Up to any moment before the deadline, waiting never lowers it exactly when the sum has
  not wrapped by then (`PriorityGrowsIff`); within the library's limits a dated message never wraps
  (`DatedPriorityGrows`), while an undated one evaluated 2^32 blocks after its creation is back at 0
  (`UndatedPriorityCanFall`).

Where the code and its documentation disagree, the code is followed: confirmation advances the baseline to the nonce
itself (`ARCHITECTURE.md` says nonce + 1); the deadline boost is linear and never below 42 (`ARCHITECTURE.md` and a
comment say a third of the maximum); a message that is expired when its task starts has taken no nonce, so none is
released (`ARCHITECTURE.md` says it is); a message out of retries is dropped, not re-queued.

## Model

| member | source | states |
|---|---|---|
| `Messages.New` | crates/bulkmail/src/message.rs:100-119 | a new message meets the limits the other results ask for: priority at most 100, full retry budget, no retry history |
| `Messages.NewMessageMeaning` | crates/bulkmail/src/message.rs:100-119 | a new message expires exactly its deadline after its creation and starts at its clamped priority, 100 more if the deadline is less than three blocks away |
| `Messages.BoostTable` | crates/bulkmail/src/message.rs:168-181 | the boost for every number of whole blocks left: 100 down from 2, then 92, 84, 75, 67, 59, 50, 42, and none from 10 on |
| `Messages.ExpiresAtDeadline` | crates/bulkmail/src/message.rs:157-203 | a message expires exactly at creation plus deadline, 2^64 earlier if that is beyond the clock, and never without a deadline |
| `Messages.PriorityOfDated` | crates/bulkmail/src/message.rs:135-182 | before the deadline the priority is own priority + retries + one per two seconds of age + the table's boost, if that fits u32 |
| `Messages.PriorityOfUndated` | crates/bulkmail/src/message.rs:135-146 | the same without a deadline and without a boost |
| `Messages.RetryMeaning` | crates/bulkmail/src/message.rs:185-193 | counting a retry allows another attempt exactly for fewer than two retries before |
| `Messages.FactorZeroIffExpired` | crates/bulkmail/src/message.rs:157-203 | the zero factor means expired and nothing else; a live boost lies in 42..100 |
| `Messages.PriorityExactIff` | crates/bulkmail/src/message.rs:135-146 | the machine priority is the documented sum modulo 2^32, and equal to it if and only if the sum fits u32 |
| `Messages.PriorityGrowsIff` | crates/bulkmail/src/message.rs:135-182 | for every message and moment before its deadline: waiting up to then never lowers the priority if and only if the sum has not wrapped around u32 by then |
| `Messages.WrapMeansFall` | crates/bulkmail/src/message.rs:142-145 | whenever the sum wraps from one millisecond to the next, the priority falls |
| `Messages.DatedPriorityGrows` | crates/bulkmail/src/message.rs:135-203 | a dated message with priority at most 100 and at most 3 retries only rises until its deadline and is 0 from there on |
| `Messages.PriorityBound` | crates/bulkmail/src/message.rs:135-203 | with a deadline, priority at most 100 and at most 3 retries: exact, at most 2,147,686 at every clock reading, 0 from the deadline on |
| `Messages.PriorityBoundIsTight` | crates/bulkmail/src/message.rs:135-146 | the bound is reached |
| `Messages.UndatedPriorityCanFall` | crates/bulkmail/src/message.rs:142-145 | a message without a deadline for which waiting lowers the priority from 2^32 - 1 to 0 |
| `Nonces.FirstFree` | crates/bulkmail/src/nonce_manager.rs:66-71 | the least nonce from the baseline on that is not in flight, at most the baseline plus the number in flight |
| `Nonces.FirstFreeIsUnique` | crates/bulkmail/src/nonce_manager.rs:63-75 | that description determines the nonce |
| `Nonces.NonceManager.constructor` | crates/bulkmail/src/nonce_manager.rs:46-57 | starts at the on-chain nonce with nothing in flight |
| `Nonces.NonceManager.GetNextAvailableNonce` | crates/bulkmail/src/nonce_manager.rs:63-75 | reserves the least free nonce; the search ends within the number in flight |
| `Nonces.NonceManager.MarkNonceAvailable` | crates/bulkmail/src/nonce_manager.rs:81-83 | takes exactly one nonce out of flight |
| `Nonces.NonceManager.UpdateCurrentNonce` | crates/bulkmail/src/nonce_manager.rs:90-96 | the baseline becomes the larger of the two, entries below it are pruned, lower values change nothing |
| `Nonces.NonceManager.SyncNonce` | crates/bulkmail/src/nonce_manager.rs:106-110 | a successful query advances the baseline, a failed one changes nothing |
| `GasPrices.GasPriceManager.constructor` | crates/bulkmail/src/gas_price.rs:83-88 | 1 Gwei estimate, empty window |
| `GasPrices.GasPriceManager.RecordSample` | crates/bulkmail/src/gas_price.rs:154-159 | the sample enters the window, the oldest of eleven leaves |
| `GasPrices.GasPriceManager.BlendFee` | crates/bulkmail/src/gas_price.rs:161-162 | the used fee is blended half and half into the estimate |
| `GasPrices.GasPriceManager.UpdateOnConfirmation` | crates/bulkmail/src/gas_price.rs:149-163 | the sample enters the window of ten and the used fee is blended half and half |
| `GasPrices.GasPriceManager.AnalyzeNetworkCongestion` | crates/bulkmail/src/gas_price.rs:126-142 | the level of the current window |
| `GasPrices.GasPriceManager.GetGasPrice` | crates/bulkmail/src/gas_price.rs:96-118 | the fixed base fee and the scaled, capped tip for the current estimate and window |
| `GasPrices.WindowIsLastTen` | crates/bulkmail/src/gas_price.rs:154-158 | after any history the window is exactly the last min(k, 10) samples |
| `GasPrices.QuoteMeaning` | crates/bulkmail/src/gas_price.rs:103-183 | the quoted tip is the estimate, times one, two or three by the window's total time, with the priority's percentage on top, rounded down and capped at 100 Gwei |
| `GasPrices.BlendIsMidpoint` | crates/bulkmail/src/gas_price.rs:161-162 | the blended estimate is the midpoint, rounded down |
| `GasPrices.CongestionByTotal` | crates/bulkmail/src/gas_price.rs:126-142 | the level read off the window total against 15 and 60 seconds per sample, without the average |
| `GasPrices.SlowerIsMoreCongested` | crates/bulkmail/src/gas_price.rs:126-142 | raising any samples never lowers the level |
| `GasPrices.PercentGrows` | crates/bulkmail/src/gas_price.rs:181-183 | the percentage is monotone and at most 100 |
| `GasPrices.PriorityFeeGrows` | crates/bulkmail/src/gas_price.rs:103-118 | the tip grows with the estimate, the level and the priority |
| `GasPrices.SlowerHistoryNeverCheaper` | crates/bulkmail/src/gas_price.rs:103-163 | a history that is slower anywhere never leads to a lower quote for the same estimate and priority |
| `GasPrices.OldSamplesForgotten` | crates/bulkmail/src/gas_price.rs:103-163 | histories that agree on their last ten samples lead to the same quote |
| `GasPrices.PriorityFeeInRange` | crates/bulkmail/src/gas_price.rs:103-118 | quotes from estimates in 1..144 Gwei lie in 1..100 Gwei, at least the capped estimate, without u128 overflow |
| `EthAdapter.DecisionMeaning` | crates/bulkmail/src/adapter/ethereum.rs:293-324 | abandon exactly from three retries on, requeue exactly after three replacements, otherwise the same nonce with the tip raised by a fifth |
| `EthAdapter.TipBumpClearsIff` | crates/bulkmail/src/adapter/ethereum.rs:344-346 | a bump raises the tip by at least 10% if and only if the tip is 0 or at least 5 wei |
| `EthAdapter.MaxFeeBumpClearsIff` | crates/bulkmail/src/adapter/ethereum.rs:97-107 | it raises `max_fee_per_gas` by at least 10% if and only if the tip is 2 Gwei or at least 2 Gwei + 5 wei |
| `EthAdapter.BumpStaysUnderCeiling` | crates/bulkmail/src/adapter/ethereum.rs:210-215 | tips climb at most 100, 120, 144 Gwei over two bumps, at least 10% each, without u128 overflow |
| `SenderTask.Sender.constructor` | crates/bulkmail/src/sender.rs:67-83 | the sender over the given managers agrees with the transition system |
| `SenderTask.Sender.AddMessage` | crates/bulkmail/src/sender.rs:86-91 | the message is queued under its priority of this moment and a notification is left, whatever its retry count: two more steps of the run |
| `SenderTask.Sender.AddMessageAgain` | crates/bulkmail/src/sender.rs:279-280 | the same by a task that puts its message back, with others moving in between; it continues the run so far |
| `SenderTask.ExecExtendsRun` | crates/bulkmail/src/sender.rs:165-291 | what the code below does from a state of a run continues the run, so every run theorem applies to it |
| `SenderTask.Sender.HandleDropped` | crates/bulkmail/src/adapter/ethereum.rs:293-324 | the decision for any message, and the strategy's own release before a requeue or an abandonment, which leaves the task one more to make |
| `SenderTask.Sender.ConfirmOwnNonce` | crates/bulkmail/src/adapter/ethereum.rs:254-256 | the baseline advances to the nonce itself: one more step of the run, after any of the others' |
| `SenderTask.Sender.Quote` | crates/bulkmail/src/sender.rs:174-186 | nonce and fee from three guarded sections, whatever happens between them; the run so far is continued |
| `SenderTask.Sender.AcquireNonce` | crates/bulkmail/src/sender.rs:173-174 | the run so far is continued, with the taking of this nonce by this task as its last step |
| `SenderTask.Sender.CheckExpiry` | crates/bulkmail/src/sender.rs:200-206 | an expired message is not sent, its nonce is released and the task ends; any other is on its way to the client |
| `SenderTask.Sender.FailAndQuit` | crates/bulkmail/src/sender.rs:212-222 | a failed send releases the nonce and ends the task |
| `SenderTask.Sender.UpdateManagers` | crates/bulkmail/src/adapter/ethereum.rs:326-339 | sample, blend and nonce confirmation, joined in any order, with others moving in between |
| `SenderTask.Sender.ReleaseAndQuit` | crates/bulkmail/src/sender.rs:203-206 | the release before an early return is the last step of the task; the run so far is continued |
| `SenderTask.Sender.ReleaseAndRequeue` | crates/bulkmail/src/sender.rs:275-281 | release, push and notify are the last steps of a requeued task; the run so far is continued |
| `SenderTask.Sender.ConfirmAndQuit` | crates/bulkmail/src/adapter/ethereum.rs:326-339 | a confirmed transaction: both managers are updated and the task ends; the run so far is continued |
| `SenderTask.Sender.CountRetry` | crates/bulkmail/src/sender.rs:241-260 | the counted message, whether it may be tried again, and what the task then has to do |
| `SenderTask.Sender.CountRetryAndDecide` | crates/bulkmail/src/sender.rs:241-288 | the retry is counted before the decision on the older copy; a resubmission leaves a strictly larger count below 3, everything else ends the task; the run so far is continued |
| `SenderTask.Sender.SendAndWatch` | crates/bulkmail/src/sender.rs:193-291 | the loop ends, and its effect on the shared state, with any steps of the others at every suspension point, continues the run so far and finishes the task |
| `SenderTask.Sender.ProcessMessage` | crates/bulkmail/src/sender.rs:165-190 | the same for a task from its start |
| `SenderConservation.OwnersDiffer` | crates/bulkmail/src/sender.rs:129-161 | no message is in two tasks |
| `SenderConservation.QueuedIsNotOwned` | crates/bulkmail/src/sender.rs:129-161 | no message is both queued and in a task |
| `SenderConservation.StepKeepsWakeUp` | crates/bulkmail/src/sender.rs:86-161 | every step keeps the wake-up invariant |
| `SenderConservation.StepKeepsConserved` | crates/bulkmail/src/sender.rs:86-291 | every step of every adapter keeps permits, messages, wake-ups and the send budget |
| `SenderConservation.MessagesConserved` | crates/bulkmail/src/sender.rs:86-161 | in every run: queued + in tasks + done = every message added, each exactly once, cancellations included |
| `SenderConservation.PermitsConserved` | crates/bulkmail/src/sender.rs:129-161 | in every run: free permits + the loop's + one per unfinished task = 16 |
| `SenderConservation.NeverSleepsOnWork` | crates/bulkmail/src/sender.rs:156-160 | in every run: the loop sleeps on a non-empty queue only with a notification stored or on its way |
| `SenderConservation.AtMostThreeSends` | crates/bulkmail/src/sender.rs:193-291 | in every run, for any strategy: at most three sends per message over its life, requeues included; at most max(1, 3 - r) for one added with r retries counted |
| `SenderProgress.TaskStepLowersRank` | crates/bulkmail/src/sender.rs:165-291 | every step of a task lowers its rank: the steps of the phase and two per retry left |
| `SenderProgress.TasksAreBounded` | crates/bulkmail/src/sender.rs:165-291 | in every run, for any strategy: no task takes more than 14 steps |
| `SenderProgress.StepChargesMeasure` | crates/bulkmail/src/sender.rs:86-291 | every step the system takes by itself lowers a measure over queue, tasks, notifications and loop; an added message raises it by at most 46, a block by at most 3, nothing else does |
| `SenderProgress.InternalStepsPaidFor` | crates/bulkmail/src/sender.rs:86-291 | between any two states of a run the internal steps number at most the fall of the measure plus what came from outside |
| `SenderProgress.ComesToRest` | crates/bulkmail/src/sender.rs:86-291 | in every run, for any strategy: left alone, the system takes at most 42 steps per queued message, 4 per notification to be given and 790 besides |
| `SenderProgress.RunIsPaidFor` | crates/bulkmail/src/sender.rs:86-291 | a whole run has at most 2 internal steps, 46 more per message added and 3 more per block |
| `SenderProgress.RestIffDone` | crates/bulkmail/src/sender.rs:101-161 | in every run, while `run` has not returned: no internal step is left if and only if the queue is empty, all tasks are finished, all permits are free and the loop sleeps with nothing pending; every message added has then been dealt with by exactly one task |
| `SenderProgress.NoDeadlock` | crates/bulkmail/src/sender.rs:101-161 | in every run, for any strategy: while `run` has not returned and a message is queued, some step of the system itself is possible |
| `SenderProgress.ExpiredIsNeverSent` | crates/bulkmail/src/sender.rs:200-216 | in every run, for any strategy, over the whole log: every send was of a message unexpired at the clock reading before it |
| `SenderOrder.StartsHighest` | crates/bulkmail/src/sender.rs:129-161 | in every run, for any strategy: the message started has the highest priority of all queued, each captured when it was pushed; its task is the one added and nothing else leaves the queue |
| `SenderOrder.SentIffBeforeDeadline` | crates/bulkmail/src/sender.rs:199-216 | in every run: the check before a send sends the message exactly if the clock is before creation plus deadline of the message that was added, and otherwise sends nothing and turns to the release |
| `SenderOrder.StartedIffBeforeDeadline` | crates/bulkmail/src/sender.rs:168-174 | in every run: a task goes on to take a nonce exactly before the deadline, with its message's priority of that moment, and otherwise ends without one |
| `SenderOrder.NeverSentPastDeadline` | crates/bulkmail/src/sender.rs:199-216 | in every run, over the whole log: every send was before creation plus deadline of the message that was added |
| `SenderFeedback.ConfirmationsLearnedOnce` | crates/bulkmail/src/adapter/ethereum.rs:326-339 | in every run, for any strategy: once no task is in the middle of a confirmation, samples, blends and nonce confirmations each number exactly the confirmed transactions |
| `SenderFeedback.ReachableWindow` | crates/bulkmail/src/gas_price.rs:154-159 | in every run, the window is the last ten of all confirmation times recorded by any tasks |
| `SenderFeedback.EstimateMovesHalfway` | crates/bulkmail/src/gas_price.rs:161-162 | in every run, the estimate moves halfway to the tip of each confirmed transaction and at no other step |
| `SenderFeedback.QuoteOfThreeMoments` | crates/bulkmail/src/sender.rs:168-186 | in every run, a task's quote is made of its message's priority when it was started, the estimate read later and the window at the end |
| `SenderFeedback.BaselineIsLargestReported` | crates/bulkmail/src/nonce_manager.rs:90-110 | in every run, the baseline is the largest of the count at the start, the node's counts and the nonces confirmed, each as reported |
| `SenderNonces.DropResubmitsOrQuits` | crates/bulkmail/src/adapter/ethereum.rs:293-324 | whenever another attempt is allowed the decision is to resubmit at the same nonce |
| `SenderNonces.TakeKeepsNonces` | crates/bulkmail/src/nonce_manager.rs:63-75 | taking a nonce keeps nonce safety and never returns a confirmed one |
| `SenderNonces.ReleaseKeepsNonces` | crates/bulkmail/src/nonce_manager.rs:81-83 | releasing one's own nonce keeps nonce safety |
| `SenderNonces.ConfirmKeepsNonces` | crates/bulkmail/src/adapter/ethereum.rs:326-339 | confirming keeps nonce safety although the nonce stays in flight |
| `SenderNonces.SyncKeepsNonces` | crates/bulkmail/src/nonce_manager.rs:90-96 | a sync with any on-chain value keeps nonce safety |
| `SenderNonces.NoSharedNonce` | crates/bulkmail/src/nonce_manager.rs:63-96 | in every run, no two tasks hold the same nonce |
| `SenderNonces.ConfirmedNonceNeverReissued` | crates/bulkmail/src/adapter/ethereum.rs:326-339 | in every run, a nonce once reported confirmed is never handed out again |
| `SenderNonces.InFlightIffBusy` | crates/bulkmail/src/nonce_manager.rs:63-96 | from the baseline on, a nonce is in flight if and only if a task holds it or it was reported confirmed |
| `SenderNonces.IssuedIff` | crates/bulkmail/src/sender.rs:241-260 | in every run, a task is given n if and only if n is not below the baseline, not held, not confirmed, and every nonce between is; having been mined and reverted plays no part |
| `SenderNonces.PassedNonceNeverIssued` | crates/bulkmail/src/nonce_manager.rs:90-96 | in every run, a nonce the baseline has passed is never handed out again |
| `SenderNonces.InFlightBounded` | crates/bulkmail/src/nonce_manager.rs:13-18 | in every run, the nonces in flight are held ones plus at most the baseline, at most 17 |
| `SenderNonces.IssuedNonceInWindow` | crates/bulkmail/src/nonce_manager.rs:63-75 | in every run, a nonce handed out is the least free one and within 16 of the baseline |
| `SenderNonces.NonceSettledOnce` | crates/bulkmail/src/sender.rs:165-291 | in every run, for any strategy: a task takes at most one nonce and releases or confirms it exactly once, through errors, drops and requeues |
| `SenderNonces.ResentIffBudgetLeft` | crates/bulkmail/src/sender.rs:241-288 | in every run, a dropped or reverted transaction is sent again if and only if its message has been sent fewer than max(1, 3 - r) times |
| `SenderNonces.RequeueAndAbandonUnreachable` | crates/bulkmail/src/adapter/ethereum.rs:300-316 | in every run, a dropped or reverted transaction is resubmitted at its nonce with a bumped fee or its message is out of retries |
| `SenderFees.TaskStepKeepsFeeOk` | crates/bulkmail/src/gas_price.rs:103-163 | every task step keeps its fee under the ceiling of its replacement count and the estimate in range |
| `SenderFees.FeeLoopIsBounded` | crates/bulkmail/src/gas_price.rs:103-163 | in every run, the estimate and every tip sent stay in 1..144 Gwei |
| `SenderFees.FeeArithmeticNeverOverflows` | crates/bulkmail/src/gas_price.rs:111-162 | in every run, no quote, bump, max fee or blend overflows u128 |
| `SenderFees.ReplacementLaw` | crates/bulkmail/src/adapter/ethereum.rs:318-323 | in every run, consecutive attempts at a message keep the nonce and raise the tip by 10%; the max fee by 10% exactly for earlier tips of 2 Gwei or from 2 Gwei + 5 wei up |
| `SenderExamples.ReplacementCanBeUnderpriced` | crates/bulkmail/src/adapter/ethereum.rs:318-323 | a run with consecutive attempts at one message whose max fees are 3.5 and 3.8 Gwei |
| `SenderExamples.RevertedNonceReissued` | crates/bulkmail/src/sender.rs:241-260 | a run in which a message's three transactions are mined and revert and another message is then sent with their nonce |
| `MempoolState.TipMeaning` | crates/mempooloracle/src/lib.rs:247-251 | the effective tip is the largest tip that the priority fee allows and that leaves the base fee covered, and 0 for a transaction that cannot cover it |
| `MempoolState.PrecedesIsTupleOrder` | crates/mempooloracle/src/lib.rs:116-119 | queue order is the order of the tuples (reversed fee, address, nonce) |
| `MempoolState.FirstMeaning` | crates/mempooloracle/src/lib.rs:258-267 | the key popped has the largest fee, then the least address, then the least nonce |
| `MempoolState.ClassifyMeaning` | crates/mempooloracle/src/lib.rs:438-465 | each of the four verdicts if and only if its condition on the fees of the nonces up to the transaction's own |
| `MempoolState.First` | crates/mempooloracle/src/lib.rs:258-267 | the first queue key precedes all others |
| `MempoolState.FiledUnderOwnKey` | crates/mempooloracle/src/lib.rs:110-124 | the transaction at (a, n) has sender a and nonce n |
| `MempoolInsert.WithTxMeaning` | crates/mempooloracle/src/lib.rs:296-321 | prepending and growing fill exactly one slot and move no other transaction; bounds of the new vector |
| `MempoolInsert.FitsIffSpan` | crates/mempooloracle/src/lib.rs:296-313 | the account checks let a nonce in, below or above the confirmed one, if and only if the span of old slots and nonce fits the capacity |
| `MempoolInsert.AcceptedIffWelcome` | crates/mempooloracle/src/lib.rs:253-313 | all checks of an insertion together, eviction in between, accept exactly the welcome newcomers |
| `MempoolInsert.PrependDoesNotWrap` | crates/mempooloracle/src/lib.rs:296-300 | the prepend sum fits usize |
| `MempoolInsert.EvictMeaning` | crates/mempooloracle/src/lib.rs:265-285 | eviction empties exactly the slot of the first key, with its base-fee key |
| `MempoolInsert.EvictKeepsQueueSound` | crates/mempooloracle/src/lib.rs:265-285 | from a sound queue, eviction frees exactly one base-fee key and keeps soundness |
| `MempoolInsert.PlaceMeaning` | crates/mempooloracle/src/lib.rs:288-328 | placement adds exactly the newcomer, and only if it fits |
| `MempoolInsert.InsertMeaning` | crates/mempooloracle/src/lib.rs:253-329 | insertion as an update of the abstract map: the entry of the first key dropped exactly if the index is full and the newcomer outbids every key, the newcomer added exactly if there is room or it does and the slots spanning old ones and its nonce fit the account's capacity; well-formedness kept |
| `MempoolInsert.InsertIndexes` | crates/mempooloracle/src/lib.rs:253-329 | which queue and base-fee keys go and come, under the same conditions |
| `MempoolInsert.NewcomerTrackedIff` | crates/mempooloracle/src/lib.rs:253-329 | a transaction not tracked before is tracked afterwards if and only if it is welcome in that sense |
| `MempoolInsert.NewcomerOutbidsQueue` | crates/mempooloracle/src/lib.rs:255-262 | an eviction is only ever for a newcomer that tips more than every queue key claims |
| `MempoolInsert.InsertKeepsOwnKeyQueued` | crates/mempooloracle/src/lib.rs:253-329 | insertion keeps this: a queue key that names an occupied slot has the key of the transaction there beside it |
| `MempoolInsert.VictimIsDearestIff` | crates/mempooloracle/src/lib.rs:255-285 | from any such state: no live transaction named by a queue key tips more than the one evicted if and only if every key claiming more than its tip is stale; so in a sound queue |
| `MempoolInsert.InsertKeepsQueueSoundIff` | crates/mempooloracle/src/lib.rs:321-328 | insertion keeps the queue sound if and only if it overwrites no queued transaction of a different tip |
| `MempoolInsert.InsertKeepsEligibilitySoundIff` | crates/mempooloracle/src/lib.rs:321-328 | insertion keeps the base-fee index sound if and only if it overwrites no different max fee |
| `MempoolInsert.InsertKeepsCapacityIff` | crates/mempooloracle/src/lib.rs:255-285 | the one situation in which the base-fee index outgrows its capacity |
| `MempoolInsert.InsertKeepsCapacity` | crates/mempooloracle/src/lib.rs:255-285 | from a sound queue the capacity holds |
| `MempoolBlock.NextConfirmedIsLargest` | crates/mempooloracle/src/lib.rs:386-389 | the new confirmed nonce is the larger of the old one and every included nonce plus one, and nothing more |
| `MempoolBlock.BlockMeaning` | crates/mempooloracle/src/lib.rs:358-400 | after a block the live map is the old one cut off below each sender's new confirmed nonce |
| `MempoolBlock.ClassifyMarketable` | crates/mempooloracle/src/lib.rs:438-465 | a live transaction is Marketable if and only if every slot up to its own pays base fee and tip |
| `MempoolBlock.QueueAfterBlock` | crates/mempooloracle/src/lib.rs:405-465 | after any block the queue is exactly the keys of the transactions classified Marketable |
| `MempoolBlock.QueueIsEarned` | crates/mempooloracle/src/lib.rs:402-435 | after any block a key is queued if and only if every nonce from the confirmed one to its own has max fee above the block's base fee and a priority fee, and its fee is the most its transaction can tip |
| `MempoolBlock.MarketableIsPrefix` | crates/mempooloracle/src/lib.rs:409-435 | each account's marketable transactions are contiguous from its confirmed nonce |
| `MempoolBlock.BlockKeepsWellFormed` | crates/mempooloracle/src/lib.rs:331-436 | blocks keep well-formedness, make the queue sound and only remove base-fee keys |
| `MempoolBlock.BlockKeepsEligibilitySoundIff` | crates/mempooloracle/src/lib.rs:359-400 | a block keeps the base-fee index exact if and only if it includes every live nonce below an included one |
| `MempoolBlock.BlockOrderIrrelevant` | crates/mempooloracle/src/lib.rs:331-436 | blocks with the same transactions in any order lead to the same state |
| `MempoolBlock.HigherBaseFeeShrinksQueue` | crates/mempooloracle/src/lib.rs:402-435 | every transaction queued under the higher base fee is queued, with at least the tip, under the lower |
| `MempoolBlock.KnownGasIsTrackedSum` | crates/mempooloracle/src/lib.rs:333-343 | however a block divides into tracked and untracked transactions, the known gas is the gas of the tracked ones |
| `MempoolBlock.ObservedFlowMeaning` | crates/mempooloracle/src/lib.rs:345-349 | the observed flow is the gas used beyond that of the tracked transactions, as a share of the gas limit |
| `MempoolBlock.ObservedFlowIsProportion` | crates/mempooloracle/src/lib.rs:345-349 | the observed private flow of a block within its gas limit is in [0, 1] |
| `MempoolBlock.FlowContracts` | crates/mempooloracle/src/lib.rs:345-355 | the estimate's distance to the observation shrinks by exactly 0.9; a block without a gas limit leaves it alone |
| `MempoolBlock.FlowStaysProportion` | crates/mempooloracle/src/lib.rs:345-355 | blocks within their limit keep the estimate in [0, 1] |
| `MempoolRuns.ReachableWellFormed` | crates/mempooloracle/src/lib.rs:253-436 | in every run: slots filed by sender and nonce, capacities, a base-fee key per live transaction, queue keys in bounds |
| `MempoolRuns.ReachableQueueAfterBlock` | crates/mempooloracle/src/lib.rs:405-465 | right after any block of any run the queue is the marketable set |
| `MempoolRuns.ReachableQueueIsEarned` | crates/mempooloracle/src/lib.rs:402-435 | right after any block of any run a key is queued if and only if it is earned under that block's base fee |
| `MempoolRuns.ReachableHeader` | crates/mempooloracle/src/lib.rs:158-189 | in every run, base fee and gas limit in force are those of the last block, at first the configured fee and 30 million |
| `MempoolRuns.EvictionTakesDearestIff` | crates/mempooloracle/src/lib.rs:253-285 | the same in every state of every run with a non-empty queue |
| `MempoolRuns.CleanRunQueueSound` | crates/mempooloracle/src/lib.rs:253-400 | runs that strand no queue key keep the queue sound and the base-fee index within capacity |
| `MempoolRuns.QueueSoundThroughoutIff` | crates/mempooloracle/src/lib.rs:253-400 | the queue is sound in every state of a run if and only if no event of the run strands a queue key |
| `MempoolRuns.EligibilityExactThroughoutIff` | crates/mempooloracle/src/lib.rs:253-400 | the base-fee index is exactly the live keys in every state of a run if and only if no insertion overwrites a different max fee and no block skips a live nonce |
| `MempoolRuns.SameFeesAreClean` | crates/mempooloracle/src/lib.rs:321-328 | refilling a slot with the same two fees strands nothing |
| `MempoolRuns.CapacityThroughoutIff` | crates/mempooloracle/src/lib.rs:255-285 | the base-fee index stays within capacity in every state of a run if and only if no insertion of the run pops a stale key for an accepted newcomer with a new key |
| `MempoolRuns.StrandedKeyStays` | crates/mempooloracle/src/lib.rs:324-398 | a base-fee key left behind stays through any events until its sender, nonce and max fee are tracked again |
| `MempoolExamples.CapacityCanBeExceeded` | crates/mempooloracle/src/lib.rs:255-328 | a run of six insertions with three base-fee keys under capacity two |
| `MempoolExamples.EvictionCanTakeCheapest` | crates/mempooloracle/src/lib.rs:255-285 | a run in which a pool holding tips 1 and 5 evicts the one tipping 1 |
| `MempoolExamples.StaleFrontCanTakeDearest` | crates/mempooloracle/src/lib.rs:255-285 | a run with a stale key in front whose eviction takes the dearest all the same |
| `MempoolExamples.LateArrivalStrandsKey` | crates/mempooloracle/src/lib.rs:386-398 | a run of properly ordered blocks and one late arrival that leaves a base-fee key behind |
| `MempoolRuns.ReachableFlowIsProportion` | crates/mempooloracle/src/lib.rs:332-356 | in every run with a proportion as prior and blocks within their limits, the estimate is in [0, 1] and usable capacity within the last gas limit |
| `MempoolRuns.FlowConverges` | crates/mempooloracle/src/lib.rs:351-354 | over any run whose blocks observe the same flow, pending transactions included, the error after k blocks is 0.9^k of the prior's |
| `MempoolRuns.UsableMeaning` | crates/mempooloracle/src/lib.rs:515-516 | usable capacity is gas limit minus its private share, rounded down into u64 |
| `MempoolQueries.UniqueAnswers` | crates/mempooloracle/src/lib.rs:509-544 | with unique ids, both queries are determined by the id: the answer is that of the one transaction |
| `MempoolQueries.GasAheadIsMarketableGas` | crates/mempooloracle/src/lib.rs:525-544 | when the queue is the marketable set, the keys ahead of a live transaction are the marketable ones before it, and the gas ahead of a marketable one is their total gas if that fits u64 |
| `MempoolQueries.ReachableGasAhead` | crates/mempooloracle/src/lib.rs:525-544 | the same right after any block of any run |
| `MempoolQueries.ReachableGasAheadById` | crates/mempooloracle/src/lib.rs:525-544 | right after any block of any run with unique ids, asking by id has one answer: none for an unmarketable transaction, else the total gas of the marketable ones before it if that fits u64 |
| `MempoolQueries.GasAheadIsSum` | crates/mempooloracle/src/lib.rs:536-543 | when the queue is the marketable set, the gas ahead is the sum of the gas limits of any listing of the marketable transactions before it |
| `MempoolQueries.AheadCanBeListed` | crates/mempooloracle/src/lib.rs:536-543 | such a listing exists |
| `MempoolQueries.ReachableAnswers` | crates/mempooloracle/src/lib.rs:509-544 | right after any block of any run, for every live transaction: no answer unless marketable; otherwise that sum as gas ahead, and as estimate the whole number of blocks of usable capacity, at the block's gas limit, that the sum and its own gas fill, or u64::MAX without capacity |
| `MempoolQueries.GasAheadAccumulates` | crates/mempooloracle/src/lib.rs:536-543 | a later transaction's gas ahead covers an earlier one's gas ahead and gas |
| `MempoolQueries.EstimateFollowsQueueOrder` | crates/mempooloracle/src/lib.rs:510-522 | the confirmation estimate never decreases along the queue order |
| `MempoolQueries.ReachableEstimateOrder` | crates/mempooloracle/src/lib.rs:510-522 | the same right after any block of any run |
| `Mempool.FirstKey` | crates/mempooloracle/src/lib.rs:258-267 | finds the first key |
| `Mempool.TakenSlotsAreDrained` | crates/mempooloracle/src/lib.rs:359-400 | the slots emptied by the removal loop are all drained by the confirmed-nonce loop |
| `Mempool.InitialIsRun` | crates/mempooloracle/src/lib.rs:158-189 | a tracker created with initial transactions is where a run over them leads |
| `Mempool.MempoolInner.constructor` | crates/mempooloracle/src/lib.rs:158-189 | the initial transactions inserted in order into an empty pool |
| `Mempool.MempoolInner.EvictFirst` | crates/mempooloracle/src/lib.rs:265-285 | is `Evict`, with a nonce offset that does not wrap |
| `Mempool.MempoolInner.PlaceTx` | crates/mempooloracle/src/lib.rs:287-328 | is `Place`, with no wrapping addition or subtraction |
| `Mempool.MempoolInner.Insert` | crates/mempooloracle/src/lib.rs:253-329 | is `Insert` and keeps well-formedness |
| `Mempool.MempoolInner.KnownGasUsed` | crates/mempooloracle/src/lib.rs:333-343 | the gas of tracked included transactions modulo 2^64 |
| `Mempool.MempoolInner.RemoveIncluded` | crates/mempooloracle/src/lib.rs:359-383 | empties exactly the included slots and removes exactly their base-fee keys |
| `Mempool.MempoolInner.RaiseSender` | crates/mempooloracle/src/lib.rs:387-399 | one step of the confirmed-nonce loop, `nonce + 1` not wrapping |
| `Mempool.MempoolInner.AdvanceNonces` | crates/mempooloracle/src/lib.rs:386-400 | the loop reaches the closed form |
| `Mempool.MempoolInner.QueueSlot` | crates/mempooloracle/src/lib.rs:412-433 | a slot is queued exactly if nothing before it blocked and it pays |
| `Mempool.MempoolInner.QueueAccount` | crates/mempooloracle/src/lib.rs:410-434 | queues exactly the paying prefix of one account |
| `Mempool.MempoolInner.RebuildQueue` | crates/mempooloracle/src/lib.rs:407-435 | the marketable keys, whatever the order of accounts |
| `Mempool.MempoolInner.ApplyBlock` | crates/mempooloracle/src/lib.rs:331-436 | the five loops reach the closed form and keep well-formedness |
| `Mempool.MempoolInner.ClassifyTransaction` | crates/mempooloracle/src/lib.rs:438-465 | the early-exit loop computes the classification |
| `Mempool.MempoolInner.FindTxByAddrAndNonce` | crates/mempooloracle/src/lib.rs:480-490 | is the abstract map |
| `Mempool.MempoolInner.FindTxById` | crates/mempooloracle/src/lib.rs:467-478 | a live transaction with the id, or none exists |
| `Mempool.MempoolInner.GasAheadOf` | crates/mempooloracle/src/lib.rs:529-543 | the gas ahead of a live transaction |
| `Mempool.MempoolInner.SumGas` | crates/mempooloracle/src/lib.rs:536-542 | the total gas behind a range of keys modulo 2^64 |
| `Mempool.MempoolInner.GasAhead` | crates/mempooloracle/src/lib.rs:525-544 | the gas ahead of the transaction found under the id, none if there is none or it is not marketable |
| `Mempool.MempoolInner.EstimatedBlocksToConfirm` | crates/mempooloracle/src/lib.rs:510-522 | the estimate for it, u64::MAX when no capacity is usable |

## Left out

- The `run` loop exists only in the transition system; a second concurrent `run` loop on the same sender is not modelled.
- The binary heap of `priority_queue.rs`: the queue is a sequence from which a highest captured priority is taken.
- Rounding of the f64 private-flow estimate and of usable capacity: both are exact reals, truncated only where the source casts.
- Overflow of a sum of ten `Duration`s, and panics of debug builds on arithmetic overflow.
- Lock mechanics: each guarded section is one step. The nested read lock in `estimated_blocks_to_confirm` is not modelled.
- Network transports, signing, receipts and logging: only their outcomes appear.
- The Solana adapter: mostly unimplemented in the source; the any-strategy results cover its use of the sender.
- Accessors of the handle (`current_base_fee`, `is_marketable`, the queue listing): they add only easy members.
