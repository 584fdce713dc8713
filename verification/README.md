# minizeke: verified model

A Dafny model of minizeke's spot-swap server: the durable execution protocol, the nonce window, the
integer curve and its liquidity pools, quoting and rollback, the LP note protocol across two
databases, the weighted-average-cost journal, the rate limiter, and the hash preimages of the session
protocol. `dafny verify dfyconfig.toml` checks all of it.

Each component is stated twice. A closed-form function says what one transaction or one call does to
the tables as values; a class or method with the program's own loops and field updates is proved
equal to it. Invariants and run theorems are lemmas about the functions, so they hold for the
methods. A transaction that returns an error leaves the tables as they were.

| files | component |
|---|---|
| `ExecutionTables`, `ExecutionInvariant`, `ExecutionRuns`, `ExecutionHistory`, `ExecutionLeases`, `ExecutionProgress`, `ExecutionVerdict`, `ExecutionAccounting`, `ExecutionAudit`, `ExecutionStore` | durable orders, batches, submissions, swap rows, events, outbox |
| `ClientOrderId`, `Bits`, `NonceWindow`, `AtMostOnce` | nonce leases, the 96-slot window, executor against chain |
| `Words`, `Arith`, `SquareRoot`, `Curve`, `Pool`, `Quote` | 256-bit arithmetic, the curve, LP shares, swap quotes |
| `Sums`, `Processing`, `Rollback`, `Conservation` | the balance mirror, batches, pending swaps |
| `LpProtocol`, `LpSettlement`, `LpRecovery`, `LpAckOrder`, `LpStuck` | LP notes under crashes and lost acknowledgements |
| `Analytics`, `AnalyticsLaws`, `AnalyticsUnits`, `AnalyticsStore` | the journal and its laws |
| `RateLimiter`, `FieldLimbs`, `FpiChunks`, `Basics` | ingress limits, preimages, transaction packing |

Conventions. Integers are unbounded, so widths are written out: 256-bit words wrap on `+ - *` and
clamp where the program saturates (`Words`), 64- and 128-bit limits are explicit, and `to_i64` checks
are modelled where they decide whether a transaction commits. Times, random bytes, order and batch ids,
oracle prices, chain balances and the two curve inverses are parameters, universally quantified.
Hashes are not modelled: the theorems are about their preimages.

What the proofs found where code and promise part ways:

- An order with a zero minimum output whose input pool is overfull pays its input to nobody
  (`Processing.OrderConservesExactly` gives the condition on the state before the order,
  `Processing.OverfullLosesInput` such an order).
- A rollback creates units when the user has already spent what the failed swap credited: the debit
  stops at zero, the pool gets the full amount back (`Conservation.SpentCreditBreaksConservation`).
  `Conservation.RollbackConservesExactly` says exactly when a rollback keeps each total, and
  `Conservation.RunConservesExactly` lifts it to runs.
- Startup can be stuck for good: a lost acknowledgement, then a note of the same block journaled later
  with an earlier creation time, leave marked notes that cannot be acknowledged in journal order
  (`LpStuck.JournalOrderGetsStuck`). `LpAckOrder.StartupExact` says exactly when startup succeeds;
  `LpRecovery.StartupSucceeds` covers every run that loses no acknowledgement while the process lives
  or journals notes in order. The order of the commits works unless a note was acknowledged ahead of an
  earlier commit on its position (`LpAckOrder.CommitOrderSucceeds`), and can fail then too
  (`LpStuck.CommitOrderGetsStuck`).
- `chunk_orders_for_fpi` keeps its pair budget for every input exactly when the order budget is at
  most 48 (`FpiChunks.PairBudgetExactly`); the caller's clamp provides this.
- A deposit's shares can redeem more liabilities than the deposit added once the supply saturates at
  2^64 - 1 (`Pool.SaturatedSupplyRoundTripFails`, exact condition in `Pool.DepositThenWithdrawExactly`);
  such a supply never commits, because the snapshot stores it as a signed 64-bit number.
- The processor's unconditional `fail_swap` write keeps swap status a function of order state exactly
  when the order has failed or has no swap row (`ExecutionAccounting.FailSwapExact`). A worker that
  lost its batch lease announces failures the store fenced off, and so reaches the other case
  (`ExecutionAccounting.LostLeaseBreaksAccounting`).
- Processing an order whose id is still pending forgets the earlier swap: the books stay balanced on
  the same base exactly when that swap had moved nothing (`Rollback.ReprocessBalancedExactly`).
- With zero disposals the cost bound is an equality, so the strict upper bound starts at one disposal
  (`AnalyticsLaws.WacDrift`).

## Model

| member | source | states |
|---|---|---|
| `ExecutionStore.Store.AllocateNonceLease` | src/execution_store.rs:360-398 | the loop-free transaction equals `AllocateLease`: next nonce, UUID that carries it, overflow and uniqueness errors change nothing |
| `ExecutionStore.Store.AdmitOrder` | src/execution_store.rs:468-574 | equals `Admit`: lease check, replay or conflict on an existing reservation, queue limit, uniqueness |
| `ExecutionStore.Store.ClaimAdmittedOrders` | src/execution_store.rs:581-671 | the row-by-row loop equals the simultaneous claim of the first eligible orders in query order |
| `ExecutionStore.Store.FailClaimedOrder` | src/execution_store.rs:673-700 | fails the order exactly when the worker holds it |
| `ExecutionStore.Store.FailOrdersByIds` | src/execution_store.rs:731-764 | the loop fails exactly the queued orders among the ids, each once even if listed twice, and counts them |
| `ExecutionStore.Store.CreateExecutionBatch` | src/execution_store.rs:788-862 | all-or-nothing: duplicates, unclaimed orders, mismatched swaps or a pending batch leave every table unchanged |
| `ExecutionStore.Store.ClaimPendingBatch` | src/execution_store.rs:864-938 | claim, list what is left, reconcile an empty rest: the composition of the three transactions |
| `ExecutionStore.Store.PromoteBatch` | src/execution_store.rs:864-908 | prefers an expired claim, else a pending batch when no claim is live |
| `ExecutionStore.Store.RecordSubmission` | src/execution_store.rs:1026-1107 | fenced by ownership, idempotent per transaction hash, all-or-nothing over the order ids |
| `ExecutionStore.Store.MarkPreSubmissionFailed` | src/execution_store.rs:1109-1151 | the loop fails exactly the listed orders that await submission in a batch the worker owns |
| `ExecutionStore.Store.FailRemainingBatchedOrders` | src/execution_store.rs:1157-1213 | fails and reports, in query order, every order still awaiting submission |
| `ExecutionStore.Store.FinalizeBatchIfReady` | src/execution_store.rs:1778-1806 | the batch becomes terminal, with an outbox row, exactly when none of its orders is live |
| `ExecutionStore.Store.BeginReconciliation` | src/execution_store.rs:1220-1247 | refuses while orders await submission, is fenced, and finalizes at once if nothing is live |
| `ExecutionStore.Store.ResolveSubmission` | src/execution_store.rs:1343-1402 | the loop settles exactly the submission's orders, their swaps and events, then looks at the batch |
| `ExecutionStore.Store.RecoverBatch` | src/execution_store.rs:1421-1471 | the loop reports the outcomes in batch order or the first missing or live order |
| `ExecutionStore.Store.MarkOutboxDelivered` | src/execution_store.rs:1473-1479 | marks an undelivered wake-up once |
| `ExecutionStore.Store.FailSwapRow` | src/execution_store.rs:1640-1646 | the status write of the processor, whatever the order's state |
| `ExecutionStore.ClaimPendingNeverFails` | src/execution_store.rs:864-938 | under the invariant a claim never fails; the claimant owns the batch and gets exactly the orders still awaiting submission |
| `ExecutionInvariant.ClaimBatchSucceeds` | src/execution_store.rs:864-906 | promoting a pending batch never trips the claimed-slot unique index and keeps single flight |
| `ExecutionAccounting.FailSwapExact` | src/execution_store.rs:1640-1646 | the unconditional status write keeps swap status a function of order state if and only if the order failed or has no swap row |
| `ExecutionInvariant.CreateBatchKeeps` | src/execution_store.rs:788-862 | creating a batch keeps the 12-clause invariant |
| `ExecutionInvariant.RecordSubmissionKeeps` | src/execution_store.rs:1026-1107 | recording a submission keeps the invariant |
| `ExecutionInvariant.FinalizeKeeps` | src/execution_store.rs:1778-1806 | finalizing restores the invariant from a state where only the batch at hand may be out of submitted orders |
| `ExecutionInvariant.ResolveKeeps` | src/execution_store.rs:1343-1402 | resolving a submission either way keeps the invariant |
| `ExecutionRuns.StepKeeps` | src/execution_store.rs:360-1479 | every transaction, by any worker at any time, keeps the invariant |
| `ExecutionRuns.ReachableInv` | src/execution_store.rs:360-1479 | every state reachable from empty tables satisfies the invariant |
| `ExecutionRuns.ReachableLinked` | src/execution_store.rs:788-1247 | in every run: batched orders sit in pending or claimed batches; submitted iff an open submission with the order's hash and batch lists it; reconciling batches have a submitted and no batched order; terminal batches have only terminal orders and an outbox row |
| `ExecutionRuns.RecoveryNeverFails` | src/execution_store.rs:1421-1471 | in every run, recovery never meets a missing or live order and reports every order of a terminal batch, with an error exactly for those that failed |
| `ExecutionRuns.OutcomesExactly` | src/execution_store.rs:1421-1471 | on any tables recovery reports a batch if and only if every order of its payload is there, in the batch, and terminal |
| `ExecutionHistory.RunEvolves` | src/execution_store.rs:360-1479 | between any two states of a run rows keep identity, batch and hash, ranks never fall, closed submissions and terminal events never change |
| `ExecutionHistory.OrdersOnlyAdvance` | src/execution_store.rs:673-764 | order rank never decreases and a terminal order's row never changes again |
| `ExecutionHistory.EventsFollow` | src/execution_store.rs:1741-1762 | in every run an order is terminal iff its one terminal event exists, of matching kind |
| `ExecutionAccounting.StepBooksExactly` | src/execution_store.rs:788-1402 | a transaction keeps swap status a function of order state if and only if it is not a processor write on an order that has a swap row and has not failed |
| `ExecutionAccounting.AccountingFollowsExactly` | src/processing.rs:351-372 | swap status follows order state throughout a run if and only if every `fail_swap` in it finds a failed order or no swap row |
| `ExecutionAccounting.LostLeaseBreaksAccounting` | src/miden_execution.rs:718-732 | a reachable run that ends with a submitted order whose swap is marked failed |
| `ExecutionAccounting.FailedSwapsStay` | src/execution_store.rs:1343-1402 | between any two states of any run a swap marked failed stays failed, also when its order is confirmed later |
| `ExecutionHistory.LeasesAreAPrefix` | src/execution_store.rs:360-398 | a user's leased nonces are exactly those below the allocator, each with one client id |
| `ExecutionHistory.OrdersOneToOne` | src/execution_store.rs:1893-1913 | order id, client id and (user, nonce) determine one another in every run |
| `ExecutionHistory.AdmissionIdempotent` | src/execution_store.rs:486-526 | after an admission, any later retry, however much later, returns the first order id or a conflict and changes nothing |
| `ExecutionHistory.SubmissionIdempotent` | src/execution_store.rs:1026-1107 | once a transaction is recorded, recording it again, however much later, changes nothing and answers whether the caller owns the batch |
| `ExecutionHistory.DeliveredOnce` | src/execution_store.rs:1473-1479 | an undelivered wake-up can be marked, and after that never again in any continuation |
| `ExecutionHistory.QueueBounded` | src/execution_store.rs:528-537 | admitted plus claimed orders never exceed the limit in any run |
| `ExecutionHistory.SingleFlightAlways` | src/execution_store.rs:274-282 | every reachable state has at most one pending and one claimed batch, and no claim meets the index |
| `ExecutionHistory.OrderFenced` | src/execution_store.rs:673-700 | a worker that lost an order claim cannot change the order without claiming again |
| `ExecutionLeases.OrderFencedForever` | src/execution_store.rs:673-700 | a worker whose order was taken over, and which claims nothing again, never changes that order, however the run goes on |
| `ExecutionHistory.FencedForever` | src/execution_store.rs:864-906 | a worker that lost a batch and does not claim again never touches the batch or its orders, however the run goes on |
| `ExecutionLeases.BatchLeaseHeld` | src/execution_store.rs:864-908 | after a claim, through any continuation with claims up to the deadline: while the batch is claimed it is the claimant's and no claim by anyone succeeds |
| `ExecutionLeases.OrderLeaseHeld` | src/execution_store.rs:581-671 | after a claim, through any continuation with claims up to the deadline: while the order is claimed it is the claimant's and no claim gets it |
| `ExecutionLeases.EarliestFirst` | src/execution_store.rs:607-612 | no order a claim leaves behind is older than one it takes, or equally old with a smaller id |
| `ExecutionLeases.EarliestSorted` | src/execution_store.rs:607-612 | orders are handed out by creation time, then by id |
| `ExecutionProgress.ClaimTakesDue` | src/execution_store.rs:581-671 | with no pending batch a claim takes as many as its limit allows of the orders that are admitted or whose claim ran out: all of them, if they fit |
| `ExecutionProgress.PendingHoldsBack` | src/execution_store.rs:590-599 | a pending batch keeps every order back |
| `ExecutionProgress.BatchHandedOut` | src/execution_store.rs:864-908 | a worker is handed a batch if and only if a claim on one ran out, or one is pending and none is claimed; it owns that batch until its lease ends |
| `ExecutionProgress.RoundConcludes` | src/execution_store.rs:581-1402 | from any idle state of the invariant one round takes every order it claims, through batch, submission and reconciliation, to the outcome of its transaction: order, event, submission, batch and outbox |
| `ExecutionProgress.BatchCreatedExactly` | src/execution_store.rs:788-862 | a batch is created if and only if its swaps are those of its orders, each is listed once and is the worker's claim, the id is new and no batch is pending; anything else changes nothing |
| `ExecutionProgress.SubmissionRecordedExactly` | src/execution_store.rs:1026-1107 | a new transaction is recorded if and only if the batch's owner lists orders still batched in it, each once; exactly those become submitted under it |
| `ExecutionProgress.ResolvedExactly` | src/execution_store.rs:1343-1402 | an open transaction is settled once: exactly the listed orders submitted under it take its outcome |
| `ExecutionProgress.FinalizedExactly` | src/execution_store.rs:1778-1806 | a claimed or reconciling batch becomes terminal if and only if none of its orders is live |
| `ExecutionProgress.FailClaimedExactly` | src/execution_store.rs:673-700 | a claimed order fails if and only if its claimant says so, and no other row changes |
| `ExecutionProgress.FailByIdsExactly` | src/execution_store.rs:731-764 | exactly the listed orders that are admitted or claimed fail |
| `ExecutionProgress.MarkFailedExactly` | src/execution_store.rs:1109-1151 | exactly the listed orders still batched in the owner's batch fail, with their proposed swaps |
| `ExecutionProgress.FailRemainingExactly` | src/execution_store.rs:1157-1213 | exactly the orders still batched in the owner's batch fail, each reported once |
| `ExecutionProgress.LeaseGranted` | src/execution_store.rs:360-398 | a lease is granted if and only if nonces are left and the tail is fresh; it is the next nonce |
| `ExecutionProgress.AdmittedExactly` | src/execution_store.rs:468-574 | a new order is admitted if and only if the lease is the user's, the client id unreserved, the queue has room and the id is unused; it is due at once |
| `ExecutionProgress.MissingOrderRestored` | src/execution_store.rs:486-519 | a retry on a reservation that lost its order row writes the row again |
| `ExecutionVerdict.TerminalMarkIsTrue` | src/execution_store.rs:1778-1806 | in every run a terminal batch carries the error mark if and only if one of its orders failed |
| `ExecutionAudit.ReachableAudited` | src/execution_store.rs:1741-1776 | in every run the admitted, batched and submitted events and the outbox rows are exactly those of the stages passed |
| `ExecutionAudit.ReachableTaken` | src/execution_store.rs:646-652 | in every run the wake-up of every order or batch that was taken is ticked off |
| `ClientOrderId.RoundTrip` | src/nonce_window.rs:129-140 | the nonce stands in the first four bytes, highest first; nonce and random tail are both read back |
| `ClientOrderId.Surjective` | src/nonce_window.rs:129-140 | every UUID encodes exactly one nonce and tail |
| `NonceWindow.ShiftRightShifts` | src/nonce_window.rs:91-120 | the three-limb shift is a shift of the 96-bit bitmap, bit by bit, for every distance |
| `NonceWindow.SetBitWrites` | src/nonce_window.rs:82-89 | sets that bit and no other |
| `NonceWindow.BitSetReads` | src/nonce_window.rs:72-80 | reads that bit |
| `NonceWindow.ConsumeRefines` | src/nonce_window.rs:53-70 | against the set of all nonces ever consumed: success iff at or above base and not consumed, each error exactly when, and the new window refines the larger set |
| `NonceWindow.BaseTrailsMaximum` | src/nonce_window.rs:57-64 | base is max(0, largest consumed - 95) |
| `NonceWindow.NoNonceTwice` | src/nonce_window.rs:53-70 | no run accepts a nonce twice |
| `NonceWindow.FullyAcceptedIff` | src/nonce_window.rs:53-70 | a run is fully accepted iff its nonces are distinct and none arrives 96 or more behind an earlier one |
| `NonceWindow.NonceWindow.ShiftRightBy` | src/nonce_window.rs:91-120 | the in-place shift equals the value-level shift |
| `NonceWindow.NonceWindow.MarkBit` | src/nonce_window.rs:82-89 | the in-place update equals the value-level one |
| `NonceWindow.NonceWindow.ConsumeNonce` | src/nonce_window.rs:53-70 | the in-place consume refines the consumed set and changes nothing on error |
| `AtMostOnce.EffectAtMostOnce` | src/miden_execution.rs:923-1002 | in every run with crashes, lost leases, resubmission and late or repeated inclusion, no order takes effect twice |
| `AtMostOnce.RefusalMeansOwnEffect` | src/miden_execution.rs:923-1002 | a swap is refused as already consumed only because that same order took effect; any other swap inside the window is accepted |
| `AtMostOnce.AcceptedIff` | src/nonce_window.rs:53-70 | the chain accepts a transaction over any users' windows if and only if each nonce is new for its user and less than 96 behind every other that came before, in the effects or in the transaction |
| `AtMostOnce.BatchTakesEffect` | src/miden_execution.rs:923-1002 | in every run a worker handed a batch loads exactly its unsubmitted orders with their users and nonces; once submitted and included all of them take effect if and only if their nonces are new and in reach, else none |
| `AtMostOnce.ExecuteRefines` | src/nonce_window.rs:53-70 | a transaction over several users' windows consumes exactly its swaps' nonces, all free before |
| `SquareRoot.Log2` | src/curve.rs:228-263 | the floor of the binary logarithm of every positive 256-bit value |
| `SquareRoot.NewtonRoot` | src/curve.rs:208-225 | seven Newton steps and the final minimum give the exact integer square root of every positive 256-bit value, dividing by zero and overflowing nowhere |
| `SquareRoot.Sqrt` | src/curve.rs:208-225 | the exact root of a times 10^18, with the scaling product taken modulo 2^256 |
| `Curve.PsiIsExact` | src/curve.rs:60-71 | with the default parameters, 64-bit balances and at most 18 decimals no product of psi saturates or wraps |
| `Curve.PsiFormula` | src/curve.rs:60-71 | psi is the reserve plus a hundredth of the squared imbalance over reserve plus sixteen times liabilities, up to the roundings stated |
| `Curve.PsiFalls` | src/curve.rs:60-71 | psi never rises when reserve and liabilities fall by the same amount |
| `Pool.SearchShares` | src/processing.rs:614-641 | for any payout function the search fails only if the whole position is too small, and finds a sufficient count whose predecessor is not sufficient |
| `Pool.SharesForWithdrawal` | src/processing.rs:614-641 | on a covered pool: the least sufficient share count, failing exactly when the position is too small |
| `Pool.PayoutMonotone` | src/pool.rs:510-560 | on a covered pool more shares never pay less |
| `Pool.DepositNotDiluting` | src/pool.rs:465-505 | a deposit never lowers liabilities per share, whatever the inverse returns |
| `Pool.WithdrawNotDiluting` | src/pool.rs:510-560 | a withdrawal never lowers liabilities per remaining share |
| `Pool.MintedExact` | src/pool.rs:487-491 | minted shares are the exact share of the increment, rounded down |
| `Pool.FirstDeposit` | src/pool.rs:487-491 | into a pool without liabilities a deposit mints exactly the rise in liabilities, the larger of inverse and deposit |
| `Pool.DepositMoves` | src/pool.rs:477-497 | reserve and liabilities rise by the larger of inverse and deposit; the slippage reserve by the deposit |
| `Pool.WithdrawMoves` | src/pool.rs:519-558 | reserve and liabilities fall by the shares' part of the liabilities, rounded down; the slippage reserve by the payout, which is no larger |
| `Pool.WithdrawPaysCurve` | src/pool.rs:519-558 | a withdrawal leaves in the slippage reserve at least what psi asks for on the balances it leaves, or what was there if that is less; it leaves more only when the payout is all the liabilities removed |
| `Pool.NeverDiluted` | src/pool.rs:465-560 | over any sequence of deposits, withdrawals and committed swaps with positive supply, liabilities per share never fall |
| `Pool.DepositThenWithdraw` | src/pool.rs:465-560 | withdrawing the minted shares removes no more liabilities than the deposit added |
| `Pool.DepositThenWithdrawExactly` | src/pool.rs:499-501 | exactly when that holds once the supply saturates |
| `Pool.SaturatedSupplyRoundTripFails` | src/pool.rs:499-501 | an input where it fails |
| `Pool.SplitWithdrawal` | src/pool.rs:510-560 | two withdrawals never remove more liabilities than one of the total |
| `Quote.CreditedQuoteBalances` | src/curve.rs:295-491 | credited is the smaller of minimum and amount out; the output pool gives exactly that and keeps a positive slippage reserve; the input pool takes exactly what is paid unless it is overfull |
| `Quote.RawAmountSplits` | src/curve.rs:410-452 | the reserve gives up the raw amount less the three fees, each the floor at its own rate, and the LP fee, which is the inverse or the floor at the swap rate, whichever is less |
| `Quote.RawAmountAtPrice` | src/curve.rs:408-419 | the raw amount is the effective amount in at the price, carried between the two decimals and rounded down, in either direction |
| `Quote.QuoteLeavesCurve` | src/curve.rs:455-475 | before crediting, the output pool keeps in its slippage reserve what psi asks for on its new balances, or what was there if that is less |
| `Quote.InputPoolCapped` | src/curve.rs:386-405 | the effective amount is taken in if and only if it leaves the input pool at most twice its liabilities; otherwise nothing is quoted and neither pool changes |
| `Quote.CommittedSwapIsEvent` | src/curve.rs:440-479 | committing a quote is a swap event of `Pool.NeverDiluted` for both pools, with the quote's LP fee on the output side |
| `Quote.CommittedSwapNotDiluting` | src/curve.rs:440-479 | a committed swap lowers liabilities per share of neither pool |
| `Processing.OrderConservesExactly` | src/processing.rs:850-933 | an order keeps users' balances plus slippage reserve of every asset, if and only if it is not an affordable zero-minimum order paying something into an overfull pool; the condition speaks of the state before the order |
| `Processing.LossIsTotal` | src/processing.rs:850-933 | what such an order loses is all that the user pays |
| `Processing.OverfullLosesInput` | src/processing.rs:850-933 | such an order: five units are paid and nobody receives them |
| `Processing.ProcessedEffects` | src/processing.rs:850-933 | a processed order pays its input, receives exactly its signed minimum, moves nothing else and leaves the output pool positive |
| `Processing.RejectedUnchanged` | src/processing.rs:815-899 | a rejected order changes no balance, pool or pending swap |
| `Processing.AcceptedExactly` | src/processing.rs:815-899 | a quotable order is processed if and only if its quote pays the minimum and its user has the balance; each refusal has its one cause |
| `Processing.RefusedUnpriced` | src/processing.rs:815-850 | any other order is refused before it is priced, a stale one first, then an expired one |
| `Processing.BatchConserves` | src/processing.rs:798-1093 | a whole batch keeps the total of every asset |
| `Processing.Processor.ProcessOrder` | src/processing.rs:809-985 | the branch-by-branch update equals the closed form |
| `Processing.Processor.ProcessOrders` | src/processing.rs:798-1093 | the loop over a batch equals the fold |
| `Processing.Processor.Balance` | src/processing.rs:155-162 | a cold miss loads the chain balance once |
| `Processing.Processor.OnFailed` | src/processing.rs:351-372 | removes the pending swap and reverts pools and balances; calls for the `fail_swap` write in either case |
| `Processing.Processor.OnConfirmed` | src/processing.rs:324-350 | keeps the pools, or re-applies a stored swap that memory lost |
| `Rollback.RevertExact` | src/processing.rs:1246-1252 | reverting subtracts the delta iff it does not saturate |
| `Rollback.ApplyInvertsRevert` | src/processing.rs:1139-1154 | applying undoes reverting iff the revert did not saturate |
| `Rollback.ApplyInvertsRollback` | src/processing.rs:1095-1154 | re-applying a rolled-back swap restores both pools |
| `Rollback.LiabilitiesFit` | src/processing.rs:1226-1252 | rolling back liabilities never saturates |
| `Rollback.FailAllBalanced` | src/processing.rs:1095-1124 | after rolling back any swaps in any order each component is the base plus the deltas of the rest |
| `Rollback.OrderIndependent` | src/processing.rs:1095-1124 | two orders of rolling back the same swaps give the same pools |
| `Rollback.AllRolledBack` | src/processing.rs:1095-1124 | rolling back everything restores the base |
| `Conservation.RollbackConservesExactly` | src/processing.rs:1095-1124 | a rollback keeps the total of the bought asset iff the user still holds as much of the credit as the pool takes back, of the sold asset iff the refund that fits is what the pool gives up, and of every other asset always |
| `Conservation.UnsaturatedCondition` | src/processing.rs:1118-1123 | where the pool words do not saturate that condition is: the refund fits 64 bits, and the user's balance covers the credit |
| `Conservation.RunConservesExactly` | src/processing.rs:319-372 | over any run of processed, failed and confirmed orders every step keeps every total if and only if no order loses its input and each rollback gives back what it takes |
| `Conservation.RunConserves` | src/processing.rs:319-372 | such a run ends with the totals it started with |
| `Conservation.SpentCreditBreaksConservation` | src/processing.rs:1118-1123 | two orders and a failure after which the total of an asset has grown |
| `Rollback.ReprocessBalancedExactly` | src/processing.rs:1075-1081 | processing an order whose id is still pending keeps the books on the same base if and only if the overwritten swap moved nothing |
| `Rollback.RunBalanced` | src/processing.rs:319-372 | in every run of processed, failed and confirmed orders, with repeated ids, the pools are the base plus the pending deltas, and only confirmed or overwritten swaps move the base |
| `LpProtocol.LpStore.Record` | src/lp_store.rs:125-154 | inserts a note once, by id and nullifier |
| `LpProtocol.LpStore.Apply` | src/lp_store.rs:204-271 | equals `ApplyOperation`: applied once, every overflow or shortage an error that changes nothing |
| `LpProtocol.LpLedger.MintShares` | src/pool.rs:571-579 | adds to the position, from nothing if there is none |
| `LpProtocol.LpLedger.BurnShares` | src/pool.rs:582-601 | burns or fails without effect |
| `LpProtocol.ComputeExact` | src/processing.rs:529-590 | whatever commits moved supply and ledger by the same signed shares, with nothing saturated |
| `LpSettlement.WithdrawalCovered` | src/processing.rs:547-568 | a computed withdrawal is a withdrawal of `Pool`: it takes at least the amount already paid on chain out of the slippage reserve, and exactly its shares out of the LP's entry |
| `LpSettlement.DepositCredited` | src/processing.rs:542-546 | a computed deposit is a deposit of `Pool`: it puts exactly its amount into the slippage reserve and its shares into the LP's entry |
| `LpSettlement.ComputedExactly` | src/processing.rs:529-590 | a note is refused if and only if there is no pool or, for a withdrawal, the shares are none or not owned, or their payout is below the amount paid |
| `LpSettlement.CommitPays` | src/processing.rs:457-612 | every step that commits a note also commits, to the snapshot and to memory, a pool whose slippage reserve rose by the deposit or fell by at least the withdrawal |
| `LpSettlement.RecordedExactly` | src/lp_store.rs:125-154 | a note is journaled if and only if its amount is storable and neither its id nor its nullifier was seen |
| `LpSettlement.BelowMinimumNeverCounts` | src/lp_store.rs:125-154 | a deposit below the minimum is never committed or applied, however the run goes on |
| `LpSettlement.ReadByBlock` | src/lp_store.rs:156-171 | a pass reads its notes by block, then by creation time |
| `LpSettlement.PassSettles` | src/processing.rs:457-612 | a note the pool can settle is settled by one pass: marked, applied, and in the position |
| `LpSettlement.CrashSettles` | src/processing.rs:102-117 | so it is by startup after a crash between commit and acknowledgement, and the ledger is then the positions |
| `LpSettlement.LostAckSettles` | src/processing.rs:457-477 | so it is by the next pass after a lost acknowledgement, with the shares of the commit |
| `LpSettlement.PersistSurvives` | src/processing.rs:102-117 | a process that crashes after saving its snapshot restarts with the pools it had |
| `LpProtocol.LpStore.ReconcileMarked` | src/processing.rs:102-110 | the startup loop acknowledges the marked notes of the journal in order and stops at the first error |
| `LpProtocol.StepKeeps` | src/processing.rs:457-612 | every step, including a crash between any two commits and an acknowledgement lost while the process lives on, keeps: supply is positions plus what committed notes still owe |
| `LpProtocol.AppliedExactlyOnce` | src/execution_store.rs:1582-1618 | in every run each note changes the snapshot at most once and its position at most once, with the same shares |
| `LpProtocol.PositionsMatchSupply` | src/processing.rs:102-117 | whenever no confirmed note remains, a faucet's positions add up to its supply |
| `LpRecovery.RunSolo` | src/processing.rs:457-477 | in every run that loses no acknowledgement while the process lives, at most one note is committed but not acknowledged, and a live process is acknowledging it |
| `LpRecovery.RunInSequence` | src/lp_store.rs:156-171 | in every run that journals notes in reading order, lost acknowledgements included, a committed note comes before every other confirmed one |
| `LpRecovery.OutstandingAckSucceeds` | src/lp_store.rs:204-271 | in both kinds of run every outstanding acknowledgement succeeds |
| `LpRecovery.StartupSucceeds` | src/processing.rs:102-110 | in both kinds of run startup meets no error |
| `LpAckOrder.AckAllExact` | src/lp_store.rs:204-271 | acknowledging notes in any given order meets no error if and only if each, in turn, leaves its position between 0 and 2^63 - 1 |
| `LpAckOrder.StartupExact` | src/lp_store.rs:156-171 | the same for the journal order at startup, after any run |
| `LpAckOrder.CommitOrderSucceeds` | src/processing.rs:457-477 | in any run, acknowledging in the order of the commits meets no error unless some note was acknowledged ahead of an earlier commit on its position |
| `LpStuck.JournalOrderGetsStuck` | src/lp_store.rs:156-171 | a run after which no startup step ever changes anything, though the order of the commits would succeed |
| `LpStuck.CommitOrderGetsStuck` | src/processing.rs:457-477 | a run after which the order of the commits fails |
| `AnalyticsStore.Store.RecordSwap` | src/analytics_store.rs:287-341 | equals `Record`: journaled and projected together, or nothing changes |
| `AnalyticsStore.Store.RecordCashFlow` | src/analytics_store.rs:343-433 | equals `Record` for funding and both redemption events |
| `AnalyticsStore.Store.RecordOpeningPosition` | src/analytics_store.rs:582-636 | equals `Record`; refuses a position that exists |
| `AnalyticsStore.Store.RecordMark` | src/analytics_store.rs:469-504 | equals `Record`; refuses a zero scale |
| `AnalyticsStore.Store.UserSummary` | src/analytics_store.rs:721-789 | the loop returns the sums over the user's positions, and unrealized and total P&L exactly when every open position has a mark; it fails only if a position cannot be valued, the sums over some positions do not fit, or the total does not |
| `AnalyticsStore.TotalIsHoldingsLessFlows` | src/analytics_store.rs:1310-1369 | after any calls the total P&L of a summary is the holdings at their marks plus redeemed value and openings less funded value, fees and seeded basis, to the unit |
| `AnalyticsStore.SummaryReportsJournal` | src/analytics_store.rs:721-789 | volume, fees, fills and amount metrics of a summary equal the sums over the journaled swaps |
| `AnalyticsLaws.RunConsistent` | src/analytics_store.rs:1038-1082 | after any calls the tables equal a fold over a journal without duplicates |
| `AnalyticsLaws.ReplaysChangeNothing` | src/analytics_store.rs:1067-1082 | any later exact replay is accepted without effect, any conflicting one refused without effect |
| `AnalyticsLaws.PnlNeutral` | src/analytics_store.rs:1181-1236 | realized less cost equals openings less fees, seeded basis and funded value plus redeemed value, exactly, over any calls |
| `AnalyticsLaws.SummaryMatchesJournal` | src/analytics_store.rs:1238-1257 | every fill metric is the sum over the user's journaled swaps in that currency |
| `AnalyticsLaws.CashMatchesJournal` | src/analytics_store.rs:1371-1403 | deposits, announced and settled withdrawals equal the journaled flows at their marks |
| `AnalyticsLaws.LatestMarkIsNewest` | src/analytics_store.rs:1102-1122 | a flow or position is valued at the newest mark at or before the time, in its currency if one is asked for, the last recorded among equals |
| `AnalyticsLaws.DisposalNeverShort` | src/analytics_store.rs:1144-1214 | a seeded sell never lacks quantity; it is untracked iff it sells nothing of an asset never held |
| `AnalyticsLaws.WacDrift` | src/analytics_store.rs:1201-1236 | after n disposals the remaining cost is at least its exact share and less than n units above it |
| `AnalyticsUnits.WorthAtPrice` | src/analytics_store.rs:1310-1336 | a mark values an amount at its price, rounded down, unless the product exceeds 128 bits |
| `AnalyticsUnits.LatestMarkApplies` | src/analytics_store.rs:1102-1122 | the mark found is the newest of the asset, in the currency asked for, up to the time; none is found only if none applies |
| `AnalyticsUnits.FlowValued` | src/analytics_store.rs:343-433 | over any calls a flow without a mark counts at its own amount in the asset itself, any other at the latest mark in its currency, rounded down |
| `AnalyticsUnits.UnrealizedAtMark` | src/analytics_store.rs:1310-1342 | over any calls a position has no unrealized P&L if and only if no mark in its currency applies; otherwise it is the units at the latest such mark, rounded down, less the cost |
| `AnalyticsUnits.SeedAtPrice` | src/analytics_store.rs:1144-1162 | the units a sell lacks are seeded at the price of the swap, rounded down |
| `AnalyticsUnits.SwapMoves` | src/analytics_store.rs:1144-1257 | a swap seeds and disposes of the sold leg at the floor of its cost share, adds the amount out at the swap's value to the bought leg, and moves no other position |
| `AnalyticsUnits.UnheldSellRealizesFee` | src/analytics_store.rs:1144-1214 | selling an asset never held realizes exactly minus the four fees and leaves nothing held |
| `AnalyticsUnits.QuantityIsUnits` | src/analytics_store.rs:1144-1236 | over any calls a position holds what was opened, bought and funded less what was sold and redeemed, nothing below zero |
| `AnalyticsUnits.JournalSound` | src/analytics_store.rs:469-504 | over any calls journaled swaps trade two assets, marks have a scale, and the marks table is the journal's marks in order |
| `AnalyticsUnits.SmallSwapAccepted` | src/analytics_store.rs:287-341 | a new swap whose amounts and positions are far from the column widths is recorded |
| `RateLimiter.Limiter.Admit` | src/ingress.rs:194-224 | the in-place evict, insert, reset and count equals `Allow` |
| `RateLimiter.VerdictsAgree` | src/ingress.rs:194-224 | in any run every verdict is the unbounded limiter's, unless the table is full of live windows |
| `RateLimiter.AdmittedIff` | src/ingress.rs:194-224 | in any run, unless the table is full of live windows, a request is admitted if and only if its key was admitted fewer times than the limit since its current window began |
| `RateLimiter.WaitIsEnough` | src/ingress.rs:214-220 | a refused request is admitted one second past the stated wait, and before it still refused |
| `RateLimiter.TableBounded` | src/ingress.rs:196-202 | the table never exceeds the configured number of keys |
| `RateLimiter.AtMostTwiceTheLimit` | src/ingress.rs:203-222 | any half-open interval one window long admits at most twice the limit of a key |
| `FieldLimbs.PushBytes` | src/auth.rs:469-476 | the chunk loop appends the length and the little-endian limbs |
| `FieldLimbs.LimbsCanonical` | src/auth.rs:469-476 | every limb is below 2^56 |
| `FieldLimbs.ByteOfLimbs` | src/auth.rs:469-476 | byte i of a string is digit i mod 7, lowest first, of limb i / 7, and there are as many limbs as needed |
| `FieldLimbs.LastLimbBound` | src/auth.rs:469-476 | the last limb is padded with zeros |
| `FieldLimbs.EncodePrefixFree` | src/auth.rs:469-476 | no encoding is a prefix of another |
| `FieldLimbs.ChallengeInjective` | src/auth.rs:426-455 | two challenges with the same preimage are the same challenge |
| `FieldLimbs.TokensSeparated` | src/auth.rs:457-466 | tokens with the same preimage are equal, and none shares one with a challenge |
| `FpiChunks.ChunkOrders` | src/miden_execution.rs:1066-1094 | the packing loop equals the fold |
| `FpiChunks.ChunksPartition` | src/miden_execution.rs:1066-1094 | the chunks concatenate to the orders, none is empty or over the order budget |
| `FpiChunks.ChunksGreedy` | src/miden_execution.rs:1076-1089 | a chunk ends only where the next order did not fit a budget as counted |
| `FpiChunks.PairBudgetExactly` | src/miden_execution.rs:1076-1089 | every chunk of every input stays within 48 pairs if and only if the order budget is at most 48 |

## Left out

- `complete_batch`, `reserve_intent`, `record_proposed_swap`, `finalize_swap`: no production path calls them.
- Row timestamps (`updated_at`, `finalized_at`) and the errors of converting times to SQLite integers in the execution store.
- Reason texts on batches (only whether one exists), submission metadata (pool, heights, attempts, local apply) and event details.
- Reloading pools from an older snapshot and pool-state broadcasts in `Processing`; `LpProtocol` has the reload.
- Exactly-once delivery of confirmed updates to the processor: a repeated one re-applies the stored swap.
- Exactness of `inverse_diagonal`, `inverse_horizontal` and `solve_quadratic`: they are arbitrary parameters.
- Decimals above 95, where the power of ten itself wraps in 256 bits.
- Division by zero in the curve aborts the program: the model requires the divisors to be positive (`PsiDefined`, `QuoteDefined`).
- `Conservation.RunConservesExactly`: the slippage reserve and the user's balance have room for the order (`Roomy`); the saturating credit of a full 64-bit balance is left out.
- Vault cash-flow events on the balance mirror: a cash flow is an external deposit or withdrawal, so totals change by design.
- `LpStore::mark_failed` as a separate step: it is atomic with recording the note.
- Pool totals, LP cash flows, pool snapshots, coverage flags and paging in the analytics store.
- Update times of analytics positions.
- `Processing.Processor.ProcessOrders`: publishing, broadcasting and the hand-off to `create_execution_batch` are not part of the loop, so neither are the early returns when one of them fails; the pools and pending swaps of the orders before it stay, and `Rollback.ReprocessBalancedExactly` says what processing them again does.
- `AtMostOnce.EffectAtMostOnce`: proving, signatures and transaction expiry are not modelled; inclusion may happen at any time or never.
- `RateLimiter.Limiter.Admit`: calls are atomic; two calls racing on the shared map are not modelled.
- The on-chain nonce window is taken to behave as `src/nonce_window.rs` does; its assembly is not modelled.
- Claim deadlines do not saturate at 2^64 - 1.
- HTTP, RPC, proving, signatures, hashing, SQL text conversion and JSON.
- Fee, pool-manager, registry, history, market and oracle modules: simpler state machines.
