/**
 Swap accounting: each swap row's status is a function of its order's state. The transactions of the
 store keep it so; the processor's own status write does not check the order, so a run keeps it
 exactly when every such write finds a failed order or no swap row.
 */
module ExecutionAccounting {
  import opened Basics
  import opened ClientOrderId
  import opened ExecutionTables
  import opened ExecutionInvariant
  import opened ExecutionRuns

  function StatusOf(s: OrderState): SwapStatus {
    match s
    case Submitted => SwapSubmitted
    case Confirmed => SwapConfirmed
    case Failed => SwapFailed
    case _ => Proposed
  }

  /** A swap row exists exactly for orders that reached a batch; its status follows the order's. */
  ghost predicate AccountingOk(accounting: map<OrderId, SwapStatus>, orders: Orders) {
    && (forall o | o in orders && orders[o].batch.Some? ::
          o in accounting && accounting[o] == StatusOf(orders[o].state))
    && (forall o | o in accounting :: o in orders && orders[o].batch.Some?)
  }

  ghost predicate Booked(db: Db) { AccountingOk(db.accounting, db.orders) }

  // ---- Frames ----

  lemma MovedAccounting(accounting: map<OrderId, SwapStatus>, orders: Orders, next: Orders, ids: set<OrderId>, b: Option<BatchId>,
                        before: OrderState, after: OrderState)
    requires AccountingOk(accounting, orders) && Moved(orders, next, ids, b, {before}, after)
    ensures AccountingOk(Settle(accounting, ids, StatusOf(before), StatusOf(after)), next)
  {
    assert forall o | o in next :: o in orders;
  }

  lemma MovedUnbatched(accounting: map<OrderId, SwapStatus>, orders: Orders, next: Orders, ids: set<OrderId>,
                       before: set<OrderState>, after: OrderState)
    requires AccountingOk(accounting, orders) && Moved(orders, next, ids, None, before, after)
    ensures AccountingOk(accounting, next)
  {
    assert forall o | o in next :: o in orders;
  }

  // ---- Every transaction of the store ----

  lemma AdmitBooks(db: Db, client: Uuid, commitment: Commitment, id: OrderId, user: User, now: Time, limit: nat)
    requires Booked(db) && AdmissionOk(db.leases, db.reservations, db.orders)
    ensures Booked(Admit(db, client, commitment, id, user, now, limit).0)
  {
    var next := Admit(db, client, commitment, id, user, now, limit).0;
    if next != db { assert next.orders == db.orders[id := FreshOrder(client, user, db.leases[client].nonce, now)]; }
  }

  lemma ClaimBooks(db: Db, worker: Worker, now: Time, lease: Time, count: nat)
    requires Booked(db) && RowsOk(db.orders)
    ensures Booked(ClaimAdmitted(db, worker, now, lease, count).0)
  {
    if !AnyPending(db) {
      var ids := Ids(Earliest(db.orders, EligibleOrders(db, now), count));
      EarliestWithin(db.orders, EligibleOrders(db, now), count);
      ClaimMoves(db.orders, ids, worker, now + lease);
      MovedUnbatched(db.accounting, db.orders, ClaimRows(db.orders, ids, worker, now + lease), ids, QUEUED, ProcessingClaimed);
    }
  }

  lemma FailQueuedBooks(db: Db, ids: set<OrderId>, reason: Reason)
    requires Booked(db) && RowsOk(db.orders) && AllQueued(db.orders, ids)
    ensures Booked(FailOrders(db, ids, reason))
  {
    FailMoves(db.orders, ids, reason);
    MovedUnbatched(db.accounting, db.orders, FailRows(db.orders, ids, reason), ids, QUEUED, Failed);
  }

  lemma FailClaimedBooks(db: Db, o: OrderId, worker: Worker, reason: Reason)
    requires Booked(db) && RowsOk(db.orders)
    ensures Booked(FailClaimed(db, o, worker, reason).0)
  {
    if ClaimedBy(db, o, worker) { FailQueuedBooks(db, {o}, reason); }
  }

  lemma CreateBooks(db: Db, worker: Worker, ids: seq<OrderId>, swaps: seq<OrderId>, b: BatchId, now: Time)
    requires Booked(db) && RowsOk(db.orders)
    ensures Booked(CreateBatch(db, worker, ids, swaps, b, now).0)
  {
    if CreateBatch(db, worker, ids, swaps, b, now).1 == Ok(Some(b)) {
      BatchableRows(db, worker, ids);
      BatchAddedAccounting(db.accounting, db.orders, Ids(ids), b);
    }
  }

  lemma BatchAddedAccounting(accounting: map<OrderId, SwapStatus>, orders: Orders, ids: set<OrderId>, b: BatchId)
    requires AccountingOk(accounting, orders) && AllClaimed(orders, ids)
    ensures AccountingOk(ProposeAll(accounting, ids), BatchRows(orders, ids, b))
  {
  }

  lemma RecordBooks(db: Db, b: BatchId, worker: Worker, tx: TxHash, ids: seq<OrderId>)
    requires Booked(db) && RowsOk(db.orders)
    ensures Booked(RecordSubmission(db, b, worker, tx, ids).0)
  {
    if RecordSubmission(db, b, worker, tx, ids).0 != db {
      SubmitMoves(db, b, worker, Ids(ids), tx);
      MovedAccounting(db.accounting, db.orders, SubmitRows(db.orders, Ids(ids), tx), Ids(ids), Some(b), Batched, Submitted);
    }
  }

  lemma FailBatchedAccounts(db: Db, b: BatchId, worker: Worker, ids: set<OrderId>, reason: Reason)
    requires Booked(db) && AllAwaiting(db, b, worker, ids)
    ensures Booked(FailBatched(db, ids, reason))
  {
    FailBatchedMoves(db, b, worker, ids, reason);
    MovedAccounting(db.accounting, db.orders, FailBatchedRows(db.orders, ids, reason), ids, Some(b), Batched, Failed);
  }

  lemma SettledAccounting(db: Db, tx: TxHash, reason: Option<Reason>)
    requires Booked(db) && tx in db.submissions && SettlesListed(db, tx, reason)
    ensures Booked(Settled(db, tx, reason))
  {
    var next, ids, b := Settled(db, tx, reason).orders, Ids(db.submissions[tx].orders), Some(db.submissions[tx].batch);
    MovedAccounting(db.accounting, db.orders, next, ids, b, Submitted, Resolution(reason));
  }

  lemma FinalizeBooks(db: Db, b: BatchId)
    requires Booked(db)
    ensures Booked(FinalizeIfReady(db, b))
  {
  }

  lemma BeginBooks(db: Db, b: BatchId, worker: Worker)
    requires Booked(db)
    ensures Booked(BeginReconciliation(db, b, worker).0)
  {
    if Owns(db, b, worker) { FinalizeBooks(db.(batches := Reconcile(db.batches, b)), b); }
  }

  lemma ResolveBooks(db: Db, tx: TxHash, reason: Option<Reason>)
    requires Booked(db) && RowsOk(db.orders) && PlacedOk(db.orders, db.batches) && SubmissionsOk(db.submissions, db.orders)
    ensures Booked(ResolveSubmission(db, tx, reason).0)
  {
    if tx in db.submissions && db.submissions[tx].state.Open? {
      SettledMoves(db, tx, reason);
      SettledAccounting(db, tx, reason);
      FinalizeBooks(Settled(db, tx, reason), db.submissions[tx].batch);
    }
  }

  // ---- The processor's status write ----

  /** The write finds a failed order, or no swap row. */
  ghost predicate Proper(db: Db, op: Op) {
    op.DoFailSwap? && op.swap in db.accounting ==> op.swap in db.orders && db.orders[op.swap].state.Failed?
  }

  /** The processor's unconditional status write keeps swap status a function of order state exactly
      when the order has no swap row or has failed. */
  lemma FailSwapExact(db: Db, o: OrderId)
    requires Booked(db)
    ensures Booked(FailSwap(db, o)) <==> (o in db.accounting ==> db.orders[o].state.Failed?)
  {
    if o in db.accounting {
      assert db.accounting[o] == StatusOf(db.orders[o].state);
      assert FailSwap(db, o).accounting[o] == SwapFailed;
    }
  }

  lemma QueueOpBooks(db: Db, op: Op, limit: nat)
    requires Booked(db) && AdmissionOk(db.leases, db.reservations, db.orders) && RowsOk(db.orders)
    requires IsQueueOp(op) && !op.DoFailSwap?
    ensures Booked(Apply(db, op, limit))
  {
    match op
    case DoAllocateLease(_, _) =>
    case DoAdmit(client, commitment, id, user, at) => AdmitBooks(db, client, commitment, id, user, at, limit);
    case DoClaimOrders(worker, now, lease, count) => ClaimBooks(db, worker, now, lease, count);
    case DoFailClaimed(worker, order, reason) => FailClaimedBooks(db, order, worker, reason);
    case DoFailByIds(ids, cause) => FailQueuedBooks(db, QueuedAmong(db, ids), cause);
    case DoMarkDelivered(_) =>
  }

  lemma BatchOpBooks(db: Db, op: Op, limit: nat)
    requires Booked(db) && RowsOk(db.orders) && PlacedOk(db.orders, db.batches) && SubmissionsOk(db.submissions, db.orders)
    requires !IsQueueOp(op)
    ensures Booked(Apply(db, op, limit))
  {
    match op
    case DoCreateBatch(worker, batched, swaps, created, now) => CreateBooks(db, worker, batched, swaps, created, now);
    case DoClaimBatch(_, _, _) =>
    case DoRecordSubmission(worker, batch, tx, submitted) => RecordBooks(db, batch, worker, tx, submitted);
    case DoMarkFailed(worker, batch, failed, reason) =>
      FailBatchedAccounts(db, batch, worker, AwaitingAmong(db, batch, worker, failed), reason);
    case DoFailRemaining(worker, batch, reason) =>
      FailBatchedAccounts(db, batch, worker, Awaiting(db, batch, worker), reason);
    case DoBeginReconciliation(worker, batch) => BeginBooks(db, batch, worker);
    case DoResolve(resolved, outcome) => ResolveBooks(db, resolved, outcome);
  }

  lemma StoreStepBooks(db: Db, op: Op, limit: nat)
    requires Booked(db) && AdmissionOk(db.leases, db.reservations, db.orders) && RowsOk(db.orders)
    requires PlacedOk(db.orders, db.batches) && SubmissionsOk(db.submissions, db.orders) && !op.DoFailSwap?
    ensures Booked(Apply(db, op, limit))
  {
    if IsQueueOp(op) { QueueOpBooks(db, op, limit); } else { BatchOpBooks(db, op, limit); }
  }

  lemma SwapStepBooks(db: Db, o: OrderId, limit: nat)
    requires Booked(db)
    ensures Booked(Apply(db, DoFailSwap(o), limit)) <==> Proper(db, DoFailSwap(o))
  {
    FailSwapExact(db, o);
  }

  /** A step keeps swap status a function of order state exactly when it is proper. */
  lemma StepBooksExactly(db: Db, op: Op, limit: nat)
    requires Booked(db) && AdmissionOk(db.leases, db.reservations, db.orders) && RowsOk(db.orders)
    requires PlacedOk(db.orders, db.batches) && SubmissionsOk(db.submissions, db.orders)
    ensures Booked(Apply(db, op, limit)) <==> Proper(db, op)
  {
    match op
    case DoFailSwap(swap) => SwapStepBooks(db, swap, limit);
    case _ => StoreStepBooks(db, op, limit);
  }

  // ---- Whole runs ----

  ghost predicate ProperRun(db: Db, ops: seq<Op>, limit: nat)
    decreases |ops|
  {
    ops == [] || (Proper(db, ops[0]) && ProperRun(Apply(db, ops[0], limit), ops[1..], limit))
  }

  /** Swap status is a function of order state after every step. */
  ghost predicate BookedThroughout(db: Db, ops: seq<Op>, limit: nat)
    decreases |ops|
  {
    Booked(db) && (ops == [] || BookedThroughout(Apply(db, ops[0], limit), ops[1..], limit))
  }

  lemma {:induction false} RunBooksExactly(db: Db, ops: seq<Op>, limit: nat)
    requires Inv(db) && Booked(db)
    ensures BookedThroughout(db, ops, limit) <==> ProperRun(db, ops, limit)
    decreases |ops|
  {
    if ops != [] {
      var next := Apply(db, ops[0], limit);
      StepBooksExactly(db, ops[0], limit);
      if Booked(next) {
        StepKeeps(db, ops[0], limit);
        RunBooksExactly(next, ops[1..], limit);
      }
    }
  }

  lemma {:induction false} ThroughoutAtEnd(db: Db, ops: seq<Op>, limit: nat)
    requires BookedThroughout(db, ops, limit)
    ensures Booked(RunFrom(db, ops, limit))
    decreases |ops|
  {
    if ops != [] { ThroughoutAtEnd(Apply(db, ops[0], limit), ops[1..], limit); }
  }

  /** From empty tables, swap status follows order state throughout a run exactly when every write of
      the processor in it finds a failed order or no swap row. */
  lemma AccountingFollowsExactly(ops: seq<Op>, limit: nat)
    ensures BookedThroughout(EMPTY, ops, limit) <==> ProperRun(EMPTY, ops, limit)
    ensures ProperRun(EMPTY, ops, limit) ==> Booked(Run(ops, limit))
  {
    EmptyInv();
    RunBooksExactly(EMPTY, ops, limit);
    if ProperRun(EMPTY, ops, limit) { ThroughoutAtEnd(EMPTY, ops, limit); }
  }

  // ---- A run that breaks it ----

  const ZEROS: Entropy := [0, 0, 0, 0, 0, 0, 0, 0, 0, 0, 0, 0]
  const CLIENT: Uuid := ForNonce(0, ZEROS)

  /** Worker 1 batches an order; executor 2 claims the batch and stalls; executor 4 takes it over and
      submits the order; executor 2 finds the order expired. Its failure is fenced off in the store but
      announced all the same, and the processor marks the swap failed. */
  const LOST_LEASE: seq<Op> :=
    [DoAllocateLease(0, ZEROS), DoAdmit(CLIENT, 0, 7, 0, 0), DoClaimOrders(1, 1, 10, 1), DoCreateBatch(1, [7], [7], 3, 2),
     DoClaimBatch(2, 3, 10), DoClaimBatch(4, 20, 10), DoRecordSubmission(4, 3, 9, [7]), DoMarkFailed(2, 3, [7], "expired"),
     DoFailSwap(7)]

  function Row(state: OrderState, owner: Option<Worker>, until: Option<Time>, batch: Option<BatchId>, tx: Option<TxHash>): Order {
    Order(CLIENT, 0, 0, state, owner, until, batch, tx, None, 0)
  }

  function BatchRow(state: BatchState, owner: Option<Worker>, until: Option<Time>): Batch {
    Batch([7], state, owner, until, false, 2)
  }

  ghost predicate At(db: Db, orders: Orders, batches: Batches, accounting: map<OrderId, SwapStatus>) {
    db.orders == orders && db.batches == batches && db.accounting == accounting && db.submissions == map[]
  }

  lemma Admission(db: Db)
    requires db == AllocateLease(EMPTY, 0, ZEROS).0
    ensures At(Admit(db, CLIENT, 0, 7, 0, 0, 1).0, map[7 := Row(Admitted, None, None, None, None)], map[], map[])
  {
    RoundTrip(0, ZEROS);
    assert db.leases == map[CLIENT := Lease(0, 0)];
    assert QueuedOrders(db) == {};
  }

  lemma Claiming(db: Db)
    requires At(db, map[7 := Row(Admitted, None, None, None, None)], map[], map[])
    ensures At(ClaimAdmitted(db, 1, 1, 10, 1).0, map[7 := Row(ProcessingClaimed, Some(1), Some(11), None, None)], map[], map[])
  {
    var s := EligibleOrders(db, 1);
    assert s == {7};
    EarliestExists(db.orders, s);
    var picked := Earliest(db.orders, s, 1);
    assert IsEarliest(db.orders, s, picked[0]);
    assert Earliest(db.orders, s - {7}, 0) == [];
    assert picked == [7];
    assert Ids(picked) == {7};
  }

  lemma Batching(db: Db)
    requires At(db, map[7 := Row(ProcessingClaimed, Some(1), Some(11), None, None)], map[], map[])
    ensures At(CreateBatch(db, 1, [7], [7], 3, 2).0,
               map[7 := Row(Batched, None, None, Some(3), None)], map[3 := BatchRow(Pending, None, None)], map[7 := Proposed])
  {
    assert Ids([7]) == {7};
    assert ClaimedBy(db, 7, 1);
  }

  lemma Promoting(db: Db)
    requires At(db, map[7 := Row(Batched, None, None, Some(3), None)], map[3 := BatchRow(Pending, None, None)], map[7 := Proposed])
    ensures At(ClaimBatch(db, 2, 3, 10).0,
               map[7 := Row(Batched, None, None, Some(3), None)], map[3 := BatchRow(Claimed, Some(2), Some(13))], map[7 := Proposed])
  {
    assert Claimable(db, 3, 3);
    assert forall b :: Claimable(db, b, 3) ==> b == 3;
  }

  lemma TakingOver(db: Db)
    requires At(db, map[7 := Row(Batched, None, None, Some(3), None)], map[3 := BatchRow(Claimed, Some(2), Some(13))], map[7 := Proposed])
    ensures At(ClaimBatch(db, 4, 20, 10).0,
               map[7 := Row(Batched, None, None, Some(3), None)], map[3 := BatchRow(Claimed, Some(4), Some(30))], map[7 := Proposed])
  {
    assert ExpiredClaim(db, 3, 20) && Claimable(db, 3, 20);
    assert forall b :: Claimable(db, b, 20) ==> b == 3;
  }

  lemma Submitting(db: Db)
    requires At(db, map[7 := Row(Batched, None, None, Some(3), None)], map[3 := BatchRow(Claimed, Some(4), Some(30))], map[7 := Proposed])
    ensures var next := RecordSubmission(db, 3, 4, 9, [7]).0;
            && next.orders == map[7 := Row(Submitted, None, None, Some(3), Some(9))]
            && next.batches == db.batches && next.accounting == map[7 := SwapSubmitted]
  {
    assert Ids([7]) == {7};
    assert AwaitsSubmission(db, 3, 7);
  }

  lemma Fencing(db: Db)
    requires db.batches == map[3 := BatchRow(Claimed, Some(4), Some(30))]
    ensures MarkPreSubmissionFailed(db, 3, 2, [7], "expired").orders == db.orders
    ensures MarkPreSubmissionFailed(db, 3, 2, [7], "expired").accounting == db.accounting
  {
    assert AwaitingAmong(db, 3, 2, [7]) == {};
  }

  /** The tables after the first n operations of the run. */
  ghost function After(n: nat): Db
    requires n <= |LOST_LEASE|
  {
    Run(LOST_LEASE[..n], 1)
  }

  lemma AfterStep(n: nat)
    requires n < |LOST_LEASE|
    ensures After(n + 1) == Apply(After(n), LOST_LEASE[n], 1)
  {
    RunStep(LOST_LEASE, n, 1);
  }

  lemma RunStep(ops: seq<Op>, n: nat, limit: nat)
    requires n < |ops|
    ensures Run(ops[..n + 1], limit) == Apply(Run(ops[..n], limit), ops[n], limit)
  {
    assert ops[..n + 1] == ops[..n] + [ops[n]];
    RunFromAppend(EMPTY, ops[..n], [ops[n]], limit);
    assert [ops[n]][1..] == [];
    assert RunFrom(Apply(Run(ops[..n], limit), ops[n], limit), [], limit) == Apply(Run(ops[..n], limit), ops[n], limit);
  }

  lemma Queued()
    ensures At(After(3), map[7 := Row(ProcessingClaimed, Some(1), Some(11), None, None)], map[], map[])
  {
    assert After(0) == EMPTY;
    AfterStep(0);
    AfterStep(1);
    AfterStep(2);
    Admission(After(1));
    Claiming(After(2));
  }

  lemma Formed()
    ensures At(After(4), map[7 := Row(Batched, None, None, Some(3), None)], map[3 := BatchRow(Pending, None, None)],
               map[7 := Proposed])
  {
    Queued();
    AfterStep(3);
    Batching(After(3));
  }

  lemma Executing()
    ensures At(After(5), map[7 := Row(Batched, None, None, Some(3), None)], map[3 := BatchRow(Claimed, Some(2), Some(13))],
               map[7 := Proposed])
  {
    Formed();
    AfterStep(4);
    Promoting(After(4));
  }

  lemma HandedOver()
    ensures At(After(6), map[7 := Row(Batched, None, None, Some(3), None)], map[3 := BatchRow(Claimed, Some(4), Some(30))],
               map[7 := Proposed])
  {
    Executing();
    AfterStep(5);
    TakingOver(After(5));
  }

  lemma Announced()
    ensures After(8).orders == map[7 := Row(Submitted, None, None, Some(3), Some(9))]
    ensures After(8).accounting == map[7 := SwapSubmitted]
  {
    HandedOver();
    AfterStep(6);
    Submitting(After(6));
    AfterStep(7);
    Fencing(After(7));
  }

  /** The run is reachable, and ends with the order submitted and its swap marked failed. */
  lemma LostLeaseBreaksAccounting()
    ensures var db := Run(LOST_LEASE, 1);
            && 7 in db.orders && db.orders[7].state.Submitted?
            && 7 in db.accounting && db.accounting[7] == SwapFailed
            && !Booked(db)
  {
    Announced();
    AfterStep(8);
    assert LOST_LEASE[..9] == LOST_LEASE;
  }

  // ---- A swap marked failed stays so ----

  ghost predicate FailuresKept(accounting: map<OrderId, SwapStatus>, next: map<OrderId, SwapStatus>) {
    forall o | o in accounting && accounting[o].SwapFailed? :: o in next && next[o].SwapFailed?
  }

  lemma SettleKeepsFailures(accounting: map<OrderId, SwapStatus>, ids: set<OrderId>, before: SwapStatus, after: SwapStatus)
    requires !before.SwapFailed?
    ensures FailuresKept(accounting, Settle(accounting, ids, before, after))
  {
  }

  lemma QueueOpKeepsFailures(db: Db, op: Op, limit: nat)
    requires IsQueueOp(op)
    ensures FailuresKept(db.accounting, Apply(db, op, limit).accounting)
  {
  }

  lemma BatchOpKeepsFailures(db: Db, op: Op, limit: nat)
    requires !IsQueueOp(op)
    ensures FailuresKept(db.accounting, Apply(db, op, limit).accounting)
  {
    match op
    case DoCreateBatch(worker, batched, swaps, created, now) =>
    case DoClaimBatch(worker, now, lease) =>
    case DoRecordSubmission(worker, batch, tx, submitted) => SettleKeepsFailures(db.accounting, Ids(submitted), Proposed, SwapSubmitted);
    case DoMarkFailed(worker, batch, failed, reason) =>
      SettleKeepsFailures(db.accounting, AwaitingAmong(db, batch, worker, failed), Proposed, SwapFailed);
    case DoFailRemaining(worker, batch, reason) =>
      SettleKeepsFailures(db.accounting, Awaiting(db, batch, worker), Proposed, SwapFailed);
    case DoBeginReconciliation(worker, batch) =>
    case DoResolve(resolved, outcome) => ResolveKeepsFailures(db, resolved, outcome);
  }

  lemma ResolveKeepsFailures(db: Db, tx: TxHash, reason: Option<Reason>)
    ensures FailuresKept(db.accounting, ResolveSubmission(db, tx, reason).0.accounting)
  {
    if tx in db.submissions && db.submissions[tx].state.Open? {
      SettleKeepsFailures(db.accounting, Ids(db.submissions[tx].orders), SwapSubmitted, if reason.None? then SwapConfirmed else SwapFailed);
      assert ResolveSubmission(db, tx, reason).0.accounting == Settled(db, tx, reason).accounting;
    }
  }

  /** Between any two states of any run a swap marked failed stays failed, also when its order is
      confirmed later. */
  lemma {:induction false} FailedSwapsStay(db: Db, ops: seq<Op>, limit: nat)
    ensures FailuresKept(db.accounting, RunFrom(db, ops, limit).accounting)
    decreases |ops|
  {
    if ops != [] {
      if IsQueueOp(ops[0]) { QueueOpKeepsFailures(db, ops[0], limit); } else { BatchOpKeepsFailures(db, ops[0], limit); }
      FailedSwapsStay(Apply(db, ops[0], limit), ops[1..], limit);
    }
  }
}
