/**
 The audit trail of the execution tables: in every run, lifecycle events and outbox rows are exactly
 those of the stages that orders and batches have passed.
 */
module ExecutionAudit {
  import opened Basics
  import opened ClientOrderId
  import opened ExecutionTables
  import opened ExecutionInvariant
  import opened ExecutionRuns

  /** An order was admitted, batched or submitted exactly when the event says so. */
  ghost predicate EventsExact(orders: Orders, progress: set<Progress>) {
    && (forall o: OrderId :: AdmittedEvent(o) in progress <==> o in orders)
    && (forall o: OrderId :: BatchedEvent(o) in progress <==> o in orders && orders[o].batch.Some?)
    && (forall o: OrderId :: SubmittedEvent(o) in progress <==> o in orders && orders[o].tx.Some?)
    && (forall o, w, t :: ClaimedEvent(o, w, t) in progress ==> o in orders)
  }

  /** Every order and batch has its wake-up, and a batch has its terminal one exactly when terminal. */
  ghost predicate OutboxExact(orders: Orders, batches: Batches, outbox: set<Wakeup>) {
    && (forall o: OrderId :: OrderAdmitted(o) in outbox <==> o in orders)
    && (forall b: BatchId :: BatchPending(b) in outbox <==> b in batches)
    && (forall b: BatchId :: BatchTerminal(b) in outbox <==> b in batches && batches[b].state.Terminal?)
  }

  ghost predicate Audited(db: Db) {
    EventsExact(db.orders, db.progress) && OutboxExact(db.orders, db.batches, db.outbox) && db.delivered <= db.outbox
  }

  /** Rows may change, as long as no order enters or leaves a stage. */
  ghost predicate SameStages(orders: Orders, next: Orders) {
    next.Keys == orders.Keys
    && forall o | o in orders :: (next[o].batch.Some? <==> orders[o].batch.Some?) && (next[o].tx.Some? <==> orders[o].tx.Some?)
  }

  lemma StagesKeep(orders: Orders, next: Orders, progress: set<Progress>)
    requires EventsExact(orders, progress) && SameStages(orders, next)
    ensures EventsExact(next, progress)
  {
    assert forall o :: o in next <==> o in orders;
  }

  lemma OutboxKeeps(orders: Orders, next: Orders, batches: Batches, outbox: set<Wakeup>)
    requires OutboxExact(orders, batches, outbox) && next.Keys == orders.Keys
    ensures OutboxExact(next, batches, outbox)
  {
    assert forall o :: o in next <==> o in orders;
  }

  /** A batch row changes without becoming terminal or ceasing to be. */
  lemma BatchKeeps(orders: Orders, batches: Batches, outbox: set<Wakeup>, b: BatchId, row: Batch)
    requires OutboxExact(orders, batches, outbox) && b in batches && !row.state.Terminal? && !batches[b].state.Terminal?
    ensures OutboxExact(orders, batches[b := row], outbox)
  {
  }

  lemma FinalizeAudited(db: Db, b: BatchId)
    requires Audited(db)
    ensures Audited(FinalizeIfReady(db, b))
  {
    var next := FinalizeIfReady(db, b);
    if next != db {
      assert next.outbox == db.outbox + {BatchTerminal(b)};
    }
  }

  lemma AdmitAudited(db: Db, client: Uuid, commitment: Commitment, id: OrderId, user: User, now: Time, limit: nat)
    requires Audited(db) && AdmissionOk(db.leases, db.reservations, db.orders)
    ensures Audited(Admit(db, client, commitment, id, user, now, limit).0)
  {
    var next := Admit(db, client, commitment, id, user, now, limit).0;
    if next != db {
      InsertAudited(db, id, FreshOrder(client, user, db.leases[client].nonce, now));
      assert next.orders == db.orders[id := FreshOrder(client, user, db.leases[client].nonce, now)];
    }
  }

  lemma InsertAudited(db: Db, id: OrderId, row: Order)
    requires Audited(db) && id !in db.orders && row.batch.None? && row.tx.None?
    ensures Audited(InsertOrder(db, id, row))
  {
  }

  lemma ClaimAudited(db: Db, worker: Worker, now: Time, lease: Time, count: nat)
    requires Audited(db)
    ensures Audited(ClaimAdmitted(db, worker, now, lease, count).0)
  {
    if !AnyPending(db) {
      var ids := Ids(Earliest(db.orders, EligibleOrders(db, now), count));
      EarliestWithin(db.orders, EligibleOrders(db, now), count);
      PickedAudited(db, ids, worker, now, now + lease);
    }
  }

  lemma PickedAudited(db: Db, ids: set<OrderId>, worker: Worker, now: Time, until: Time)
    requires Audited(db) && ids <= db.orders.Keys
    ensures Audited(ClaimPicked(db, ids, worker, now, until))
  {
    var next := ClaimPicked(db, ids, worker, now, until);
    StagesKeep(db.orders, next.orders, db.progress);
    OutboxKeeps(db.orders, next.orders, db.batches, db.outbox);
  }

  lemma FailAudited(db: Db, ids: set<OrderId>, reason: Reason)
    requires Audited(db)
    ensures Audited(FailOrders(db, ids, reason)) && Audited(FailBatched(db, ids, reason))
  {
    StagesKeep(db.orders, FailRows(db.orders, ids, reason), db.progress);
    OutboxKeeps(db.orders, FailRows(db.orders, ids, reason), db.batches, db.outbox);
    StagesKeep(db.orders, FailBatchedRows(db.orders, ids, reason), db.progress);
    OutboxKeeps(db.orders, FailBatchedRows(db.orders, ids, reason), db.batches, db.outbox);
  }

  lemma CreateAudited(db: Db, worker: Worker, ids: seq<OrderId>, swaps: seq<OrderId>, b: BatchId, now: Time)
    requires Audited(db)
    ensures Audited(CreateBatch(db, worker, ids, swaps, b, now).0)
  {
    var next := CreateBatch(db, worker, ids, swaps, b, now).0;
    if next != db {
      assert forall o | o in ids :: o in db.orders && o in Ids(ids);
      BatchedEvents(db.orders, db.progress, ids, b);
      OutboxKeeps(db.orders, next.orders, db.batches, db.outbox);
    }
  }

  lemma BatchedEvents(orders: Orders, progress: set<Progress>, ids: seq<OrderId>, b: BatchId)
    requires EventsExact(orders, progress) && forall o | o in ids :: o in orders
    ensures EventsExact(BatchRows(orders, Ids(ids), b), progress + set o | o in ids :: BatchedEvent(o))
  {
  }

  lemma RecordAudited(db: Db, b: BatchId, worker: Worker, tx: TxHash, ids: seq<OrderId>)
    requires Audited(db)
    ensures Audited(RecordSubmission(db, b, worker, tx, ids).0)
  {
    var next := RecordSubmission(db, b, worker, tx, ids).0;
    if next != db {
      assert forall o | o in ids :: o in db.orders && o in Ids(ids);
      SubmittedEvents(db.orders, db.progress, ids, tx);
      OutboxKeeps(db.orders, next.orders, db.batches, db.outbox);
    }
  }

  lemma SubmittedEvents(orders: Orders, progress: set<Progress>, ids: seq<OrderId>, tx: TxHash)
    requires EventsExact(orders, progress) && forall o | o in ids :: o in orders
    ensures EventsExact(SubmitRows(orders, Ids(ids), tx), progress + set o | o in ids :: SubmittedEvent(o))
  {
  }

  lemma ClaimBatchAudited(db: Db, worker: Worker, now: Time, lease: Time)
    requires Audited(db)
    ensures Audited(ClaimBatch(db, worker, now, lease).0)
  {
    var (next, r) := ClaimBatch(db, worker, now, lease);
    if r.Ok? && r.value.Some? {
      BatchKeeps(db.orders, db.batches, db.outbox, r.value.value, next.batches[r.value.value]);
    }
  }

  lemma BeginAudited(db: Db, b: BatchId, worker: Worker)
    requires Audited(db)
    ensures Audited(BeginReconciliation(db, b, worker).0)
  {
    if BeginReconciliation(db, b, worker).1 == Ok(true) {
      BatchKeeps(db.orders, db.batches, db.outbox, b, Reconcile(db.batches, b)[b]);
      FinalizeAudited(db.(batches := Reconcile(db.batches, b)), b);
    }
  }

  lemma ResolveAudited(db: Db, tx: TxHash, reason: Option<Reason>)
    requires Audited(db)
    ensures Audited(ResolveSubmission(db, tx, reason).0)
  {
    if tx in db.submissions && db.submissions[tx].state.Open? {
      var s := Settled(db, tx, reason);
      StagesKeep(db.orders, s.orders, db.progress);
      OutboxKeeps(db.orders, s.orders, db.batches, db.outbox);
      FinalizeAudited(s, db.submissions[tx].batch);
    }
  }

  lemma QueueOpAudited(db: Db, op: Op, limit: nat)
    requires Audited(db) && AdmissionOk(db.leases, db.reservations, db.orders) && IsQueueOp(op)
    ensures Audited(Apply(db, op, limit))
  {
    match op
    case DoAllocateLease(user, random) =>
    case DoAdmit(client, commitment, id, user, at) => AdmitAudited(db, client, commitment, id, user, at, limit);
    case DoClaimOrders(worker, now, lease, count) => ClaimAudited(db, worker, now, lease, count);
    case DoFailClaimed(worker, order, reason) => FailAudited(db, {order}, reason);
    case DoFailByIds(ids, cause) => FailAudited(db, QueuedAmong(db, ids), cause);
    case DoMarkDelivered(wakeup) =>
    case DoFailSwap(swap) =>
  }

  lemma BatchOpAudited(db: Db, op: Op, limit: nat)
    requires Audited(db) && !IsQueueOp(op)
    ensures Audited(Apply(db, op, limit))
  {
    match op
    case DoCreateBatch(worker, batched, swaps, created, now) => CreateAudited(db, worker, batched, swaps, created, now);
    case DoClaimBatch(worker, now, lease) => ClaimBatchAudited(db, worker, now, lease);
    case DoRecordSubmission(worker, batch, tx, submitted) => RecordAudited(db, batch, worker, tx, submitted);
    case DoMarkFailed(worker, batch, failed, reason) => FailAudited(db, AwaitingAmong(db, batch, worker, failed), reason);
    case DoFailRemaining(worker, batch, reason) => FailAudited(db, Awaiting(db, batch, worker), reason);
    case DoBeginReconciliation(worker, batch) => BeginAudited(db, batch, worker);
    case DoResolve(resolved, outcome) => ResolveAudited(db, resolved, outcome);
  }

  lemma StepAudited(db: Db, op: Op, limit: nat)
    requires Audited(db) && AdmissionOk(db.leases, db.reservations, db.orders)
    ensures Audited(Apply(db, op, limit))
  {
    if IsQueueOp(op) { QueueOpAudited(db, op, limit); } else { BatchOpAudited(db, op, limit); }
  }

  lemma {:induction false} RunAudited(db: Db, ops: seq<Op>, limit: nat)
    requires Inv(db) && Audited(db)
    ensures Audited(RunFrom(db, ops, limit))
    decreases |ops|
  {
    if ops != [] {
      StepAudited(db, ops[0], limit);
      StepKeeps(db, ops[0], limit);
      RunAudited(Apply(db, ops[0], limit), ops[1..], limit);
    }
  }

  /** In every reachable state the audit trail is exact. */
  lemma ReachableAudited(ops: seq<Op>, limit: nat)
    ensures Audited(Run(ops, limit))
  {
    EmptyInv();
    RunAudited(EMPTY, ops, limit);
  }

  // ---- Wake-ups ----

  /** Whoever takes an order or a batch also ticks off its wake-up. */
  ghost predicate WakeupsTaken(orders: Orders, batches: Batches, delivered: set<Wakeup>) {
    && (forall o | o in orders && (orders[o].state.ProcessingClaimed? || orders[o].batch.Some?) :: OrderAdmitted(o) in delivered)
    && (forall b | b in batches && !batches[b].state.Pending? :: BatchPending(b) in delivered)
  }

  ghost predicate Taken(db: Db) { Audited(db) && WakeupsTaken(db.orders, db.batches, db.delivered) }

  /** Nothing is newly taken, and no tick is lost. */
  ghost predicate TakesNothing(db: Db, next: Db) {
    && db.delivered <= next.delivered
    && (forall o | o in next.orders && (next.orders[o].state.ProcessingClaimed? || next.orders[o].batch.Some?) ::
          o in db.orders && (db.orders[o].state.ProcessingClaimed? || db.orders[o].batch.Some?))
    && (forall b | b in next.batches && !next.batches[b].state.Pending? :: b in db.batches && !db.batches[b].state.Pending?)
  }

  lemma NothingTaken(db: Db, next: Db)
    requires WakeupsTaken(db.orders, db.batches, db.delivered) && TakesNothing(db, next)
    ensures WakeupsTaken(next.orders, next.batches, next.delivered)
  {
  }

  lemma ClaimTakes(db: Db, worker: Worker, now: Time, lease: Time, count: nat)
    requires Taken(db)
    ensures var next := ClaimAdmitted(db, worker, now, lease, count).0; WakeupsTaken(next.orders, next.batches, next.delivered)
  {
    if !AnyPending(db) { EarliestWithin(db.orders, EligibleOrders(db, now), count); }
  }

  lemma BatchTakes(db: Db, worker: Worker, now: Time, lease: Time)
    requires Taken(db)
    ensures var next := ClaimBatch(db, worker, now, lease).0; WakeupsTaken(next.orders, next.batches, next.delivered)
  {
  }

  lemma AdmitTakes(db: Db, client: Uuid, commitment: Commitment, id: OrderId, user: User, now: Time, limit: nat)
    requires AdmissionOk(db.leases, db.reservations, db.orders)
    ensures TakesNothing(db, Admit(db, client, commitment, id, user, now, limit).0)
  {
    var next := Admit(db, client, commitment, id, user, now, limit).0;
    if next != db {
      var row := FreshOrder(client, user, db.leases[client].nonce, now);
      assert next.orders == db.orders[id := row] && next.batches == db.batches && next.delivered == db.delivered;
    }
  }

  lemma SameRowsTake(db: Db, next: Db)
    requires next.orders == db.orders && next.batches == db.batches && db.delivered <= next.delivered
    ensures TakesNothing(db, next)
  {
  }

  lemma AllocateTakes(db: Db, user: User, random: Entropy)
    ensures TakesNothing(db, AllocateLease(db, user, random).0)
  {
    SameRowsTake(db, AllocateLease(db, user, random).0);
  }

  lemma DeliveryTakes(db: Db, wakeup: Wakeup)
    ensures TakesNothing(db, MarkDelivered(db, wakeup).0)
  {
    var next := MarkDelivered(db, wakeup).0;
    assert next.orders == db.orders && next.batches == db.batches && (next.delivered == db.delivered || next.delivered == db.delivered + {wakeup});
    SameRowsTake(db, next);
  }

  lemma SwapTakes(db: Db, swap: OrderId)
    ensures TakesNothing(db, FailSwap(db, swap))
  {
    SameRowsTake(db, FailSwap(db, swap));
  }

  lemma CreateTakes(db: Db, worker: Worker, ids: seq<OrderId>, swaps: seq<OrderId>, b: BatchId, now: Time)
    ensures TakesNothing(db, CreateBatch(db, worker, ids, swaps, b, now).0)
  {
    var (next, r) := CreateBatch(db, worker, ids, swaps, b, now);
    if r.Ok? && r.value.Some? { NewBatchTakes(db, next, Ids(ids), b, Batch(ids, Pending, None, None, false, now)); }
  }

  lemma NewBatchTakes(db: Db, next: Db, ids: set<OrderId>, b: BatchId, row: Batch)
    requires next.orders == BatchRows(db.orders, ids, b) && forall o | o in ids :: o in db.orders && db.orders[o].state.ProcessingClaimed?
    requires next.batches == db.batches[b := row] && row.state.Pending? && next.delivered == db.delivered
    ensures TakesNothing(db, next)
  {
  }

  lemma RecordTakes(db: Db, b: BatchId, worker: Worker, tx: TxHash, ids: seq<OrderId>)
    ensures TakesNothing(db, RecordSubmission(db, b, worker, tx, ids).0)
  {
  }

  lemma FailTakes(db: Db, ids: set<OrderId>, reason: Reason)
    ensures TakesNothing(db, FailOrders(db, ids, reason)) && TakesNothing(db, FailBatched(db, ids, reason))
  {
  }

  lemma FinalizeTakes(db: Db, next: Db, b: BatchId)
    requires TakesNothing(db, next)
    ensures TakesNothing(db, FinalizeIfReady(next, b))
  {
  }

  lemma BeginTakes(db: Db, b: BatchId, worker: Worker)
    ensures TakesNothing(db, BeginReconciliation(db, b, worker).0)
  {
    if Owns(db, b, worker) { FinalizeTakes(db, db.(batches := Reconcile(db.batches, b)), b); }
  }

  lemma ResolveTakes(db: Db, tx: TxHash, reason: Option<Reason>)
    ensures TakesNothing(db, ResolveSubmission(db, tx, reason).0)
  {
    if tx in db.submissions && db.submissions[tx].state.Open? {
      FinalizeTakes(db, Settled(db, tx, reason), db.submissions[tx].batch);
    }
  }

  lemma StepTakes(db: Db, op: Op, limit: nat)
    requires Inv(db) && Taken(db)
    ensures var next := Apply(db, op, limit); WakeupsTaken(next.orders, next.batches, next.delivered)
  {
    match op
    case DoClaimOrders(worker, now, lease, count) => ClaimTakes(db, worker, now, lease, count);
    case DoClaimBatch(worker, now, lease) => BatchTakes(db, worker, now, lease);
    case _ =>
      OtherTakes(db, op, limit);
      NothingTaken(db, Apply(db, op, limit));
  }

  lemma OtherTakes(db: Db, op: Op, limit: nat)
    requires AdmissionOk(db.leases, db.reservations, db.orders) && !op.DoClaimOrders? && !op.DoClaimBatch?
    ensures TakesNothing(db, Apply(db, op, limit))
  {
    if IsQueueOp(op) { QueueOpTakes(db, op, limit); } else { BatchOpTakes(db, op, limit); }
  }

  lemma QueueOpTakes(db: Db, op: Op, limit: nat)
    requires AdmissionOk(db.leases, db.reservations, db.orders) && IsQueueOp(op) && !op.DoClaimOrders?
    ensures TakesNothing(db, Apply(db, op, limit))
  {
    match op
    case DoAllocateLease(user, random) => AllocateTakes(db, user, random);
    case DoAdmit(client, commitment, id, user, at) => AdmitTakes(db, client, commitment, id, user, at, limit);
    case DoFailClaimed(worker, order, reason) => FailTakes(db, {order}, reason);
    case DoFailByIds(ids, cause) => FailTakes(db, QueuedAmong(db, ids), cause);
    case DoMarkDelivered(wakeup) => DeliveryTakes(db, wakeup);
    case DoFailSwap(swap) => SwapTakes(db, swap);
  }

  lemma BatchOpTakes(db: Db, op: Op, limit: nat)
    requires !IsQueueOp(op) && !op.DoClaimBatch?
    ensures TakesNothing(db, Apply(db, op, limit))
  {
    match op
    case DoCreateBatch(worker, batched, swaps, created, now) => CreateTakes(db, worker, batched, swaps, created, now);
    case DoRecordSubmission(worker, batch, tx, submitted) => RecordTakes(db, batch, worker, tx, submitted);
    case DoMarkFailed(worker, batch, failed, reason) => FailTakes(db, AwaitingAmong(db, batch, worker, failed), reason);
    case DoFailRemaining(worker, batch, reason) => FailTakes(db, Awaiting(db, batch, worker), reason);
    case DoBeginReconciliation(worker, batch) => BeginTakes(db, batch, worker);
    case DoResolve(resolved, outcome) => ResolveTakes(db, resolved, outcome);
  }

  lemma {:induction false} RunTaken(db: Db, ops: seq<Op>, limit: nat)
    requires Inv(db) && Taken(db)
    ensures Taken(RunFrom(db, ops, limit))
    decreases |ops|
  {
    if ops != [] {
      StepTakes(db, ops[0], limit);
      StepAudited(db, ops[0], limit);
      StepKeeps(db, ops[0], limit);
      RunTaken(Apply(db, ops[0], limit), ops[1..], limit);
    }
  }

  /** In every reachable state the wake-up of whatever was taken, order or batch, is ticked off. */
  lemma ReachableTaken(ops: seq<Op>, limit: nat)
    ensures var db := Run(ops, limit); WakeupsTaken(db.orders, db.batches, db.delivered)
  {
    EmptyInv();
    RunTaken(EMPTY, ops, limit);
  }
}
