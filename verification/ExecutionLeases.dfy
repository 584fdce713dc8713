/**
 Leases over whole runs: a claim holds until it runs out, however the run goes on, and a worker that
 lost one can do nothing more to what it lost.
 */
module ExecutionLeases {
  import opened Basics
  import opened ClientOrderId
  import opened ExecutionTables
  import opened ExecutionInvariant
  import opened ExecutionRuns
  import opened ExecutionHistory

  /** Claims hand out the oldest eligible orders: no order left behind is older than one taken, and of
      two equally old ones the one with the smaller id is taken. */
  lemma {:induction false} EarliestFirst(orders: Orders, s: set<OrderId>, n: nat, p: OrderId, o: OrderId)
    requires s <= orders.Keys && p in Earliest(orders, s, n) && o in s && o !in Earliest(orders, s, n)
    ensures p in orders
    ensures orders[p].createdAt < orders[o].createdAt || (orders[p].createdAt == orders[o].createdAt && p < o)
  {
    EarliestExists(orders, s);
    var picked := Earliest(orders, s, n);
    var rest := Earliest(orders, s - {picked[0]}, n - 1);
    assert picked == [picked[0]] + rest && IsEarliest(orders, s, picked[0]);
    if p != picked[0] { EarliestFirst(orders, s - {picked[0]}, n - 1, p, o); }
  }

  /** They come in that order. */
  lemma {:induction false} EarliestSorted(orders: Orders, s: set<OrderId>, n: nat, i: nat, j: nat)
    requires s <= orders.Keys && i < j < |Earliest(orders, s, n)|
    ensures var p, o := Earliest(orders, s, n)[i], Earliest(orders, s, n)[j];
            && p in orders && o in orders
            && (orders[p].createdAt < orders[o].createdAt || (orders[p].createdAt == orders[o].createdAt && p < o))
  {
    EarliestExists(orders, s);
    var picked := Earliest(orders, s, n);
    var left := s - {picked[0]};
    var rest := Earliest(orders, left, n - 1);
    assert picked == [picked[0]] + rest && IsEarliest(orders, s, picked[0]);
    if i > 0 {
      EarliestSorted(orders, left, n - 1, i - 1, j - 1);
    } else {
      EarliestWithin(orders, left, n - 1);
      assert rest[j - 1] in Ids(rest);
    }
  }

  // ---- What can happen to a claimed order ----

  /** One step leaves a claimed order as it is, fails it, hands it to the worker that claims, or puts
      it into a new pending batch. */
  ghost predicate ClaimedMoves(db: Db, next: Db, op: Op, o: OrderId)
    requires o in db.orders
  {
    && o in next.orders
    && var row := next.orders[o];
       || row == db.orders[o]
       || row.state.Failed?
       || (op.DoClaimOrders? && row.state.ProcessingClaimed? && row.owner == Some(op.worker) && Eligible(db, o, op.now))
       || (row.batch.Some? && !row.state.ProcessingClaimed? && row.batch.value in next.batches
           && next.batches[row.batch.value].state.Pending?)
  }

  lemma ClaimMovesOrder(db: Db, worker: Worker, now: Time, lease: Time, count: nat, o: OrderId)
    requires o in db.orders
    ensures var next := ClaimAdmitted(db, worker, now, lease, count).0;
            && o in next.orders
            && (next.orders[o] == db.orders[o]
                || (next.orders[o].state.ProcessingClaimed? && next.orders[o].owner == Some(worker) && Eligible(db, o, now)))
  {
    EarliestWithin(db.orders, EligibleOrders(db, now), count);
  }

  lemma CreateMovesOrder(db: Db, worker: Worker, ids: seq<OrderId>, swaps: seq<OrderId>, b: BatchId, now: Time, o: OrderId)
    requires o in db.orders
    ensures var next := CreateBatch(db, worker, ids, swaps, b, now).0;
            && o in next.orders
            && (next.orders[o] == db.orders[o]
                || (next.orders[o].state.Batched? && next.orders[o].batch == Some(b) && b in next.batches
                    && next.batches[b].state.Pending?))
  {
  }

  lemma QueueOpMoves(db: Db, op: Op, limit: nat, o: OrderId)
    requires o in db.orders && db.orders[o].state.ProcessingClaimed? && IsQueueOp(op)
    requires AdmissionOk(db.leases, db.reservations, db.orders)
    ensures ClaimedMoves(db, Apply(db, op, limit), op, o)
  {
    if op.DoClaimOrders? {
      ClaimMovesOrder(db, op.worker, op.now, op.lease, op.count, o);
    } else if op.DoFailClaimed? {
      FailMovesOrder(db, {op.order}, op.reason, o);
    } else if op.DoFailByIds? {
      FailMovesOrder(db, QueuedAmong(db, op.ids), op.cause, o);
    } else {
      OtherOpSkips(db, op, limit, o);
    }
  }

  lemma OtherOpSkips(db: Db, op: Op, limit: nat, o: OrderId)
    requires o in db.orders && AdmissionOk(db.leases, db.reservations, db.orders)
    requires op.DoAllocateLease? || op.DoAdmit? || op.DoMarkDelivered? || op.DoFailSwap?
    ensures var next := Apply(db, op, limit).orders; o in next && next[o] == db.orders[o]
  {
    match op
    case DoAllocateLease(user, random) => AllocateMovesNothing(db, user, random);
    case DoAdmit(client, commitment, id, user, at) => AdmitMovesNothing(db, client, commitment, id, user, at, limit, o);
    case DoMarkDelivered(wakeup) => DeliveryMovesNothing(db, wakeup);
    case DoFailSwap(swap) => FailSwapMovesNothing(db, swap);
  }

  lemma DeliveryMovesNothing(db: Db, wakeup: Wakeup)
    ensures MarkDelivered(db, wakeup).0.orders == db.orders
  {
  }

  lemma FailSwapMovesNothing(db: Db, o: OrderId)
    ensures FailSwap(db, o).orders == db.orders
  {
  }

  lemma AllocateMovesNothing(db: Db, user: User, random: Entropy)
    ensures AllocateLease(db, user, random).0.orders == db.orders
  {
  }

  lemma FailMovesOrder(db: Db, ids: set<OrderId>, reason: Reason, o: OrderId)
    requires o in db.orders
    ensures var next := FailOrders(db, ids, reason).orders;
            o in next && (next[o] == db.orders[o] || next[o].state.Failed?)
  {
  }

  lemma AdmitMovesNothing(db: Db, client: Uuid, commitment: Commitment, id: OrderId, user: User, now: Time, limit: nat, o: OrderId)
    requires o in db.orders && AdmissionOk(db.leases, db.reservations, db.orders)
    ensures var next := Admit(db, client, commitment, id, user, now, limit).0; o in next.orders && next.orders[o] == db.orders[o]
  {
  }

  lemma BatchOpMoves(db: Db, op: Op, limit: nat, o: OrderId)
    requires o in db.orders && db.orders[o].state.ProcessingClaimed? && !IsQueueOp(op)
    ensures ClaimedMoves(db, Apply(db, op, limit), op, o)
  {
    match op
    case DoCreateBatch(worker, batched, swaps, created, now) => CreateMovesOrder(db, worker, batched, swaps, created, now, o);
    case DoClaimBatch(_, _, _) =>
    case DoRecordSubmission(worker, batch, tx, submitted) => RecordSkips(db, batch, worker, tx, submitted, o);
    case DoMarkFailed(_, _, _, _) =>
    case DoFailRemaining(_, _, _) =>
    case DoBeginReconciliation(worker, batch) => BeginSkips(db, batch, worker);
    case DoResolve(resolved, outcome) => ResolveSkips(db, resolved, outcome, o);
  }

  lemma ResolveSkips(db: Db, tx: TxHash, reason: Option<Reason>, o: OrderId)
    requires o in db.orders && !db.orders[o].state.Submitted?
    ensures var next := ResolveSubmission(db, tx, reason).0; o in next.orders && next.orders[o] == db.orders[o]
  {
  }

  // ---- A worker whose order was taken over ----

  /** The worker has no way to the order: another holds it, or it is in a batch the worker does not
      hold, or it is terminal. */
  ghost predicate Shut(db: Db, o: OrderId, worker: Worker) {
    && o in db.orders
    && var row := db.orders[o];
       || (row.state.ProcessingClaimed? && row.owner != Some(worker))
       || IsTerminal(row.state)
       || (row.batch.Some? && row.batch.value in db.batches && !Owns(db, row.batch.value, worker))
  }

  predicate Claims(op: Op, worker: Worker) { (op.DoClaimOrders? || op.DoClaimBatch?) && op.worker == worker }

  lemma ShutStep(db: Db, op: Op, limit: nat, o: OrderId, worker: Worker)
    requires AdmissionOk(db.leases, db.reservations, db.orders) && RowsOk(db.orders)
    requires Shut(db, o, worker) && !Claims(op, worker)
    ensures Shut(Apply(db, op, limit), o, worker)
  {
    var row := db.orders[o];
    if IsTerminal(row.state) {
      StepEvolves(db, op, limit);
    } else if row.state.ProcessingClaimed? {
      if IsQueueOp(op) { QueueOpMoves(db, op, limit, o); } else { BatchOpMoves(db, op, limit, o); }
    } else {
      StepEvolves(db, op, limit);
      OwnershipOnlyByClaim(db, op, limit, worker, row.batch.value);
    }
  }

  lemma {:induction false} ShutForever(db: Db, ops: seq<Op>, limit: nat, o: OrderId, worker: Worker)
    requires Inv(db) && Shut(db, o, worker) && forall op | op in ops :: !Claims(op, worker)
    ensures Shut(RunFrom(db, ops, limit), o, worker)
    decreases |ops|
  {
    if ops != [] {
      ShutStep(db, ops[0], limit, o, worker);
      StepKeeps(db, ops[0], limit);
      ShutForever(Apply(db, ops[0], limit), ops[1..], limit, o, worker);
    }
  }

  lemma ShutUntouched(db: Db, op: Op, limit: nat, o: OrderId, worker: Worker)
    requires AdmissionOk(db.leases, db.reservations, db.orders) && RowsOk(db.orders)
    requires Shut(db, o, worker) && IsBy(op, worker) && !Claims(op, worker)
    ensures var next := Apply(db, op, limit); o in next.orders && next.orders[o] == db.orders[o]
  {
    var row := db.orders[o];
    if IsTerminal(row.state) {
      StepEvolves(db, op, limit);
    } else if row.state.ProcessingClaimed? {
      OrderFenced(db, op, limit, worker, o);
    } else {
      BatchFenced(db, op, limit, worker, row.batch.value);
    }
  }

  /** A worker whose order was taken over, and which claims nothing again, never changes that order in
      any continuation of the run. */
  lemma OrderFencedForever(db: Db, ops: seq<Op>, limit: nat, o: OrderId, worker: Worker, op: Op)
    requires Inv(db) && o in db.orders && db.orders[o].state.ProcessingClaimed? && db.orders[o].owner != Some(worker)
    requires forall x | x in ops :: !Claims(x, worker)
    requires IsBy(op, worker) && !Claims(op, worker)
    ensures var now := RunFrom(db, ops, limit); var next := Apply(now, op, limit);
            o in now.orders && o in next.orders && next.orders[o] == now.orders[o]
  {
    RunFromKeeps(db, ops, limit);
    ShutForever(db, ops, limit, o, worker);
    ShutUntouched(RunFrom(db, ops, limit), op, limit, o, worker);
  }

  // ---- A claimed batch ----

  /** While the batch is claimed, it is this worker's until this time. */
  ghost predicate BatchHeld(db: Db, b: BatchId, worker: Worker, until: Time) {
    && b in db.batches && !db.batches[b].state.Pending?
    && (db.batches[b].state.Claimed? ==> db.batches[b].owner == Some(worker) && db.batches[b].until == Some(until))
  }

  /** No claim succeeds while a claim is live. */
  lemma LiveClaimBlocks(db: Db, b: BatchId, worker: Worker, until: Time, other: Worker, later: Time, lease: Time)
    requires SingleFlight(db.batches) && BatchHeld(db, b, worker, until) && db.batches[b].state.Claimed? && later <= until
    ensures ClaimBatch(db, other, later, lease) == (db, Ok(None))
  {
    assert !ExpiredClaim(db, b, later);
    assert LiveClaim(db, later);
    assert forall c :: !Claimable(db, c, later);
  }

  lemma BatchHeldStep(db: Db, op: Op, limit: nat, b: BatchId, worker: Worker, until: Time)
    requires SingleFlight(db.batches) && BatchHeld(db, b, worker, until) && (op.DoClaimBatch? ==> op.now <= until)
    ensures BatchHeld(Apply(db, op, limit), b, worker, until)
  {
    if op.DoClaimBatch? {
      ClaimHeld(db, op.worker, op.now, op.lease, b, worker, until);
    } else if op.DoBeginReconciliation? {
      BeginHeld(db, op.batch, op.worker, b, worker, until);
    } else if op.DoResolve? {
      ResolveHeld(db, op.resolved, op.outcome, b, worker, until);
    } else if op.DoCreateBatch? {
      CreateHeld(db, op.worker, op.batched, op.swaps, op.created, op.now, b, worker, until);
    } else {
      BatchesStay(db, op, limit);
    }
  }

  lemma BatchesStay(db: Db, op: Op, limit: nat)
    requires !op.DoClaimBatch? && !op.DoBeginReconciliation? && !op.DoResolve? && !op.DoCreateBatch?
    ensures Apply(db, op, limit).batches == db.batches
  {
    if IsQueueOp(op) {
      QueueBatchesStay(db, op, limit);
    } else if op.DoRecordSubmission? {
      RecordBatchesStay(db, op.batch, op.worker, op.tx, op.submitted);
    }
  }

  lemma QueueBatchesStay(db: Db, op: Op, limit: nat)
    requires IsQueueOp(op)
    ensures Apply(db, op, limit).batches == db.batches
  {
    match op
    case DoAllocateLease(user, random) => AllocateBatchesStay(db, user, random);
    case DoAdmit(client, commitment, id, user, at) => AdmitBatchesStay(db, client, commitment, id, user, at, limit);
    case DoClaimOrders(_, _, _, _) =>
    case DoFailClaimed(_, _, _) =>
    case DoFailByIds(_, _) =>
    case DoMarkDelivered(_) =>
    case DoFailSwap(_) =>
  }

  lemma AllocateBatchesStay(db: Db, user: User, random: Entropy)
    ensures AllocateLease(db, user, random).0.batches == db.batches
  {
  }

  lemma AdmitBatchesStay(db: Db, client: Uuid, commitment: Commitment, id: OrderId, user: User, now: Time, limit: nat)
    ensures Admit(db, client, commitment, id, user, now, limit).0.batches == db.batches
  {
  }

  lemma RecordBatchesStay(db: Db, b: BatchId, worker: Worker, tx: TxHash, ids: seq<OrderId>)
    ensures RecordSubmission(db, b, worker, tx, ids).0.batches == db.batches
  {
  }

  lemma ClaimHeld(db: Db, actor: Worker, now: Time, lease: Time, b: BatchId, worker: Worker, until: Time)
    requires SingleFlight(db.batches) && BatchHeld(db, b, worker, until) && now <= until
    ensures BatchHeld(ClaimBatch(db, actor, now, lease).0, b, worker, until)
  {
    if db.batches[b].state.Claimed? { LiveClaimBlocks(db, b, worker, until, actor, now, lease); }
  }

  lemma CreateHeld(db: Db, actor: Worker, ids: seq<OrderId>, swaps: seq<OrderId>, a: BatchId, now: Time, b: BatchId, worker: Worker, until: Time)
    requires BatchHeld(db, b, worker, until)
    ensures BatchHeld(CreateBatch(db, actor, ids, swaps, a, now).0, b, worker, until)
  {
  }

  lemma FinalizeHeld(db: Db, a: BatchId, b: BatchId, worker: Worker, until: Time)
    requires BatchHeld(db, b, worker, until)
    ensures BatchHeld(FinalizeIfReady(db, a), b, worker, until)
  {
  }

  lemma BeginHeld(db: Db, a: BatchId, actor: Worker, b: BatchId, worker: Worker, until: Time)
    requires BatchHeld(db, b, worker, until)
    ensures BatchHeld(BeginReconciliation(db, a, actor).0, b, worker, until)
  {
    if Owns(db, a, actor) { FinalizeHeld(db.(batches := Reconcile(db.batches, a)), a, b, worker, until); }
  }

  lemma ResolveHeld(db: Db, tx: TxHash, reason: Option<Reason>, b: BatchId, worker: Worker, until: Time)
    requires BatchHeld(db, b, worker, until)
    ensures BatchHeld(ResolveSubmission(db, tx, reason).0, b, worker, until)
  {
    if tx in db.submissions { FinalizeHeld(Settled(db, tx, reason), db.submissions[tx].batch, b, worker, until); }
  }

  lemma {:induction false} BatchHeldForever(db: Db, ops: seq<Op>, limit: nat, b: BatchId, worker: Worker, until: Time)
    requires Inv(db) && BatchHeld(db, b, worker, until) && forall op | op in ops && op.DoClaimBatch? :: op.now <= until
    ensures BatchHeld(RunFrom(db, ops, limit), b, worker, until)
    decreases |ops|
  {
    if ops != [] {
      BatchHeldStep(db, ops[0], limit, b, worker, until);
      StepKeeps(db, ops[0], limit);
      BatchHeldForever(Apply(db, ops[0], limit), ops[1..], limit, b, worker, until);
    }
  }

  /** The batch exists; while it is claimed it is the worker's, and no claim succeeds. */
  ghost predicate LeaseStands(end: Db, b: BatchId, worker: Worker, other: Worker, later: Time, lease: Time) {
    && b in end.batches
    && (end.batches[b].state.Claimed? ==> Owns(end, b, worker) && ClaimBatch(end, other, later, lease) == (end, Ok(None)))
  }

  /** A batch that a worker claimed stays that worker's while it stays claimed and until the lease has
      run out, however the run goes on, and no claim by anyone succeeds meanwhile. */
  lemma BatchLeaseHeld(db: Db, worker: Worker, now: Time, lease: Time, b: BatchId, ops: seq<Op>, limit: nat,
                       other: Worker, later: Time, lease': Time)
    requires Inv(db) && ClaimBatch(db, worker, now, lease).1 == Ok(Some(b)) && later <= now + lease
    requires forall op | op in ops && op.DoClaimBatch? :: op.now <= now + lease
    ensures LeaseStands(RunFrom(ClaimBatch(db, worker, now, lease).0, ops, limit), b, worker, other, later, lease')
  {
    var claimed := ClaimBatch(db, worker, now, lease).0;
    assert Inv(claimed) by { ClaimBatchKeeps(db, worker, now, lease); }
    assert BatchHeld(claimed, b, worker, now + lease) by { JustPromoted(db, worker, now, lease, b); }
    LeaseRun(claimed, ops, limit, b, worker, now + lease, other, later, lease');
  }

  lemma LeaseRun(db: Db, ops: seq<Op>, limit: nat, b: BatchId, worker: Worker, until: Time, other: Worker, later: Time, lease: Time)
    requires Inv(db) && BatchHeld(db, b, worker, until) && later <= until
    requires forall op | op in ops && op.DoClaimBatch? :: op.now <= until
    ensures LeaseStands(RunFrom(db, ops, limit), b, worker, other, later, lease)
  {
    BatchHeldForever(db, ops, limit, b, worker, until);
    RunFromKeeps(db, ops, limit);
    HeldAtEnd(RunFrom(db, ops, limit), b, worker, until, other, later, lease);
  }

  lemma HeldAtEnd(end: Db, b: BatchId, worker: Worker, until: Time, other: Worker, later: Time, lease: Time)
    requires SingleFlight(end.batches) && BatchHeld(end, b, worker, until) && later <= until
    ensures LeaseStands(end, b, worker, other, later, lease)
  {
    if end.batches[b].state.Claimed? { LiveClaimBlocks(end, b, worker, until, other, later, lease); }
  }

  lemma JustPromoted(db: Db, worker: Worker, now: Time, lease: Time, b: BatchId)
    requires ClaimBatch(db, worker, now, lease).1 == Ok(Some(b))
    ensures BatchHeld(ClaimBatch(db, worker, now, lease).0, b, worker, now + lease)
  {
  }

  // ---- A claimed order ----

  /** While the order is claimed, it is this worker's until this time. */
  ghost predicate OrderHeld(db: Db, o: OrderId, worker: Worker, until: Time) {
    && o in db.orders && !db.orders[o].state.Admitted?
    && (db.orders[o].state.ProcessingClaimed? ==> db.orders[o].owner == Some(worker) && db.orders[o].until == Some(until))
  }

  lemma OrderHeldStep(db: Db, op: Op, limit: nat, o: OrderId, worker: Worker, until: Time)
    requires AdmissionOk(db.leases, db.reservations, db.orders) && RowsOk(db.orders)
    requires OrderHeld(db, o, worker, until) && (op.DoClaimOrders? ==> op.now <= until)
    ensures OrderHeld(Apply(db, op, limit), o, worker, until)
  {
    if db.orders[o].state.ProcessingClaimed? {
      if IsQueueOp(op) { QueueOpMoves(db, op, limit, o); } else { BatchOpMoves(db, op, limit, o); }
      StepKeepsRows(db, op, limit, o);
    } else {
      StepEvolves(db, op, limit);
    }
  }

  /** Orders never go back to being merely admitted. */
  lemma StepKeepsRows(db: Db, op: Op, limit: nat, o: OrderId)
    requires AdmissionOk(db.leases, db.reservations, db.orders) && RowsOk(db.orders)
    requires o in db.orders && !db.orders[o].state.Admitted?
    ensures o in Apply(db, op, limit).orders && !Apply(db, op, limit).orders[o].state.Admitted?
  {
    StepEvolves(db, op, limit);
    NotReadmitted(db, Apply(db, op, limit), o);
  }

  lemma NotReadmitted(db: Db, next: Db, o: OrderId)
    requires Evolves(db, next) && o in db.orders && !db.orders[o].state.Admitted?
    ensures o in next.orders && !next.orders[o].state.Admitted?
  {
  }

  lemma {:induction false} OrderHeldForever(db: Db, ops: seq<Op>, limit: nat, o: OrderId, worker: Worker, until: Time)
    requires Inv(db) && OrderHeld(db, o, worker, until) && forall op | op in ops && op.DoClaimOrders? :: op.now <= until
    ensures OrderHeld(RunFrom(db, ops, limit), o, worker, until)
    decreases |ops|
  {
    if ops != [] {
      OrderHeldStep(db, ops[0], limit, o, worker, until);
      StepKeeps(db, ops[0], limit);
      OrderHeldForever(Apply(db, ops[0], limit), ops[1..], limit, o, worker, until);
    }
  }

  lemma HeldNotPicked(db: Db, o: OrderId, worker: Worker, until: Time, other: Worker, later: Time, lease: Time, count: nat)
    requires OrderHeld(db, o, worker, until) && later <= until
    ensures o !in ClaimAdmitted(db, other, later, lease, count).1
  {
    EarliestWithin(db.orders, EligibleOrders(db, later), count);
    var picked := Earliest(db.orders, EligibleOrders(db, later), count);
    assert o in picked ==> o in Ids(picked);
  }

  /** An order that a worker claimed stays that worker's while it stays claimed and until the lease
      has run out, however the run goes on, and no claim by anyone gets it meanwhile. */
  lemma OrderLeaseHeld(db: Db, worker: Worker, now: Time, lease: Time, count: nat, o: OrderId, ops: seq<Op>, limit: nat,
                       other: Worker, later: Time, lease': Time, count': nat)
    requires Inv(db) && o in ClaimAdmitted(db, worker, now, lease, count).1 && later <= now + lease
    requires forall op | op in ops && op.DoClaimOrders? :: op.now <= now + lease
    ensures var end := RunFrom(ClaimAdmitted(db, worker, now, lease, count).0, ops, limit);
            && o in end.orders && (end.orders[o].state.ProcessingClaimed? ==> ClaimedBy(end, o, worker))
            && o !in ClaimAdmitted(end, other, later, lease', count').1
  {
    var (next, picked) := ClaimAdmitted(db, worker, now, lease, count);
    JustClaimed(db, worker, now, lease, count, o);
    ClaimAdmittedKeeps(db, worker, now, lease, count);
    OrderHeldForever(next, ops, limit, o, worker, now + lease);
    HeldNotPicked(RunFrom(next, ops, limit), o, worker, now + lease, other, later, lease', count');
  }

  lemma JustClaimed(db: Db, worker: Worker, now: Time, lease: Time, count: nat, o: OrderId)
    requires o in ClaimAdmitted(db, worker, now, lease, count).1
    ensures OrderHeld(ClaimAdmitted(db, worker, now, lease, count).0, o, worker, now + lease)
  {
    EarliestWithin(db.orders, EligibleOrders(db, now), count);
    assert o in Ids(ClaimAdmitted(db, worker, now, lease, count).1);
  }
}
