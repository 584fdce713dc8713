/**
 Whole runs of the durable execution protocol. Any sequence of transactions, by any number of
 workers and at any times, starts from empty tables; the main results hold in every state such a
 run reaches, or between any two states of it.
 */
module ExecutionRuns {
  import opened Basics
  import opened ClientOrderId
  import opened ExecutionTables
  import opened ExecutionInvariant

  type Entropy = s: seq<Byte> | |s| == 12 witness [0, 0, 0, 0, 0, 0, 0, 0, 0, 0, 0, 0]

  datatype Op =
    | DoAllocateLease(user: User, random: Entropy)
    | DoAdmit(client: Uuid, commitment: Commitment, id: OrderId, admittedUser: User, at: Time)
    | DoClaimOrders(worker: Worker, now: Time, lease: Time, count: nat)
    | DoFailClaimed(worker: Worker, order: OrderId, reason: Reason)
    | DoFailByIds(ids: seq<OrderId>, cause: Reason)
    | DoCreateBatch(worker: Worker, batched: seq<OrderId>, swaps: seq<OrderId>, created: BatchId, now: Time)
    | DoClaimBatch(worker: Worker, now: Time, lease: Time)
    | DoRecordSubmission(worker: Worker, batch: BatchId, tx: TxHash, submitted: seq<OrderId>)
    | DoMarkFailed(worker: Worker, batch: BatchId, failed: seq<OrderId>, reason: Reason)
    | DoFailRemaining(worker: Worker, batch: BatchId, reason: Reason)
    | DoBeginReconciliation(worker: Worker, batch: BatchId)
    | DoResolve(resolved: TxHash, outcome: Option<Reason>)
    | DoMarkDelivered(wakeup: Wakeup)
    | DoFailSwap(swap: OrderId)

  ghost function Apply(db: Db, op: Op, limit: nat): Db
  {
    match op
    case DoAllocateLease(user, random) => AllocateLease(db, user, random).0
    case DoAdmit(client, commitment, id, user, at) => Admit(db, client, commitment, id, user, at, limit).0
    case DoClaimOrders(worker, now, lease, count) => ClaimAdmitted(db, worker, now, lease, count).0
    case DoFailClaimed(worker, order, reason) => FailClaimed(db, order, worker, reason).0
    case DoFailByIds(ids, cause) => FailByIds(db, ids, cause).0
    case DoCreateBatch(worker, batched, swaps, created, now) => CreateBatch(db, worker, batched, swaps, created, now).0
    case DoClaimBatch(worker, now, lease) => ClaimBatch(db, worker, now, lease).0
    case DoRecordSubmission(worker, batch, tx, submitted) => RecordSubmission(db, batch, worker, tx, submitted).0
    case DoMarkFailed(worker, batch, failed, reason) => MarkPreSubmissionFailed(db, batch, worker, failed, reason)
    case DoFailRemaining(worker, batch, reason) => FailRemaining(db, batch, worker, reason).0
    case DoBeginReconciliation(worker, batch) => BeginReconciliation(db, batch, worker).0
    case DoResolve(resolved, outcome) => ResolveSubmission(db, resolved, outcome).0
    case DoMarkDelivered(wakeup) => MarkDelivered(db, wakeup).0
    case DoFailSwap(swap) => FailSwap(db, swap)
  }

  predicate IsQueueOp(op: Op) {
    op.DoAllocateLease? || op.DoAdmit? || op.DoClaimOrders? || op.DoFailClaimed? || op.DoFailByIds? || op.DoMarkDelivered?
    || op.DoFailSwap?
  }

  predicate IsAdmissionOp(op: Op) { op.DoAllocateLease? || op.DoAdmit? || op.DoClaimOrders? }

  lemma AdmissionOpKeeps(db: Db, op: Op, limit: nat)
    requires Inv(db) && IsAdmissionOp(op)
    ensures Inv(Apply(db, op, limit))
  {
    match op
    case DoAllocateLease(user, random) => AllocateKeeps(db, user, random);
    case DoAdmit(client, commitment, id, user, at) => AdmitKeeps(db, client, commitment, id, user, at, limit);
    case DoClaimOrders(worker, now, lease, count) => ClaimAdmittedKeeps(db, worker, now, lease, count);
  }

  lemma QueueOpKeeps(db: Db, op: Op, limit: nat)
    requires Inv(db) && IsQueueOp(op) && !IsAdmissionOp(op)
    ensures Inv(Apply(db, op, limit))
  {
    match op
    case DoFailClaimed(worker, order, reason) =>
      FailClaimedKeeps(db, order, worker, reason);
      assert Apply(db, op, limit) == FailClaimed(db, order, worker, reason).0;
    case DoFailByIds(ids, cause) =>
      FailByIdsKeeps(db, ids, cause);
      assert Apply(db, op, limit) == FailByIds(db, ids, cause).0;
    case DoMarkDelivered(wakeup) =>
      MarkDeliveredKeeps(db, wakeup);
      assert Apply(db, op, limit) == MarkDelivered(db, wakeup).0;
    case DoFailSwap(swap) =>
      FailSwapKeeps(db, swap);
      assert Apply(db, op, limit) == FailSwap(db, swap);
  }

  predicate IsSubmissionOp(op: Op) { op.DoCreateBatch? || op.DoClaimBatch? || op.DoRecordSubmission? }

  lemma SubmissionOpKeeps(db: Db, op: Op, limit: nat)
    requires Inv(db) && IsSubmissionOp(op)
    ensures Inv(Apply(db, op, limit))
  {
    match op
    case DoCreateBatch(worker, batched, swaps, created, now) => CreateBatchKeeps(db, worker, batched, swaps, created, now);
    case DoClaimBatch(worker, now, lease) => ClaimBatchKeeps(db, worker, now, lease);
    case DoRecordSubmission(worker, batch, tx, submitted) => RecordSubmissionKeeps(db, batch, worker, tx, submitted);
  }

  lemma BatchOpKeeps(db: Db, op: Op, limit: nat)
    requires Inv(db) && !IsQueueOp(op) && !IsSubmissionOp(op)
    ensures Inv(Apply(db, op, limit))
  {
    match op
    case DoMarkFailed(worker, batch, failed, reason) => MarkFailedKeeps(db, batch, worker, failed, reason);
    case DoFailRemaining(worker, batch, reason) => FailRemainingKeeps(db, batch, worker, reason);
    case DoBeginReconciliation(worker, batch) => BeginReconciliationKeeps(db, batch, worker);
    case DoResolve(resolved, outcome) => ResolveKeeps(db, resolved, outcome);
  }

  /** Every transaction keeps the invariant. */
  lemma StepKeeps(db: Db, op: Op, limit: nat)
    requires Inv(db)
    ensures Inv(Apply(db, op, limit))
  {
    if IsAdmissionOp(op) {
      AdmissionOpKeeps(db, op, limit);
    } else if IsQueueOp(op) {
      QueueOpKeeps(db, op, limit);
    } else if IsSubmissionOp(op) {
      SubmissionOpKeeps(db, op, limit);
    } else {
      BatchOpKeeps(db, op, limit);
    }
  }

  /** The tables after `ops`. */
  ghost function RunFrom(db: Db, ops: seq<Op>, limit: nat): Db
    decreases |ops|
  {
    if ops == [] then db else RunFrom(Apply(db, ops[0], limit), ops[1..], limit)
  }

  /** The tables after `ops`, from the empty database. */
  ghost function Run(ops: seq<Op>, limit: nat): Db { RunFrom(EMPTY, ops, limit) }

  lemma {:induction false} RunFromAppend(db: Db, first: seq<Op>, second: seq<Op>, limit: nat)
    ensures RunFrom(db, first + second, limit) == RunFrom(RunFrom(db, first, limit), second, limit)
    decreases |first|
  {
    if first == [] {
      assert first + second == second;
    } else {
      var next := Apply(db, first[0], limit);
      RunFromAppend(next, first[1..], second, limit);
      assert (first + second)[1..] == first[1..] + second && (first + second)[0] == first[0];
      assert RunFrom(db, first + second, limit) == RunFrom(next, first[1..] + second, limit);
    }
  }

  lemma {:induction false} RunFromKeeps(db: Db, ops: seq<Op>, limit: nat)
    requires Inv(db)
    ensures Inv(RunFrom(db, ops, limit))
    decreases |ops|
  {
    if ops != [] {
      StepKeeps(db, ops[0], limit);
      RunFromKeeps(Apply(db, ops[0], limit), ops[1..], limit);
    }
  }

  /** Every reachable state satisfies the invariant. */
  lemma ReachableInv(ops: seq<Op>, limit: nat)
    ensures Inv(Run(ops, limit))
  {
    EmptyInv();
    RunFromKeeps(EMPTY, ops, limit);
  }

  // ---- What links orders, batches and submissions in every reachable state ----

  ghost predicate BatchedPlaced(db: Db) {
    forall o | o in db.orders && db.orders[o].state.Batched? ::
      && db.orders[o].batch.Some? && db.orders[o].batch.value in db.batches
      && (db.batches[db.orders[o].batch.value].state.Pending? || db.batches[db.orders[o].batch.value].state.Claimed?)
  }

  ghost predicate SubmittedExactly(db: Db) {
    forall o | o in db.orders :: db.orders[o].state.Submitted? <==> ListedSomewhere(db, o)
  }

  /** Some open submission with the order's transaction and batch lists it. */
  ghost predicate ListedSomewhere(db: Db, o: OrderId)
    requires o in db.orders
  {
    exists t :: t in db.submissions && db.orders[o].tx == Some(t) && db.orders[o].batch == Some(db.submissions[t].batch)
                && db.submissions[t].state.Open? && o in db.submissions[t].orders
  }

  ghost predicate ReconcilingWaits(db: Db) {
    forall b | b in db.batches && db.batches[b].state.Reconciling? ::
      && (forall o | o in db.orders && db.orders[o].batch == Some(b) :: !db.orders[o].state.Batched?)
      && (exists o :: o in db.orders && db.orders[o].batch == Some(b) && db.orders[o].state.Submitted?)
  }

  ghost predicate TerminalDone(db: Db) {
    forall b | b in db.batches && db.batches[b].state.Terminal? ::
      && BatchTerminal(b) in db.outbox
      && forall o | o in db.orders && db.orders[o].batch == Some(b) :: IsTerminal(db.orders[o].state)
  }

  lemma LinkBatched(db: Db)
    requires RowsOk(db.orders) && PlacedOk(db.orders, db.batches)
    ensures BatchedPlaced(db)
  {
    forall o | o in db.orders && db.orders[o].state.Batched? ensures db.orders[o].batch.Some? { assert RowOk(db.orders[o]); }
  }

  lemma LinkSubmitted(db: Db)
    requires SubmittedOk(db.orders, db.submissions) && SubmissionsOk(db.submissions, db.orders)
    ensures SubmittedExactly(db)
  {
    forall o | o in db.orders ensures db.orders[o].state.Submitted? <==> ListedSomewhere(db, o) {
      if db.orders[o].state.Submitted? {
        assert Lists(db.submissions, db.orders[o].tx.value, db.orders[o].batch.value, o);
      }
    }
  }

  lemma LinkReconciling(db: Db)
    requires ReconcilingOk(db.batches, db.orders) && MembersOk(db.batches, db.orders) && PlacedOk(db.orders, db.batches)
    ensures ReconcilingWaits(db)
  {
    forall b | b in db.batches && db.batches[b].state.Reconciling?
      ensures exists o :: o in db.orders && db.orders[o].batch == Some(b) && db.orders[o].state.Submitted?
    {
      assert HasSubmitted(db.batches[b], db.orders);
    }
  }

  lemma LinkTerminal(db: Db)
    requires PlacedOk(db.orders, db.batches) && TerminalBatchesOk(db.batches, db.outbox)
    ensures TerminalDone(db)
  {
  }

  /** Every reachable state links orders, batches and submissions. */
  lemma ReachableLinked(ops: seq<Op>, limit: nat)
    ensures var db := Run(ops, limit);
            BatchedPlaced(db) && SubmittedExactly(db) && ReconcilingWaits(db) && TerminalDone(db)
  {
    var db := Run(ops, limit);
    ReachableInv(ops, limit);
    LinkBatched(db);
    LinkSubmitted(db);
    LinkReconciling(db);
    LinkTerminal(db);
  }

  // ---- Recovery of terminal batches ----

  lemma {:induction false} OutcomesTotal(db: Db, b: BatchId, payload: seq<OrderId>)
    requires forall o | o in payload :: o in db.orders && db.orders[o].batch == Some(b) && IsTerminal(db.orders[o].state)
    ensures Outcomes(db, b, payload).Ok?
    ensures var outcomes := Outcomes(db, b, payload).value;
            && |outcomes| == |payload|
            && forall i | 0 <= i < |payload| ::
                 outcomes[i] == Outcome(payload[i], db.orders[payload[i]].tx, db.orders[payload[i]].error)
  {
    if payload != [] { OutcomesTotal(db, b, payload[1..]); }
  }

  /** Recovery of any tables reports only if every order of the payload is there, in the batch, and
      terminal. */
  lemma {:induction false} OutcomesExactly(db: Db, b: BatchId, payload: seq<OrderId>)
    ensures Outcomes(db, b, payload).Ok?
            <==> forall o | o in payload :: o in db.orders && db.orders[o].batch == Some(b) && IsTerminal(db.orders[o].state)
  {
    if payload != [] {
      OutcomesExactly(db, b, payload[1..]);
      assert payload == [payload[0]] + payload[1..];
    }
  }

  /** The recorded outcome of every order of the batch, in batch order: an error exactly for the
      orders that failed. */
  ghost predicate ReportsBatch(db: Db, b: BatchId, outcomes: seq<Outcome>) {
    && b in db.batches && |outcomes| == |db.batches[b].payload|
    && forall i | 0 <= i < |outcomes| ::
         var o := db.batches[b].payload[i];
         && o in db.orders && IsTerminal(db.orders[o].state) && outcomes[i] == Outcome(o, db.orders[o].tx, db.orders[o].error)
         && (outcomes[i].error.None? <==> db.orders[o].state.Confirmed?)
  }

  /** Recovery, in any run, never meets a missing row or a non-terminal order: it reports every
      order of a terminal batch and nothing for any other batch. */
  lemma RecoveryNeverFails(ops: seq<Op>, limit: nat, b: BatchId)
    ensures var db := Run(ops, limit);
            if b in db.batches && db.batches[b].state.Terminal?
            then exists outcomes :: RecoverTerminalBatch(db, b) == Ok(Some(outcomes)) && ReportsBatch(db, b, outcomes)
            else RecoverTerminalBatch(db, b) == Ok(None)
  {
    var db := Run(ops, limit);
    if b in db.batches && db.batches[b].state.Terminal? {
      ReachableInv(ops, limit);
      TerminalRecovers(db, b);
    }
  }

  lemma TerminalRecovers(db: Db, b: BatchId)
    requires RowsOk(db.orders)
    requires PlacedOk(db.orders, db.batches) && MembersOk(db.batches, db.orders)
    requires b in db.batches && db.batches[b].state.Terminal?
    ensures exists outcomes :: RecoverTerminalBatch(db, b) == Ok(Some(outcomes)) && ReportsBatch(db, b, outcomes)
  {
    TerminalMembers(db, b);
    OutcomesTotal(db, b, db.batches[b].payload);
    assert forall o | o in db.batches[b].payload :: RowOk(db.orders[o]);
    assert ReportsBatch(db, b, Outcomes(db, b, db.batches[b].payload).value);
  }

  lemma TerminalMembers(db: Db, b: BatchId)
    requires PlacedOk(db.orders, db.batches) && MembersOk(db.batches, db.orders)
    requires b in db.batches && db.batches[b].state.Terminal?
    ensures forall o | o in db.batches[b].payload ::
              o in db.orders && db.orders[o].batch == Some(b) && IsTerminal(db.orders[o].state)
  {
    forall o | o in db.batches[b].payload ensures IsTerminal(db.orders[o].state) {
      assert Compatible(db.orders[o].state, db.batches[b].state);
    }
  }
}
