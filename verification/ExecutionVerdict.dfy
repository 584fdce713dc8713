/**
 The verdict of a terminal batch: in every run its error mark says whether any of its orders failed,
 and stands for good.
 */
module ExecutionVerdict {
  import opened Basics
  import opened ClientOrderId
  import opened ExecutionTables
  import opened ExecutionInvariant
  import opened ExecutionRuns
  import opened ExecutionHistory

  ghost predicate SomeFailed(orders: Orders, payload: seq<OrderId>) {
    exists o :: o in payload && o in orders && orders[o].state.Failed?
  }

  ghost predicate Truthful(orders: Orders, row: Batch) {
    row.state.Terminal? ==> (row.hasError <==> SomeFailed(orders, row.payload))
  }

  ghost predicate AllTruthful(db: Db) { forall b | b in db.batches :: Truthful(db.orders, db.batches[b]) }

  /** A batch looked at is left alone, or becomes terminal with a true mark. */
  lemma FinalizedTruthful(db: Db, b: BatchId)
    requires RowsOk(db.orders) && MembersOk(db.batches, db.orders) && FinalizeIfReady(db, b) != db
    requires PlacedOk(db.orders, FinalizeIfReady(db, b).batches)
    ensures b in FinalizeIfReady(db, b).batches && Truthful(db.orders, FinalizeIfReady(db, b).batches[b])
  {
    var row := FinalizeIfReady(db, b).batches[b];
    if o :| o in db.orders && db.orders[o].batch == Some(b) && db.orders[o].error.Some? {
      assert RowOk(db.orders[o]) && o in row.payload;
    }
    if o :| o in row.payload && o in db.orders && db.orders[o].state.Failed? {
      assert RowOk(db.orders[o]) && db.orders[o].batch == Some(b);
    }
  }

  /** The rows of a terminal batch's orders are frozen, so its mark stays true. */
  lemma FrozenTruthful(orders: Orders, next: Orders, row: Batch)
    requires OrdersEvolve(orders, next) && Truthful(orders, row)
    requires forall o | o in row.payload :: o in orders && (row.state.Terminal? ==> IsTerminal(orders[o].state))
    ensures Truthful(next, row)
  {
    if o :| row.state.Terminal? && o in row.payload && o in next && next[o].state.Failed? {
      assert next[o] == orders[o];
    }
  }

  /** A batch is as it was, is not terminal, or was just found to be. */
  ghost predicate RowsTruthful(db: Db, next: Db) {
    forall b | b in next.batches ::
      || !next.batches[b].state.Terminal?
      || (b in db.batches && next.batches[b] == db.batches[b])
      || Truthful(next.orders, next.batches[b])
  }

  lemma CreateRows(db: Db, worker: Worker, ids: seq<OrderId>, swaps: seq<OrderId>, b: BatchId, now: Time)
    ensures RowsTruthful(db, CreateBatch(db, worker, ids, swaps, b, now).0)
  {
  }

  lemma ClaimRowsOnly(db: Db, worker: Worker, now: Time, lease: Time)
    ensures RowsTruthful(db, ClaimBatch(db, worker, now, lease).0)
  {
  }

  lemma ReconcileMembers(db: Db, b: BatchId)
    requires MembersOk(db.batches, db.orders) && b in db.batches
    ensures MembersOk(Reconcile(db.batches, b), db.orders)
  {
  }

  lemma FinalizeRows(db: Db, begun: Db, b: BatchId)
    requires RowsOk(begun.orders) && MembersOk(begun.batches, begun.orders) && PlacedOk(begun.orders, FinalizeIfReady(begun, b).batches)
    requires RowsTruthful(db, begun)
    ensures RowsTruthful(db, FinalizeIfReady(begun, b))
  {
    if FinalizeIfReady(begun, b) != begun { FinalizedTruthful(begun, b); }
  }

  lemma BeginRows(db: Db, b: BatchId, worker: Worker)
    requires RowsOk(db.orders) && MembersOk(db.batches, db.orders)
    requires var next := BeginReconciliation(db, b, worker).0; PlacedOk(next.orders, next.batches)
    ensures RowsTruthful(db, BeginReconciliation(db, b, worker).0)
  {
    if BeginReconciliation(db, b, worker).1 == Ok(true) {
      var begun := db.(batches := Reconcile(db.batches, b));
      ReconcileMembers(db, b);
      FinalizeRows(db, begun, b);
    }
  }

  lemma SettledMembers(db: Db, tx: TxHash, reason: Option<Reason>)
    requires MembersOk(db.batches, db.orders) && tx in db.submissions
    ensures MembersOk(Settled(db, tx, reason).batches, Settled(db, tx, reason).orders)
  {
  }

  lemma ResolveRowsOnly(db: Db, tx: TxHash, reason: Option<Reason>)
    requires MembersOk(db.batches, db.orders)
    requires tx in db.submissions ==> RowsOk(Settled(db, tx, reason).orders)
    requires var next := ResolveSubmission(db, tx, reason).0; PlacedOk(next.orders, next.batches)
    ensures RowsTruthful(db, ResolveSubmission(db, tx, reason).0)
  {
    if tx in db.submissions && db.submissions[tx].state.Open? {
      var settled := Settled(db, tx, reason);
      SettledMembers(db, tx, reason);
      FinalizeRows(db, settled, db.submissions[tx].batch);
    }
  }

  lemma SettledRows(db: Db, tx: TxHash, reason: Option<Reason>)
    requires RowsOk(db.orders) && tx in db.submissions
    ensures RowsOk(Settled(db, tx, reason).orders)
  {
    forall o | o in Settled(db, tx, reason).orders ensures RowOk(Settled(db, tx, reason).orders[o]) { assert RowOk(db.orders[o]); }
  }

  lemma SameQueueBatches(db: Db, op: Op, limit: nat)
    requires IsQueueOp(op)
    ensures Apply(db, op, limit).batches == db.batches
  {
  }

  lemma StepRows(db: Db, op: Op, limit: nat)
    requires RowsOk(db.orders) && MembersOk(db.batches, db.orders)
    requires PlacedOk(Apply(db, op, limit).orders, Apply(db, op, limit).batches)
    ensures RowsTruthful(db, Apply(db, op, limit))
  {
    if IsQueueOp(op) { SameQueueBatches(db, op, limit); } else { BatchOpRows(db, op, limit); }
  }

  lemma BatchOpRows(db: Db, op: Op, limit: nat)
    requires RowsOk(db.orders) && MembersOk(db.batches, db.orders) && !IsQueueOp(op)
    requires PlacedOk(Apply(db, op, limit).orders, Apply(db, op, limit).batches)
    ensures RowsTruthful(db, Apply(db, op, limit))
  {
    match op
    case DoCreateBatch(worker, batched, swaps, created, now) => CreateRows(db, worker, batched, swaps, created, now);
    case DoClaimBatch(worker, now, lease) => ClaimRowsOnly(db, worker, now, lease);
    case DoBeginReconciliation(worker, batch) => BeginRows(db, batch, worker);
    case DoResolve(resolved, outcome) =>
      if resolved in db.submissions { SettledRows(db, resolved, outcome); }
      ResolveRowsOnly(db, resolved, outcome);
    case _ =>
  }

  lemma TruthfulOn(db: Db, next: Db)
    requires AllTruthful(db) && RowsTruthful(db, next) && OrdersEvolve(db.orders, next.orders)
    requires MembersOk(db.batches, db.orders) && PlacedOk(db.orders, db.batches)
    ensures AllTruthful(next)
  {
    forall b | b in next.batches ensures Truthful(next.orders, next.batches[b]) {
      if b in db.batches && next.batches[b] == db.batches[b] {
        forall o | o in db.batches[b].payload && db.batches[b].state.Terminal? ensures IsTerminal(db.orders[o].state) {
          assert Compatible(db.orders[o].state, db.batches[b].state);
        }
        FrozenTruthful(db.orders, next.orders, db.batches[b]);
      }
    }
  }

  lemma {:induction false} RunTruthful(db: Db, ops: seq<Op>, limit: nat)
    requires Inv(db) && AllTruthful(db)
    ensures AllTruthful(RunFrom(db, ops, limit))
    decreases |ops|
  {
    if ops != [] {
      StepKeeps(db, ops[0], limit);
      StepEvolves(db, ops[0], limit);
      StepRows(db, ops[0], limit);
      TruthfulOn(db, Apply(db, ops[0], limit));
      RunTruthful(Apply(db, ops[0], limit), ops[1..], limit);
    }
  }

  /** In every reachable state a terminal batch carries the error mark exactly when one of its orders
      failed. */
  lemma TerminalMarkIsTrue(ops: seq<Op>, limit: nat, b: BatchId)
    ensures var db := Run(ops, limit);
            b in db.batches && db.batches[b].state.Terminal? ==>
              (db.batches[b].hasError <==> exists o :: o in db.batches[b].payload && o in db.orders && db.orders[o].state.Failed?)
  {
    EmptyInv();
    RunTruthful(EMPTY, ops, limit);
    var db := Run(ops, limit);
    if b in db.batches { assert Truthful(db.orders, db.batches[b]); }
  }
}
