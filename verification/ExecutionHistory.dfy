/**
 What holds between any two states of a run: orders and batches only move forward, terminal orders
 are frozen, admission is idempotent and bounded, and a worker that lost a lease is fenced off.
 */
module ExecutionHistory {
  import opened Basics
  import opened ClientOrderId
  import opened ExecutionTables
  import opened ExecutionInvariant
  import opened ExecutionRuns

  // ---- Forward motion ----

  function Rank(s: OrderState): nat {
    match s
    case Admitted => 0
    case ProcessingClaimed => 1
    case Batched => 2
    case Submitted => 3
    case _ => 4
  }

  function BatchRank(s: BatchState): nat {
    match s
    case Pending => 0
    case Claimed => 1
    case Reconciling => 2
    case Terminal => 3
  }

  /** An order keeps its identity, its batch and its transaction, never moves back, and is frozen
      once terminal. */
  ghost predicate RowEvolves(row: Order, next: Order) {
    && next.client == row.client && next.user == row.user && next.nonce == row.nonce && next.createdAt == row.createdAt
    && Rank(row.state) <= Rank(next.state)
    && (IsTerminal(row.state) ==> next == row)
    && (row.batch.Some? ==> next.batch == row.batch)
    && (row.tx.Some? ==> next.tx == row.tx)
  }

  ghost predicate OrdersEvolve(orders: Orders, next: Orders) {
    forall o | o in orders :: o in next && RowEvolves(orders[o], next[o])
  }

  ghost predicate BatchesEvolve(batches: Batches, next: Batches) {
    forall b | b in batches ::
      && b in next && next[b].payload == batches[b].payload
      && BatchRank(batches[b].state) <= BatchRank(next[b].state)
  }

  ghost predicate SubmissionsEvolve(submissions: Submissions, next: Submissions) {
    forall t | t in submissions ::
      && t in next && next[t].batch == submissions[t].batch && next[t].orders == submissions[t].orders
      && (!submissions[t].state.Open? ==> next[t] == submissions[t])
  }

  ghost predicate Extends<K, V>(m: map<K, V>, next: map<K, V>) {
    forall k | k in m :: k in next && next[k] == m[k]
  }

  ghost predicate Evolves(db: Db, next: Db) {
    && OrdersEvolve(db.orders, next.orders)
    && BatchesEvolve(db.batches, next.batches)
    && SubmissionsEvolve(db.submissions, next.submissions)
    && Extends(db.leases, next.leases)
    && Extends(db.reservations, next.reservations)
    && Extends(db.terminal, next.terminal)
    && db.outbox <= next.outbox && db.delivered <= next.delivered && db.progress <= next.progress
  }

  lemma EvolvesTransitive(a: Db, b: Db, c: Db)
    requires Evolves(a, b) && Evolves(b, c)
    ensures Evolves(a, c)
  {
  }

  lemma SettledEvolves(db: Db, tx: TxHash, reason: Option<Reason>)
    requires RowsOk(db.orders) && tx in db.submissions && db.submissions[tx].state.Open?
    ensures Evolves(db, Settled(db, tx, reason))
  {
  }

  lemma ClaimPickedEvolves(db: Db, ids: set<OrderId>, worker: Worker, now: Time, until: Time)
    requires AllQueued(db.orders, ids)
    ensures Evolves(db, ClaimPicked(db, ids, worker, now, until))
  {
  }

  lemma ClaimEvolves(db: Db, worker: Worker, now: Time, lease: Time, count: nat)
    ensures Evolves(db, ClaimAdmitted(db, worker, now, lease, count).0)
  {
    if AnyPending(db) {
      EvolvesReflexive(db);
    } else {
      EarliestWithin(db.orders, EligibleOrders(db, now), count);
      ClaimPickedEvolves(db, Ids(Earliest(db.orders, EligibleOrders(db, now), count)), worker, now, now + lease);
    }
  }

  lemma EvolvesReflexive(db: Db)
    ensures Evolves(db, db)
  {
  }

  /** A batch row moves forward, possibly with new outbox rows. */
  lemma BatchMoves(db: Db, b: BatchId, row: Batch, outbox: set<Wakeup>, delivered: set<Wakeup>)
    requires b in db.batches && row.payload == db.batches[b].payload && BatchRank(db.batches[b].state) <= BatchRank(row.state)
    requires db.outbox <= outbox && db.delivered <= delivered
    ensures Evolves(db, db.(batches := db.batches[b := row], outbox := outbox, delivered := delivered))
  {
  }

  lemma FinalizeEvolves(db: Db, b: BatchId)
    ensures Evolves(db, FinalizeIfReady(db, b))
  {
    var next := FinalizeIfReady(db, b);
    if next == db { EvolvesReflexive(db); } else { BatchMoves(db, b, next.batches[b], next.outbox, next.delivered); }
  }

  lemma BeginEvolves(db: Db, b: BatchId, worker: Worker)
    ensures Evolves(db, BeginReconciliation(db, b, worker).0)
  {
    if BeginReconciliation(db, b, worker).0 != db {
      FinalizeEvolves(db.(batches := Reconcile(db.batches, b)), b);
    }
  }

  lemma ResolveEvolves(db: Db, tx: TxHash, reason: Option<Reason>)
    requires RowsOk(db.orders)
    ensures Evolves(db, ResolveSubmission(db, tx, reason).0)
  {
    if tx in db.submissions && db.submissions[tx].state.Open? {
      var s := Settled(db, tx, reason);
      SettledEvolves(db, tx, reason);
      FinalizeEvolves(s, db.submissions[tx].batch);
      EvolvesTransitive(db, s, FinalizeIfReady(s, db.submissions[tx].batch));
    }
  }

  lemma CreateEvolves(db: Db, worker: Worker, ids: seq<OrderId>, swaps: seq<OrderId>, b: BatchId, now: Time)
    requires RowsOk(db.orders)
    ensures Evolves(db, CreateBatch(db, worker, ids, swaps, b, now).0)
  {
    if CreateBatch(db, worker, ids, swaps, b, now).0 != db { BatchableRows(db, worker, ids); }
  }

  lemma AdmitEvolves(db: Db, client: Uuid, commitment: Commitment, id: OrderId, user: User, now: Time, limit: nat)
    requires AdmissionOk(db.leases, db.reservations, db.orders)
    ensures Evolves(db, Admit(db, client, commitment, id, user, now, limit).0)
  {
    var next := Admit(db, client, commitment, id, user, now, limit).0;
    if next == db {
      EvolvesReflexive(db);
    } else {
      InsertEvolves(db, client, Reservation(commitment, id), id, FreshOrder(client, user, db.leases[client].nonce, now));
    }
  }

  lemma InsertEvolves(db: Db, client: Uuid, reservation: Reservation, id: OrderId, row: Order)
    requires client !in db.reservations && id !in db.orders
    ensures Evolves(db, InsertOrder(db.(reservations := db.reservations[client := reservation]), id, row))
  {
  }

  lemma RecordEvolves(db: Db, b: BatchId, worker: Worker, tx: TxHash, ids: seq<OrderId>)
    requires RowsOk(db.orders)
    ensures Evolves(db, RecordSubmission(db, b, worker, tx, ids).0)
  {
    if RecordSubmission(db, b, worker, tx, ids).0 != db {
      assert forall o | o in Ids(ids) :: AwaitsSubmission(db, b, o) && RowOk(db.orders[o]);
    }
  }

  lemma FailOrdersEvolves(db: Db, ids: set<OrderId>, reason: Reason)
    requires AllQueued(db.orders, ids)
    ensures Evolves(db, FailOrders(db, ids, reason))
  {
  }

  lemma FailBatchedEvolves(db: Db, b: BatchId, worker: Worker, ids: set<OrderId>, reason: Reason)
    requires AllAwaiting(db, b, worker, ids)
    ensures Evolves(db, FailBatched(db, ids, reason))
  {
  }

  lemma ClaimBatchEvolves(db: Db, worker: Worker, now: Time, lease: Time)
    ensures Evolves(db, ClaimBatch(db, worker, now, lease).0)
  {
    var (next, r) := ClaimBatch(db, worker, now, lease);
    if r.Ok? && r.value.Some? {
      BatchMoves(db, r.value.value, next.batches[r.value.value], next.outbox, next.delivered);
    } else {
      EvolvesReflexive(db);
    }
  }

  lemma FailClaimedEvolves(db: Db, o: OrderId, worker: Worker, reason: Reason)
    ensures Evolves(db, FailClaimed(db, o, worker, reason).0)
  {
    if ClaimedBy(db, o, worker) { FailOrdersEvolves(db, {o}, reason); } else { EvolvesReflexive(db); }
  }

  lemma AllocateEvolves(db: Db, user: User, random: Entropy)
    ensures Evolves(db, AllocateLease(db, user, random).0)
  {
    EvolvesReflexive(db);
    var (next, r) := AllocateLease(db, user, random);
    if r.Ok? { LeaseEvolves(db, r.value, Lease(user, NextNonce(db, user)), next.allocators); }
  }

  lemma LeaseEvolves(db: Db, client: Uuid, lease: Lease, allocators: map<User, nat>)
    requires client !in db.leases
    ensures Evolves(db, db.(allocators := allocators, leases := db.leases[client := lease]))
  {
  }

  lemma DeliverEvolves(db: Db, wakeup: Wakeup)
    ensures Evolves(db, MarkDelivered(db, wakeup).0)
  {
    EvolvesReflexive(db);
  }

  lemma AdmissionOpEvolves(db: Db, op: Op, limit: nat)
    requires AdmissionOk(db.leases, db.reservations, db.orders) && IsAdmissionOp(op)
    ensures Evolves(db, Apply(db, op, limit))
  {
    match op
    case DoAllocateLease(user, random) => AllocateEvolves(db, user, random);
    case DoAdmit(client, commitment, id, user, at) => AdmitEvolves(db, client, commitment, id, user, at, limit);
    case DoClaimOrders(worker, now, lease, count) => ClaimEvolves(db, worker, now, lease, count);
  }

  lemma QueueOpEvolves(db: Db, op: Op, limit: nat)
    requires IsQueueOp(op) && !IsAdmissionOp(op)
    ensures Evolves(db, Apply(db, op, limit))
  {
    match op
    case DoFailClaimed(worker, order, reason) => FailClaimedEvolves(db, order, worker, reason);
    case DoFailByIds(ids, cause) => FailOrdersEvolves(db, QueuedAmong(db, ids), cause);
    case DoMarkDelivered(wakeup) => DeliverEvolves(db, wakeup);
    case DoFailSwap(swap) => FailSwapEvolves(db, swap);
  }

  lemma FailSwapEvolves(db: Db, o: OrderId)
    ensures Evolves(db, FailSwap(db, o))
  {
    EvolvesReflexive(db);
  }

  lemma BatchOpEvolves(db: Db, op: Op, limit: nat)
    requires RowsOk(db.orders) && !IsQueueOp(op)
    ensures Evolves(db, Apply(db, op, limit))
  {
    match op
    case DoCreateBatch(worker, batched, swaps, created, now) => CreateEvolves(db, worker, batched, swaps, created, now);
    case DoClaimBatch(worker, now, lease) => ClaimBatchEvolves(db, worker, now, lease);
    case DoRecordSubmission(worker, batch, tx, submitted) => RecordEvolves(db, batch, worker, tx, submitted);
    case DoMarkFailed(worker, batch, failed, reason) =>
      FailBatchedEvolves(db, batch, worker, AwaitingAmong(db, batch, worker, failed), reason);
    case DoFailRemaining(worker, batch, reason) =>
      FailBatchedEvolves(db, batch, worker, Awaiting(db, batch, worker), reason);
    case DoBeginReconciliation(worker, batch) => BeginEvolves(db, batch, worker);
    case DoResolve(resolved, outcome) => ResolveEvolves(db, resolved, outcome);
  }

  lemma StepEvolves(db: Db, op: Op, limit: nat)
    requires AdmissionOk(db.leases, db.reservations, db.orders) && RowsOk(db.orders)
    ensures Evolves(db, Apply(db, op, limit))
  {
    if IsAdmissionOp(op) {
      AdmissionOpEvolves(db, op, limit);
    } else if IsQueueOp(op) {
      QueueOpEvolves(db, op, limit);
    } else {
      BatchOpEvolves(db, op, limit);
    }
  }

  lemma {:induction false} RunEvolves(db: Db, ops: seq<Op>, limit: nat)
    requires Inv(db)
    ensures Evolves(db, RunFrom(db, ops, limit))
    decreases |ops|
  {
    if ops == [] {
      EvolvesReflexive(db);
    } else {
      var next := Apply(db, ops[0], limit);
      StepKeeps(db, ops[0], limit);
      RunEvolves(next, ops[1..], limit);
      StepEvolves(db, ops[0], limit);
      EvolvesTransitive(db, next, RunFrom(next, ops[1..], limit));
    }
  }

  /** Between any two states of a run, ranks never fall and terminal orders are frozen. */
  lemma OrdersOnlyAdvance(ops: seq<Op>, more: seq<Op>, limit: nat, o: OrderId)
    requires o in Run(ops, limit).orders
    ensures var now, later := Run(ops, limit), Run(ops + more, limit);
            && o in later.orders
            && Rank(now.orders[o].state) <= Rank(later.orders[o].state)
            && (IsTerminal(now.orders[o].state) ==> later.orders[o] == now.orders[o])
  {
    ReachableInv(ops, limit);
    RunFromAppend(EMPTY, ops, more, limit);
    RunEvolves(Run(ops, limit), more, limit);
  }

  /** In every reachable state an order is terminal exactly when its terminal event is recorded, of
      the matching kind. */
  lemma EventsFollow(ops: seq<Op>, limit: nat, o: OrderId)
    requires o in Run(ops, limit).orders
    ensures var db := Run(ops, limit); var row := db.orders[o];
            && (IsTerminal(row.state) <==> o in db.terminal)
            && (o in db.terminal ==> (db.terminal[o].ConfirmedEvent? <==> row.state.Confirmed?))
  {
    ReachableInv(ops, limit);
  }

  // ---- Admission ----

  /** A user's leased nonces are exactly those below the allocator, each with one client id. */
  lemma LeasesAreAPrefix(ops: seq<Op>, limit: nat, user: User, n: nat)
    ensures var db := Run(ops, limit);
            && (Leased(db.leases, user, n) <==> n < NextNonce(db, user))
            && forall c, d | c in db.leases && d in db.leases && db.leases[c] == db.leases[d] :: c == d
  {
    ReachableInv(ops, limit);
    PrefixFromLeases(Run(ops, limit), user, n);
  }

  lemma PrefixFromLeases(db: Db, user: User, n: nat)
    requires LeasesOk(db.allocators, db.leases)
    ensures Leased(db.leases, user, n) <==> n < NextNonce(db, user)
    ensures forall c, d | c in db.leases && d in db.leases && db.leases[c] == db.leases[d] :: c == d
  {
  }

  /** Order id, client id and (user, nonce) determine one another. */
  lemma OrdersOneToOne(ops: seq<Op>, limit: nat, o: OrderId, p: OrderId)
    requires o in Run(ops, limit).orders && p in Run(ops, limit).orders
    ensures var orders := Run(ops, limit).orders;
            && (orders[o].client == orders[p].client ==> o == p)
            && (orders[o].user == orders[p].user && orders[o].nonce == orders[p].nonce ==> o == p)
  {
    ReachableInv(ops, limit);
    OneToOne(Run(ops, limit), o, p);
  }

  lemma OneToOne(db: Db, o: OrderId, p: OrderId)
    requires LeasesOk(db.allocators, db.leases) && AdmissionOk(db.leases, db.reservations, db.orders)
    requires o in db.orders && p in db.orders
    ensures db.orders[o].client == db.orders[p].client ==> o == p
    ensures db.orders[o].user == db.orders[p].user && db.orders[o].nonce == db.orders[p].nonce ==> o == p
  {
  }

  /** Once an order was admitted, every later admission under its client id by the same user
      returns that order or a conflict, and changes nothing. */
  lemma AdmissionIdempotent(ops: seq<Op>, more: seq<Op>, limit: nat, client: Uuid, commitment: Commitment, id: OrderId,
                            user: User, at: Time, commitment': Commitment, id': OrderId, at': Time)
    requires Admit(Run(ops, limit), client, commitment, id, user, at, limit).1 == Ok(New(id))
    ensures var later := Run(ops + [DoAdmit(client, commitment, id, user, at)] + more, limit);
            Admit(later, client, commitment', id', user, at', limit)
            == (later, Ok(if commitment' == commitment then Existing(id) else Conflict))
  {
    var op := DoAdmit(client, commitment, id, user, at);
    var first := Run(ops + [op], limit);
    ReachableInv(ops + [op], limit);
    OneMore(ops, op, limit);
    RunFromAppend(EMPTY, ops + [op], more, limit);
    RunEvolves(first, more, limit);
    RetryAnswered(Run(ops, limit), first, RunFrom(first, more, limit), client, commitment, id, user, at, commitment', id', at', limit);
  }

  lemma RetryAnswered(before: Db, first: Db, later: Db, client: Uuid, commitment: Commitment, id: OrderId,
                      user: User, at: Time, commitment': Commitment, id': OrderId, at': Time, limit: nat)
    requires Admit(before, client, commitment, id, user, at, limit) == (first, Ok(New(id)))
    requires Extends(first.leases, later.leases) && Extends(first.reservations, later.reservations)
    requires OrdersEvolve(first.orders, later.orders)
    ensures Admit(later, client, commitment', id', user, at', limit)
            == (later, Ok(if commitment' == commitment then Existing(id) else Conflict))
  {
    FirstReserves(before, first, client, commitment, id, user, at, limit);
    assert ValidateLease(later, client, user).Ok?;
    assert later.reservations[client] == Reservation(commitment, id) && id in later.orders;
  }

  lemma FirstReserves(before: Db, first: Db, client: Uuid, commitment: Commitment, id: OrderId, user: User, at: Time, limit: nat)
    requires Admit(before, client, commitment, id, user, at, limit) == (first, Ok(New(id)))
    ensures ValidateLease(first, client, user).Ok? && id in first.orders
    ensures client in first.reservations && first.reservations[client] == Reservation(commitment, id)
  {
  }

  /** Recording a known transaction changes nothing: the answer only says whether the caller owns the
      batch it names. */
  ghost predicate Answered(db: Db, b: BatchId, worker: Worker, tx: TxHash, ids: seq<OrderId>) {
    && RecordSubmission(db, b, worker, tx, ids).0 == db
    && (RecordSubmission(db, b, worker, tx, ids).1 == Ok(true)
        <==> b in db.batches && db.batches[b].state.Claimed? && db.batches[b].owner == Some(worker))
  }

  lemma KnownAnswered(db: Db, b: BatchId, worker: Worker, tx: TxHash, ids: seq<OrderId>)
    requires tx in db.submissions
    ensures Answered(db, b, worker, tx, ids)
  {
  }

  lemma RecordedKnown(db: Db, b: BatchId, worker: Worker, tx: TxHash, ids: seq<OrderId>)
    requires RecordSubmission(db, b, worker, tx, ids).1 == Ok(true)
    ensures tx in RecordSubmission(db, b, worker, tx, ids).0.submissions
  {
  }

  lemma OneMore(ops: seq<Op>, op: Op, limit: nat)
    ensures Run(ops + [op], limit) == Apply(Run(ops, limit), op, limit)
  {
    RunFromAppend(EMPTY, ops, [op], limit);
    assert [op][1..] == [];
    assert RunFrom(Run(ops, limit), [op], limit) == RunFrom(Apply(Run(ops, limit), op, limit), [], limit);
  }

  lemma KnownForever(ops: seq<Op>, more: seq<Op>, limit: nat, tx: TxHash)
    requires tx in Run(ops, limit).submissions
    ensures tx in Run(ops + more, limit).submissions
  {
    ReachableInv(ops, limit);
    RunFromAppend(EMPTY, ops, more, limit);
    RunEvolves(Run(ops, limit), more, limit);
  }

  /** Once a transaction is recorded, recording it again, at any later time, changes nothing. */
  lemma SubmissionIdempotent(ops: seq<Op>, more: seq<Op>, limit: nat, b: BatchId, worker: Worker, tx: TxHash, ids: seq<OrderId>,
                             b': BatchId, worker': Worker, ids': seq<OrderId>)
    requires RecordSubmission(Run(ops, limit), b, worker, tx, ids).1 == Ok(true)
    ensures Answered(Run(ops + [DoRecordSubmission(worker, b, tx, ids)] + more, limit), b', worker', tx, ids')
  {
    var op := DoRecordSubmission(worker, b, tx, ids);
    RecordedKnown(Run(ops, limit), b, worker, tx, ids);
    OneMore(ops, op, limit);
    KnownForever(ops + [op], more, limit, tx);
    KnownAnswered(Run(ops + [op] + more, limit), b', worker', tx, ids');
  }

  /** A wake-up that was marked once is never marked again, in any continuation; one not yet marked or
      taken is. */
  lemma DeliveredOnce(ops: seq<Op>, more: seq<Op>, limit: nat, wakeup: Wakeup)
    ensures var db := Run(ops, limit);
            && (MarkDelivered(db, wakeup).1 <==> wakeup in db.outbox && wakeup !in db.delivered)
            && (wakeup in db.outbox ==> !MarkDelivered(RunFrom(MarkDelivered(db, wakeup).0, more, limit), wakeup).1)
  {
    var db := Run(ops, limit);
    ReachableInv(ops, limit);
    MarkDeliveredKeeps(db, wakeup);
    RunEvolves(MarkDelivered(db, wakeup).0, more, limit);
  }

  lemma NoNewOrders(db: Db, op: Op, limit: nat)
    requires !op.DoAdmit?
    ensures Apply(db, op, limit).orders.Keys == db.orders.Keys
  {
    if IsQueueOp(op) { QueueOpKeys(db, op, limit); } else { BatchOpKeys(db, op, limit); }
  }

  lemma QueueOpKeys(db: Db, op: Op, limit: nat)
    requires IsQueueOp(op) && !op.DoAdmit?
    ensures Apply(db, op, limit).orders.Keys == db.orders.Keys
  {
    match op
    case DoAllocateLease(_, _) =>
    case DoClaimOrders(worker, now, lease, count) => ClaimKeys(db, worker, now, lease, count);
    case DoFailClaimed(worker, order, reason) => FailKeys(db, {order}, reason);
    case DoFailByIds(ids, cause) => FailKeys(db, QueuedAmong(db, ids), cause);
    case DoMarkDelivered(_) =>
    case DoFailSwap(_) =>
  }

  lemma ClaimKeys(db: Db, worker: Worker, now: Time, lease: Time, count: nat)
    ensures ClaimAdmitted(db, worker, now, lease, count).0.orders.Keys == db.orders.Keys
  {
  }

  lemma FailKeys(db: Db, ids: set<OrderId>, reason: Reason)
    ensures FailOrders(db, ids, reason).orders.Keys == db.orders.Keys
  {
  }

  lemma BatchOpKeys(db: Db, op: Op, limit: nat)
    requires !IsQueueOp(op)
    ensures Apply(db, op, limit).orders.Keys == db.orders.Keys
  {
    match op
    case DoCreateBatch(_, _, _, _, _) =>
    case DoClaimBatch(_, _, _) =>
    case DoRecordSubmission(_, _, _, _) =>
    case DoMarkFailed(_, _, _, _) =>
    case DoFailRemaining(_, _, _) =>
    case DoBeginReconciliation(_, _) =>
    case DoResolve(_, _) =>
  }

  lemma QueueStep(db: Db, op: Op, limit: nat)
    requires AdmissionOk(db.leases, db.reservations, db.orders) && RowsOk(db.orders)
    requires |QueuedOrders(db)| <= limit
    ensures |QueuedOrders(Apply(db, op, limit))| <= limit
  {
    var next := Apply(db, op, limit);
    StepEvolves(db, op, limit);
    if op.DoAdmit? {
      AdmitQueue(db, op.client, op.commitment, op.id, op.admittedUser, op.at, limit);
    } else {
      NoNewOrders(db, op, limit);
      QueueShrinks(db, next);
    }
  }

  lemma QueueShrinks(db: Db, next: Db)
    requires OrdersEvolve(db.orders, next.orders) && next.orders.Keys == db.orders.Keys
    ensures |QueuedOrders(next)| <= |QueuedOrders(db)|
  {
    forall o | o in QueuedOrders(next) ensures o in QueuedOrders(db) {
      assert o in db.orders && RowEvolves(db.orders[o], next.orders[o]);
    }
    SubsetSize(QueuedOrders(next), QueuedOrders(db));
  }

  lemma AdmitQueue(db: Db, client: Uuid, commitment: Commitment, id: OrderId, user: User, now: Time, limit: nat)
    requires AdmissionOk(db.leases, db.reservations, db.orders) && |QueuedOrders(db)| <= limit
    ensures |QueuedOrders(Admit(db, client, commitment, id, user, now, limit).0)| <= limit
  {
    var next := Admit(db, client, commitment, id, user, now, limit).0;
    if next != db {
      var row := FreshOrder(client, user, db.leases[client].nonce, now);
      assert next.orders == db.orders[id := row];
      QueueGrows(db, next, id, row);
    }
  }

  lemma QueueGrows(db: Db, next: Db, id: OrderId, row: Order)
    requires id !in db.orders && next.orders == db.orders[id := row] && IsQueued(row.state)
    ensures |QueuedOrders(next)| == |QueuedOrders(db)| + 1
  {
    assert QueuedOrders(next) == QueuedOrders(db) + {id};
  }

  lemma {:induction false} QueueBoundedFrom(db: Db, ops: seq<Op>, limit: nat)
    requires Inv(db) && |QueuedOrders(db)| <= limit
    ensures |QueuedOrders(RunFrom(db, ops, limit))| <= limit
    decreases |ops|
  {
    if ops != [] {
      QueueStep(db, ops[0], limit);
      StepKeeps(db, ops[0], limit);
      QueueBoundedFrom(Apply(db, ops[0], limit), ops[1..], limit);
    }
  }

  /** The admission queue never exceeds its limit. */
  lemma QueueBounded(ops: seq<Op>, limit: nat)
    ensures |QueuedOrders(Run(ops, limit))| <= limit
  {
    EmptyInv();
    assert QueuedOrders(EMPTY) == {};
    QueueBoundedFrom(EMPTY, ops, limit);
  }

  // ---- Single flight and fencing ----

  /** At most one pending and one claimed batch, and a claim never meets the unique index. */
  lemma SingleFlightAlways(ops: seq<Op>, limit: nat, worker: Worker, now: Time, lease: Time)
    ensures SingleFlight(Run(ops, limit).batches)
    ensures ClaimBatch(Run(ops, limit), worker, now, lease).1.Ok?
  {
    ReachableInv(ops, limit);
    ClaimBatchSucceeds(Run(ops, limit), worker, now, lease);
  }

  predicate IsBy(op: Op, worker: Worker) {
    (op.DoClaimOrders? || op.DoFailClaimed? || op.DoCreateBatch? || op.DoClaimBatch? || op.DoRecordSubmission?
     || op.DoMarkFailed? || op.DoFailRemaining? || op.DoBeginReconciliation?) && op.worker == worker
  }

  /** The batch and the rows of its orders are as before. */
  ghost predicate BatchUntouched(db: Db, next: Db, b: BatchId) {
    && b in db.batches && b in next.batches && next.batches[b] == db.batches[b]
    && (forall o | o in db.orders && db.orders[o].batch == Some(b) :: o in next.orders && next.orders[o] == db.orders[o])
  }

  /** A worker that does not hold a batch changes neither it nor its orders, unless it claims it. */
  lemma BatchFenced(db: Db, op: Op, limit: nat, worker: Worker, b: BatchId)
    requires RowsOk(db.orders) && b in db.batches && !Owns(db, b, worker)
    requires IsBy(op, worker) && !op.DoClaimBatch?
    ensures BatchUntouched(db, Apply(db, op, limit), b)
  {
    match op
    case DoClaimOrders(_, now, lease, count) => ClaimFenced(db, worker, now, lease, count, b);
    case DoFailClaimed(_, order, reason) => FailClaimedFenced(db, order, worker, reason, b);
    case DoCreateBatch(_, batched, swaps, created, now) => CreateFenced(db, worker, batched, swaps, created, now, b);
    case DoRecordSubmission(_, batch, tx, submitted) => RecordFenced(db, batch, worker, tx, submitted, b);
    case DoMarkFailed(_, batch, failed, reason) =>
      FailFenced(db, batch, worker, AwaitingAmong(db, batch, worker, failed), reason, b);
    case DoFailRemaining(_, batch, reason) => FailFenced(db, batch, worker, Awaiting(db, batch, worker), reason, b);
    case DoBeginReconciliation(_, batch) => BeginFenced(db, batch, worker, b);
  }

  lemma RecordFenced(db: Db, batch: BatchId, worker: Worker, tx: TxHash, ids: seq<OrderId>, b: BatchId)
    requires b in db.batches && !Owns(db, b, worker)
    ensures BatchUntouched(db, RecordSubmission(db, batch, worker, tx, ids).0, b)
  {
  }

  lemma BeginFenced(db: Db, batch: BatchId, worker: Worker, b: BatchId)
    requires b in db.batches && !Owns(db, b, worker)
    ensures BatchUntouched(db, BeginReconciliation(db, batch, worker).0, b)
  {
    if Owns(db, batch, worker) { FinalizeUntouched(db.(batches := Reconcile(db.batches, batch)), batch, b); }
  }

  lemma FinalizeUntouched(db: Db, batch: BatchId, b: BatchId)
    requires b in db.batches && batch != b
    ensures BatchUntouched(db, FinalizeIfReady(db, batch), b)
  {
  }

  lemma FailFenced(db: Db, batch: BatchId, worker: Worker, ids: set<OrderId>, reason: Reason, b: BatchId)
    requires b in db.batches && !Owns(db, b, worker) && AllAwaiting(db, batch, worker, ids)
    ensures BatchUntouched(db, FailBatched(db, ids, reason), b)
  {
  }

  lemma FailClaimedFenced(db: Db, o: OrderId, worker: Worker, reason: Reason, b: BatchId)
    requires RowsOk(db.orders) && b in db.batches
    ensures BatchUntouched(db, FailClaimed(db, o, worker, reason).0, b)
  {
  }

  lemma ClaimFenced(db: Db, worker: Worker, now: Time, lease: Time, count: nat, b: BatchId)
    requires RowsOk(db.orders) && b in db.batches
    ensures BatchUntouched(db, ClaimAdmitted(db, worker, now, lease, count).0, b)
  {
    EarliestWithin(db.orders, EligibleOrders(db, now), count);
  }

  lemma CreateFenced(db: Db, worker: Worker, ids: seq<OrderId>, swaps: seq<OrderId>, created: BatchId, now: Time, b: BatchId)
    requires RowsOk(db.orders) && b in db.batches
    ensures BatchUntouched(db, CreateBatch(db, worker, ids, swaps, created, now).0, b)
  {
    if CreateBatch(db, worker, ids, swaps, created, now).0 != db { BatchableRows(db, worker, ids); }
  }

  /** A worker whose claim on an order was taken over cannot change the order, unless it claims it
      again. */
  lemma OrderFenced(db: Db, op: Op, limit: nat, worker: Worker, o: OrderId)
    requires o in db.orders && db.orders[o].state.ProcessingClaimed? && db.orders[o].owner != Some(worker)
    requires IsBy(op, worker) && !op.DoClaimOrders?
    ensures var next := Apply(db, op, limit); o in next.orders && next.orders[o] == db.orders[o]
  {
    if op.DoCreateBatch? {
      CreateSkips(db, worker, op.batched, op.swaps, op.created, op.now, o);
    } else if op.DoRecordSubmission? {
      RecordSkips(db, op.batch, worker, op.tx, op.submitted, o);
    } else if op.DoBeginReconciliation? {
      BeginSkips(db, op.batch, worker);
    } else if op.DoFailClaimed? {
      FailClaimedSkips(db, op.order, worker, op.reason, o);
    } else {
      NotBatchedSkips(db, op, limit, o);
    }
  }

  lemma FailClaimedSkips(db: Db, order: OrderId, worker: Worker, reason: Reason, o: OrderId)
    requires o in db.orders && !ClaimedBy(db, o, worker)
    ensures var next := FailClaimed(db, order, worker, reason).0; o in next.orders && next.orders[o] == db.orders[o]
  {
  }

  lemma NotBatchedSkips(db: Db, op: Op, limit: nat, o: OrderId)
    requires o in db.orders && !db.orders[o].state.Batched? && (op.DoClaimBatch? || op.DoMarkFailed? || op.DoFailRemaining?)
    ensures var next := Apply(db, op, limit); o in next.orders && next.orders[o] == db.orders[o]
  {
  }

  lemma CreateSkips(db: Db, worker: Worker, ids: seq<OrderId>, swaps: seq<OrderId>, b: BatchId, now: Time, o: OrderId)
    requires o in db.orders && !ClaimedBy(db, o, worker)
    ensures var next := CreateBatch(db, worker, ids, swaps, b, now).0; o in next.orders && next.orders[o] == db.orders[o]
  {
  }

  lemma BeginSkips(db: Db, b: BatchId, worker: Worker)
    ensures BeginReconciliation(db, b, worker).0.orders == db.orders
  {
  }

  lemma RecordSkips(db: Db, b: BatchId, worker: Worker, tx: TxHash, ids: seq<OrderId>, o: OrderId)
    requires o in db.orders && !db.orders[o].state.Batched?
    ensures var next := RecordSubmission(db, b, worker, tx, ids).0; o in next.orders && next.orders[o] == db.orders[o]
  {
  }

  /** Only a claim by the worker itself gives it a batch. */
  lemma OwnershipOnlyByClaim(db: Db, op: Op, limit: nat, worker: Worker, b: BatchId)
    requires b in db.batches && !Owns(db, b, worker) && !(op.DoClaimBatch? && op.worker == worker)
    ensures !Owns(Apply(db, op, limit), b, worker)
  {
    if op.DoBeginReconciliation? {
      BeginOwns(db, op.batch, op.worker, b, worker);
    } else if op.DoResolve? {
      ResolveOwns(db, op.resolved, op.outcome, b, worker);
    }
  }

  lemma FinalizeOwns(db: Db, a: BatchId, b: BatchId, worker: Worker)
    requires !Owns(db, b, worker)
    ensures !Owns(FinalizeIfReady(db, a), b, worker)
  {
  }

  lemma BeginOwns(db: Db, a: BatchId, actor: Worker, b: BatchId, worker: Worker)
    requires !Owns(db, b, worker)
    ensures !Owns(BeginReconciliation(db, a, actor).0, b, worker)
  {
    if Owns(db, a, actor) { FinalizeOwns(db.(batches := Reconcile(db.batches, a)), a, b, worker); }
  }

  lemma ResolveOwns(db: Db, tx: TxHash, reason: Option<Reason>, b: BatchId, worker: Worker)
    requires !Owns(db, b, worker)
    ensures !Owns(ResolveSubmission(db, tx, reason).0, b, worker)
  {
    if tx in db.submissions { FinalizeOwns(Settled(db, tx, reason), db.submissions[tx].batch, b, worker); }
  }

  lemma {:induction false} NeverOwnsAgain(db: Db, ops: seq<Op>, limit: nat, worker: Worker, b: BatchId)
    requires Inv(db) && b in db.batches && !Owns(db, b, worker)
    requires forall op | op in ops :: !(op.DoClaimBatch? && op.worker == worker)
    ensures b in RunFrom(db, ops, limit).batches && !Owns(RunFrom(db, ops, limit), b, worker)
    decreases |ops|
  {
    if ops != [] {
      StepKeeps(db, ops[0], limit);
      StepEvolves(db, ops[0], limit);
      OwnershipOnlyByClaim(db, ops[0], limit, worker, b);
      NeverOwnsAgain(Apply(db, ops[0], limit), ops[1..], limit, worker, b);
    }
  }

  /** Once it lost a batch, a worker that does not claim again never touches that batch or its
      orders, however the run goes on. */
  lemma FencedForever(db: Db, ops: seq<Op>, limit: nat, worker: Worker, b: BatchId, op: Op)
    requires Inv(db) && b in db.batches && !Owns(db, b, worker)
    requires forall x | x in ops :: !(x.DoClaimBatch? && x.worker == worker)
    requires IsBy(op, worker) && !op.DoClaimBatch?
    ensures BatchUntouched(RunFrom(db, ops, limit), Apply(RunFrom(db, ops, limit), op, limit), b)
  {
    RunFromKeeps(db, ops, limit);
    NeverOwnsAgain(db, ops, limit, worker, b);
    BatchFenced(RunFrom(db, ops, limit), op, limit, worker, b);
  }
}
