/**
 The inductive invariant of the execution tables, and the proof that every transaction keeps it.
 Every clause names only the tables it speaks about, so a transaction has to argue only about the
 tables it writes.
 */
module ExecutionInvariant {
  import opened Basics
  import opened ClientOrderId
  import opened ExecutionTables

  type Orders = map<OrderId, Order>
  type Batches = map<BatchId, Batch>
  type Submissions = map<TxHash, Submission>
  type Leases = map<Uuid, Lease>
  type Reservations = map<Uuid, Reservation>

  // ---- The invariant ----

  ghost predicate Leased(leases: Leases, u: User, n: nat) {
    exists c :: c in leases && leases[c] == Lease(u, n)
  }

  /** A user's leased nonces are exactly 0 .. next-1, each leased to one client id that carries it. */
  ghost predicate LeasesOk(allocators: map<User, nat>, leases: Leases) {
    && (forall c | c in leases ::
          && leases[c].user in allocators
          && leases[c].nonce < allocators[leases[c].user]
          && leases[c].nonce == NonceOf(c))
    && (forall u | u in allocators :: allocators[u] <= U32_LIMIT)
    && (forall u, n: nat | u in allocators && n < allocators[u] :: Leased(leases, u, n))
    && (forall c, d | c in leases && d in leases && leases[c] == leases[d] :: c == d)
  }

  /** Reservations and orders correspond one to one through the client id, and every order carries
      the user and nonce of its lease. */
  ghost predicate AdmissionOk(leases: Leases, reservations: Reservations, orders: Orders) {
    && (forall o | o in orders ::
          && orders[o].client in leases && leases[orders[o].client] == Lease(orders[o].user, orders[o].nonce)
          && orders[o].client in reservations && reservations[orders[o].client].order == o)
    && (forall c | c in reservations ::
          reservations[c].order in orders && orders[reservations[c].order].client == c)
  }

  /** What an order's own row holds in each state. */
  ghost predicate RowOk(row: Order) {
    && (row.error.Some? <==> row.state.Failed?)
    && match row.state
       case Admitted => row.batch.None? && row.tx.None? && row.owner.None?
       case ProcessingClaimed => row.batch.None? && row.tx.None? && row.owner.Some? && row.until.Some?
       case Batched => row.batch.Some? && row.tx.None?
       case Submitted => row.batch.Some? && row.tx.Some?
       case Confirmed => row.batch.Some? && row.tx.Some?
       case Failed => row.tx.Some? ==> row.batch.Some?
       case Executed => false
  }

  ghost predicate RowsOk(orders: Orders) { forall o | o in orders :: RowOk(orders[o]) }

  /** Which order states a batch state admits. */
  predicate Compatible(s: OrderState, b: BatchState) {
    match b
    case Pending => s.Batched?
    case Claimed => s.Batched? || s.Submitted? || IsTerminal(s)
    case Reconciling => s.Submitted? || IsTerminal(s)
    case Terminal => IsTerminal(s)
  }

  /** An order with a batch is in that batch's payload, in a state the batch admits. */
  ghost predicate PlacedOk(orders: Orders, batches: Batches) {
    forall o | o in orders && orders[o].batch.Some? ::
      && orders[o].batch.value in batches
      && o in batches[orders[o].batch.value].payload
      && Compatible(orders[o].state, batches[orders[o].batch.value].state)
  }

  /** A batch's payload lists only orders that point back at it. */
  ghost predicate MembersOk(batches: Batches, orders: Orders) {
    forall b, o | b in batches && o in batches[b].payload :: o in orders && orders[o].batch == Some(b)
  }

  ghost predicate BatchShapesOk(batches: Batches) {
    forall b | b in batches ::
      && batches[b].payload != [] && Distinct(batches[b].payload)
      && (batches[b].state.Claimed? <==> batches[b].owner.Some?)
      && (batches[b].state.Claimed? ==> batches[b].until.Some?)
  }

  ghost predicate HasSubmitted(row: Batch, orders: Orders) {
    exists o :: o in row.payload && o in orders && orders[o].state.Submitted?
  }

  /** A reconciling batch still waits for some submitted order. */
  ghost predicate ReconcilingOk(batches: Batches, orders: Orders) {
    forall b | b in batches && batches[b].state.Reconciling? :: HasSubmitted(batches[b], orders)
  }

  ghost predicate TerminalBatchesOk(batches: Batches, outbox: set<Wakeup>) {
    forall b | b in batches && batches[b].state.Terminal? :: BatchTerminal(b) in outbox
  }

  /** An open submission of this transaction and batch lists the order. */
  ghost predicate Lists(submissions: Submissions, tx: TxHash, b: BatchId, o: OrderId) {
    && tx in submissions && submissions[tx].state.Open?
    && submissions[tx].batch == b && o in submissions[tx].orders
  }

  /** A submitted order is listed by the open submission of its transaction and batch. */
  ghost predicate SubmittedOk(orders: Orders, submissions: Submissions) {
    forall o | o in orders && orders[o].state.Submitted? ::
      orders[o].tx.Some? && orders[o].batch.Some? && Lists(submissions, orders[o].tx.value, orders[o].batch.value, o)
  }

  /** Everything an open submission lists is submitted under it. */
  ghost predicate SubmissionsOk(submissions: Submissions, orders: Orders) {
    forall t, o | t in submissions && submissions[t].state.Open? && o in submissions[t].orders ::
      && o in orders && orders[o].state.Submitted?
      && orders[o].tx == Some(t) && orders[o].batch == Some(submissions[t].batch)
  }

  function TerminalEvent(s: OrderState): TerminalKind { if s.Confirmed? then ConfirmedEvent else FailedEvent }

  /** An order is terminal exactly when its one terminal event is recorded, with the matching kind. */
  ghost predicate EventsOk(terminal: map<OrderId, TerminalKind>, orders: Orders) {
    && (forall o | o in orders && IsTerminal(orders[o].state) ::
          o in terminal && terminal[o] == TerminalEvent(orders[o].state))
    && (forall o | o in terminal :: o in orders && IsTerminal(orders[o].state))
  }

  ghost predicate Inv(db: Db) {
    && LeasesOk(db.allocators, db.leases)
    && AdmissionOk(db.leases, db.reservations, db.orders)
    && RowsOk(db.orders)
    && PlacedOk(db.orders, db.batches)
    && MembersOk(db.batches, db.orders)
    && BatchShapesOk(db.batches)
    && ReconcilingOk(db.batches, db.orders)
    && TerminalBatchesOk(db.batches, db.outbox)
    && SubmittedOk(db.orders, db.submissions)
    && SubmissionsOk(db.submissions, db.orders)
    && EventsOk(db.terminal, db.orders)
    && SingleFlight(db.batches)
  }

  // ---- Admission ----

  lemma EmptyInv()
    ensures Inv(EMPTY)
  {
  }

  lemma LeaseAdded(allocators: map<User, nat>, leases: Leases, user: User, nonce: nat, client: Uuid)
    requires LeasesOk(allocators, leases)
    requires nonce == (if user in allocators then allocators[user] else 0) < U32_LIMIT
    requires client !in leases && NonceOf(client) == nonce
    ensures LeasesOk(allocators[user := nonce + 1], leases[client := Lease(user, nonce)])
  {
    var allocators', leases' := allocators[user := nonce + 1], leases[client := Lease(user, nonce)];
    forall u, n: nat | u in allocators' && n < allocators'[u] ensures Leased(leases', u, n) {
      if u == user && n == nonce {
        assert leases'[client] == Lease(u, n);
      } else {
        assert Leased(leases, u, n);
        var c :| c in leases && leases[c] == Lease(u, n);
        assert leases'[c] == Lease(u, n);
      }
    }
  }

  lemma LeaseAddedAdmission(leases: Leases, reservations: Reservations, orders: Orders, client: Uuid, lease: Lease)
    requires AdmissionOk(leases, reservations, orders) && client !in leases
    ensures AdmissionOk(leases[client := lease], reservations, orders)
  {
  }

  lemma AllocateKeeps(db: Db, user: User, random: seq<Byte>)
    requires Inv(db) && |random| == 12
    ensures Inv(AllocateLease(db, user, random).0)
  {
    var (next, r) := AllocateLease(db, user, random);
    if r.Ok? {
      var nonce := NextNonce(db, user);
      RoundTrip(nonce, random);
      LeaseAdded(db.allocators, db.leases, user, nonce, r.value);
      LeaseAddedAdmission(db.leases, db.reservations, db.orders, r.value, Lease(user, nonce));
    }
  }

  lemma AdmissionAdded(leases: Leases, reservations: Reservations, orders: Orders,
                       client: Uuid, commitment: Commitment, id: OrderId, row: Order)
    requires AdmissionOk(leases, reservations, orders)
    requires client in leases && leases[client] == Lease(row.user, row.nonce) && row.client == client
    requires client !in reservations && id !in orders
    ensures AdmissionOk(leases, reservations[client := Reservation(commitment, id)], orders[id := row])
  {
  }

  lemma RowAddedPlaces(orders: Orders, batches: Batches, id: OrderId, row: Order)
    requires RowsOk(orders) && PlacedOk(orders, batches) && MembersOk(batches, orders) && ReconcilingOk(batches, orders)
    requires id !in orders && RowOk(row) && row.state.Admitted?
    ensures var next := orders[id := row];
            RowsOk(next) && PlacedOk(next, batches) && MembersOk(batches, next) && ReconcilingOk(batches, next)
  {
    ReconcilingFrame(batches, orders, orders[id := row]);
  }

  lemma RowAddedBooks(db: Db, id: OrderId, row: Order)
    requires SubmittedOk(db.orders, db.submissions) && SubmissionsOk(db.submissions, db.orders)
    requires EventsOk(db.terminal, db.orders)
    requires id !in db.orders && RowOk(row) && row.state.Admitted?
    ensures var next := db.orders[id := row];
            && SubmittedOk(next, db.submissions) && SubmissionsOk(db.submissions, next)
            && EventsOk(db.terminal, next)
  {
  }

  lemma AdmitKeeps(db: Db, client: Uuid, commitment: Commitment, id: OrderId, user: User, now: Time, limit: nat)
    requires Inv(db)
    ensures Inv(Admit(db, client, commitment, id, user, now, limit).0)
  {
    if Admit(db, client, commitment, id, user, now, limit).0 != db {
      var row := FreshOrder(client, user, db.leases[client].nonce, now);
      AdmissionAdded(db.leases, db.reservations, db.orders, client, commitment, id, row);
      RowAddedPlaces(db.orders, db.batches, id, row);
      RowAddedBooks(db, id, row);
    }
  }

  // ---- Frames: what moving the orders in `ids` to one state leaves alone ----

  /** The rows in `ids` leave a state in `before` for state `after`, keeping their identity and
      their place `b`; no other row changes. */
  ghost predicate Moved(orders: Orders, next: Orders, ids: set<OrderId>, b: Option<BatchId>, before: set<OrderState>, after: OrderState) {
    && next.Keys == orders.Keys && ids <= orders.Keys
    && (forall o | o in orders && o !in ids :: next[o] == orders[o])
    && (forall o | o in ids ::
          && orders[o].state in before && next[o].state == after && RowOk(next[o])
          && orders[o].batch == b && next[o].batch == b
          && next[o].client == orders[o].client && next[o].user == orders[o].user && next[o].nonce == orders[o].nonce)
  }

  const LIVE := {Admitted, ProcessingClaimed, Batched, Submitted}
  const QUEUED := {Admitted, ProcessingClaimed}

  lemma AdmissionFrame(leases: Leases, reservations: Reservations, orders: Orders, next: Orders)
    requires AdmissionOk(leases, reservations, orders) && next.Keys == orders.Keys
    requires forall o | o in orders ::
               next[o].client == orders[o].client && next[o].user == orders[o].user && next[o].nonce == orders[o].nonce
    ensures AdmissionOk(leases, reservations, next)
  {
    assert forall o | o in next :: o in orders;
  }

  lemma MovedAdmission(db: Db, next: Orders, ids: set<OrderId>, b: Option<BatchId>, before: set<OrderState>, after: OrderState)
    requires AdmissionOk(db.leases, db.reservations, db.orders) && Moved(db.orders, next, ids, b, before, after)
    ensures AdmissionOk(db.leases, db.reservations, next)
  {
    AdmissionFrame(db.leases, db.reservations, db.orders, next);
  }

  lemma MovedRows(orders: Orders, next: Orders, ids: set<OrderId>, b: Option<BatchId>, before: set<OrderState>, after: OrderState)
    requires RowsOk(orders) && Moved(orders, next, ids, b, before, after)
    ensures RowsOk(next)
  {
    assert forall o | o in next :: o in orders;
  }

  lemma MovedPlaces(orders: Orders, next: Orders, batches: Batches, ids: set<OrderId>, b: Option<BatchId>, before: set<OrderState>, after: OrderState)
    requires PlacedOk(orders, batches) && MembersOk(batches, orders) && Moved(orders, next, ids, b, before, after)
    requires ids != {} && b.Some? ==> b.value in batches && Compatible(after, batches[b.value].state)
    ensures PlacedOk(next, batches) && MembersOk(batches, next)
  {
    assert forall o | o in next :: o in orders;
  }

  lemma ReconcilingFrame(batches: Batches, orders: Orders, next: Orders)
    requires ReconcilingOk(batches, orders)
    requires forall o | o in orders && orders[o].state.Submitted? :: o in next && next[o].state.Submitted?
    ensures ReconcilingOk(batches, next)
  {
    forall b | b in batches && batches[b].state.Reconciling? ensures HasSubmitted(batches[b], next) {
      assert HasSubmitted(batches[b], orders);
    }
  }

  lemma MovedReconciling(batches: Batches, orders: Orders, next: Orders, ids: set<OrderId>, b: Option<BatchId>, before: set<OrderState>, after: OrderState)
    requires ReconcilingOk(batches, orders) && Moved(orders, next, ids, b, before, after) && Submitted !in before
    ensures ReconcilingOk(batches, next)
  {
    ReconcilingFrame(batches, orders, next);
  }

  /** Rows that are not submitted, before or after, do not matter to submissions. */
  lemma MovedSubmissions(submissions: Submissions, orders: Orders, next: Orders, ids: set<OrderId>, b: Option<BatchId>, before: set<OrderState>, after: OrderState)
    requires SubmittedOk(orders, submissions) && SubmissionsOk(submissions, orders)
    requires Moved(orders, next, ids, b, before, after) && Submitted !in before && !after.Submitted?
    ensures SubmittedOk(next, submissions) && SubmissionsOk(submissions, next)
  {
    assert forall o | o in next :: o in orders;
  }

  /** Moving live orders to a terminal state and recording their terminal events keeps events exact. */
  lemma MovedEvents(terminal: map<OrderId, TerminalKind>, orders: Orders, next: Orders, ids: set<OrderId>, b: Option<BatchId>,
                    before: set<OrderState>, after: OrderState)
    requires EventsOk(terminal, orders) && Moved(orders, next, ids, b, before, after) && before <= LIVE && IsTerminal(after)
    ensures EventsOk(Close(terminal, ids, TerminalEvent(after)), next)
  {
    var closed := Close(terminal, ids, TerminalEvent(after));
    forall o | o in next && IsTerminal(next[o].state) ensures o in closed && closed[o] == TerminalEvent(next[o].state) {
      assert o in orders;
    }
  }

  lemma MovedLive(terminal: map<OrderId, TerminalKind>, orders: Orders, next: Orders, ids: set<OrderId>, b: Option<BatchId>,
                  before: set<OrderState>, after: OrderState)
    requires EventsOk(terminal, orders) && Moved(orders, next, ids, b, before, after) && before <= LIVE && !IsTerminal(after)
    ensures EventsOk(terminal, next)
  {
    assert forall o | o in next :: o in orders;
  }

  // ---- Queue claims and failures ----

  ghost predicate AllQueued(orders: Orders, ids: set<OrderId>) {
    forall o | o in ids :: o in orders && IsQueued(orders[o].state)
  }

  /** Queued rows belong to no batch. */
  lemma QueuedRow(row: Order)
    requires RowOk(row) && IsQueued(row.state)
    ensures row.batch.None? && row.tx.None?
  {
  }

  lemma ClaimMoves(orders: Orders, ids: set<OrderId>, worker: Worker, until: Time)
    requires RowsOk(orders) && AllQueued(orders, ids)
    ensures Moved(orders, ClaimRows(orders, ids, worker, until), ids, None, QUEUED, ProcessingClaimed)
  {
    forall o | o in ids ensures orders[o].batch.None? && orders[o].tx.None? { QueuedRow(orders[o]); }
  }

  lemma FailMoves(orders: Orders, ids: set<OrderId>, reason: Reason)
    requires RowsOk(orders) && AllQueued(orders, ids)
    ensures Moved(orders, FailRows(orders, ids, reason), ids, None, QUEUED, Failed)
  {
    forall o | o in ids ensures orders[o].batch.None? && orders[o].tx.None? { QueuedRow(orders[o]); }
  }

  /** Everything a move of queued orders keeps, whatever it does to events. */
  lemma QueueFrame(db: Db, next: Orders, ids: set<OrderId>, after: OrderState)
    requires Inv(db) && Moved(db.orders, next, ids, None, QUEUED, after) && !after.Submitted?
    ensures AdmissionOk(db.leases, db.reservations, next) && RowsOk(next)
    ensures PlacedOk(next, db.batches) && MembersOk(db.batches, next) && ReconcilingOk(db.batches, next)
    ensures SubmittedOk(next, db.submissions) && SubmissionsOk(db.submissions, next)
  {
    MovedAdmission(db, next, ids, None, QUEUED, after);
    MovedRows(db.orders, next, ids, None, QUEUED, after);
    MovedPlaces(db.orders, next, db.batches, ids, None, QUEUED, after);
    MovedReconciling(db.batches, db.orders, next, ids, None, QUEUED, after);
    MovedSubmissions(db.submissions, db.orders, next, ids, None, QUEUED, after);
  }

  lemma ClaimPickedKeeps(db: Db, ids: set<OrderId>, worker: Worker, now: Time, until: Time)
    requires Inv(db) && AllQueued(db.orders, ids)
    ensures Inv(ClaimPicked(db, ids, worker, now, until))
  {
    var next := ClaimPicked(db, ids, worker, now, until);
    ClaimMoves(db.orders, ids, worker, until);
    QueueFrame(db, next.orders, ids, ProcessingClaimed);
    MovedLive(db.terminal, db.orders, next.orders, ids, None, QUEUED, ProcessingClaimed);
  }

  lemma {:induction false} EarliestWithin(orders: Orders, s: set<OrderId>, n: nat)
    requires s <= orders.Keys
    ensures Ids(Earliest(orders, s, n)) <= s
  {
    if n != 0 && s != {} {
      EarliestExists(orders, s);
      var picked := Earliest(orders, s, n);
      EarliestWithin(orders, s - {picked[0]}, n - 1);
      assert picked[1..] == Earliest(orders, s - {picked[0]}, n - 1);
      forall o | o in picked ensures o in s {
        if o != picked[0] { assert o in picked[1..] && o in Ids(picked[1..]); }
      }
    }
  }

  lemma ClaimAdmittedKeeps(db: Db, worker: Worker, now: Time, lease: Time, limit: nat)
    requires Inv(db)
    ensures Inv(ClaimAdmitted(db, worker, now, lease, limit).0)
  {
    if !AnyPending(db) {
      EarliestWithin(db.orders, EligibleOrders(db, now), limit);
      ClaimPickedKeeps(db, Ids(Earliest(db.orders, EligibleOrders(db, now), limit)), worker, now, now + lease);
    }
  }

  lemma FailOrdersKeeps(db: Db, ids: set<OrderId>, reason: Reason)
    requires Inv(db) && AllQueued(db.orders, ids)
    ensures Inv(FailOrders(db, ids, reason))
  {
    var next := FailOrders(db, ids, reason);
    FailMoves(db.orders, ids, reason);
    QueueFrame(db, next.orders, ids, Failed);
    MovedEvents(db.terminal, db.orders, next.orders, ids, None, QUEUED, Failed);
  }

  // ---- Batches ----

  ghost predicate AllClaimed(orders: Orders, ids: set<OrderId>) {
    forall o | o in ids :: o in orders && orders[o].state.ProcessingClaimed? && orders[o].batch.None? && orders[o].tx.None?
  }

  lemma CreateBatchKeeps(db: Db, worker: Worker, ids: seq<OrderId>, swaps: seq<OrderId>, b: BatchId, now: Time)
    requires Inv(db)
    ensures Inv(CreateBatch(db, worker, ids, swaps, b, now).0)
  {
    var (next, r) := CreateBatch(db, worker, ids, swaps, b, now);
    if r == Ok(Some(b)) {
      BatchableRows(db, worker, ids);
      BatchAddedAdmission(db, Ids(ids), b);
      BatchAddedPlaces(db.orders, db.batches, ids, b, now);
      BatchAddedShapes(db, ids, b, now);
      BatchAddedRows(db, Ids(ids), b);
    }
  }

  lemma BatchableRows(db: Db, worker: Worker, ids: seq<OrderId>)
    requires RowsOk(db.orders) && forall o | o in ids :: ClaimedBy(db, o, worker)
    ensures AllClaimed(db.orders, Ids(ids))
  {
    forall o | o in ids ensures db.orders[o].batch.None? && db.orders[o].tx.None? { assert RowOk(db.orders[o]); }
  }

  lemma BatchAddedAdmission(db: Db, ids: set<OrderId>, b: BatchId)
    requires AdmissionOk(db.leases, db.reservations, db.orders)
    ensures AdmissionOk(db.leases, db.reservations, BatchRows(db.orders, ids, b))
  {
    AdmissionFrame(db.leases, db.reservations, db.orders, BatchRows(db.orders, ids, b));
  }

  lemma BatchAddedPlaces(orders: Orders, batches: Batches, ids: seq<OrderId>, b: BatchId, now: Time)
    requires PlacedOk(orders, batches) && MembersOk(batches, orders) && ReconcilingOk(batches, orders)
    requires b !in batches && AllClaimed(orders, Ids(ids))
    ensures var next, batches' := BatchRows(orders, Ids(ids), b), batches[b := Batch(ids, Pending, None, None, false, now)];
            PlacedOk(next, batches') && MembersOk(batches', next) && ReconcilingOk(batches', next)
  {
    var next, batches' := BatchRows(orders, Ids(ids), b), batches[b := Batch(ids, Pending, None, None, false, now)];
    ReconcilingFrame(batches, orders, next);
    forall a, o | a in batches' && o in batches'[a].payload ensures o in next && next[o].batch == Some(a) {
      if a == b { assert o in Ids(ids); }
    }
  }

  lemma BatchAddedShapes(db: Db, ids: seq<OrderId>, b: BatchId, now: Time)
    requires BatchShapesOk(db.batches) && SingleFlight(db.batches) && TerminalBatchesOk(db.batches, db.outbox)
    requires ids != [] && Distinct(ids) && !AnyPending(db)
    ensures var batches' := db.batches[b := Batch(ids, Pending, None, None, false, now)];
            && BatchShapesOk(batches') && SingleFlight(batches')
            && TerminalBatchesOk(batches', db.outbox + {BatchPending(b)})
  {
  }

  lemma BatchAddedRows(db: Db, ids: set<OrderId>, b: BatchId)
    requires RowsOk(db.orders) && SubmittedOk(db.orders, db.submissions) && SubmissionsOk(db.submissions, db.orders)
    requires EventsOk(db.terminal, db.orders) && AllClaimed(db.orders, ids)
    ensures var next := BatchRows(db.orders, ids, b);
            && RowsOk(next) && SubmittedOk(next, db.submissions) && SubmissionsOk(db.submissions, next)
            && EventsOk(db.terminal, next)
  {
    BatchAddedSubmissions(db, ids, b);
    BatchAddedEvents(db.terminal, db.orders, ids, b);
  }

  lemma BatchAddedSubmissions(db: Db, ids: set<OrderId>, b: BatchId)
    requires SubmittedOk(db.orders, db.submissions) && SubmissionsOk(db.submissions, db.orders) && AllClaimed(db.orders, ids)
    ensures var next := BatchRows(db.orders, ids, b);
            SubmittedOk(next, db.submissions) && SubmissionsOk(db.submissions, next)
  {
  }

  lemma BatchAddedEvents(terminal: map<OrderId, TerminalKind>, orders: Orders, ids: set<OrderId>, b: BatchId)
    requires EventsOk(terminal, orders) && AllClaimed(orders, ids)
    ensures EventsOk(terminal, BatchRows(orders, ids, b))
  {
  }

  /** Claiming never meets the claimed-slot unique index. */
  lemma ClaimBatchSucceeds(db: Db, worker: Worker, now: Time, lease: Time)
    requires SingleFlight(db.batches)
    ensures ClaimBatch(db, worker, now, lease).1.Ok?
    ensures SingleFlight(ClaimBatch(db, worker, now, lease).0.batches)
  {
  }

  lemma ClaimBatchKeeps(db: Db, worker: Worker, now: Time, lease: Time)
    requires Inv(db)
    ensures Inv(ClaimBatch(db, worker, now, lease).0)
  {
    ClaimBatchSucceeds(db, worker, now, lease);
    var (next, r) := ClaimBatch(db, worker, now, lease);
    if r.Ok? && r.value.Some? {
      BatchClaimed(db, r.value.value, next.batches[r.value.value]);
    }
  }

  lemma BatchClaimed(db: Db, b: BatchId, row: Batch)
    requires PlacedOk(db.orders, db.batches) && MembersOk(db.batches, db.orders) && BatchShapesOk(db.batches)
    requires ReconcilingOk(db.batches, db.orders) && TerminalBatchesOk(db.batches, db.outbox)
    requires b in db.batches && (db.batches[b].state.Pending? || db.batches[b].state.Claimed?)
    requires row.payload == db.batches[b].payload && row.state.Claimed? && row.owner.Some? && row.until.Some?
    ensures var batches := db.batches[b := row];
            && PlacedOk(db.orders, batches) && MembersOk(batches, db.orders) && BatchShapesOk(batches)
            && ReconcilingOk(batches, db.orders) && TerminalBatchesOk(batches, db.outbox)
  {
    SamePayload(db.batches, b, row, db.orders);
  }

  /** Replacing a batch row by one with the same payload keeps membership. */
  lemma SamePayload(batches: Batches, b: BatchId, row: Batch, orders: Orders)
    requires MembersOk(batches, orders) && BatchShapesOk(batches) && b in batches && row.payload == batches[b].payload
    ensures MembersOk(batches[b := row], orders)
    ensures row.payload != [] && Distinct(row.payload)
  {
  }

  ghost predicate AllAwaiting(db: Db, b: BatchId, worker: Worker, ids: set<OrderId>) {
    forall o | o in ids :: AwaitsSubmission(db, b, o) && Owns(db, b, worker)
  }

  lemma SubmitMoves(db: Db, b: BatchId, worker: Worker, ids: set<OrderId>, tx: TxHash)
    requires RowsOk(db.orders) && AllAwaiting(db, b, worker, ids)
    ensures Moved(db.orders, SubmitRows(db.orders, ids, tx), ids, Some(b), {Batched}, Submitted)
  {
  }

  /** Where orders sit after a move out of `Batched` within a claimed batch. */
  lemma BatchedFrame(db: Db, next: Orders, ids: set<OrderId>, b: BatchId, worker: Worker, after: OrderState)
    requires AdmissionOk(db.leases, db.reservations, db.orders) && RowsOk(db.orders)
    requires PlacedOk(db.orders, db.batches) && MembersOk(db.batches, db.orders) && ReconcilingOk(db.batches, db.orders)
    requires Moved(db.orders, next, ids, Some(b), {Batched}, after)
    requires ids == {} || Owns(db, b, worker)
    requires after.Submitted? || after.Failed?
    ensures AdmissionOk(db.leases, db.reservations, next) && RowsOk(next)
    ensures PlacedOk(next, db.batches) && MembersOk(db.batches, next) && ReconcilingOk(db.batches, next)
  {
    MovedAdmission(db, next, ids, Some(b), {Batched}, after);
    MovedRows(db.orders, next, ids, Some(b), {Batched}, after);
    MovedPlaces(db.orders, next, db.batches, ids, Some(b), {Batched}, after);
    MovedReconciling(db.batches, db.orders, next, ids, Some(b), {Batched}, after);
  }

  lemma RecordSubmissionKeeps(db: Db, b: BatchId, worker: Worker, tx: TxHash, ids: seq<OrderId>)
    requires Inv(db)
    ensures Inv(RecordSubmission(db, b, worker, tx, ids).0)
  {
    if RecordSubmission(db, b, worker, tx, ids).0 != db {
      SubmitPlaces(db, b, worker, Ids(ids), tx);
      SubmitBooks(db, b, worker, Ids(ids), tx);
      SubmissionAdded(db, b, tx, ids);
    }
  }

  lemma SubmitPlaces(db: Db, b: BatchId, worker: Worker, ids: set<OrderId>, tx: TxHash)
    requires AdmissionOk(db.leases, db.reservations, db.orders) && RowsOk(db.orders)
    requires PlacedOk(db.orders, db.batches) && MembersOk(db.batches, db.orders) && ReconcilingOk(db.batches, db.orders)
    requires AllAwaiting(db, b, worker, ids) && Owns(db, b, worker)
    ensures var next := SubmitRows(db.orders, ids, tx);
            && AdmissionOk(db.leases, db.reservations, next) && RowsOk(next)
            && PlacedOk(next, db.batches) && MembersOk(db.batches, next) && ReconcilingOk(db.batches, next)
  {
    SubmitMoves(db, b, worker, ids, tx);
    BatchedFrame(db, SubmitRows(db.orders, ids, tx), ids, b, worker, Submitted);
  }

  lemma SubmitBooks(db: Db, b: BatchId, worker: Worker, ids: set<OrderId>, tx: TxHash)
    requires RowsOk(db.orders)
    requires EventsOk(db.terminal, db.orders) && AllAwaiting(db, b, worker, ids)
    ensures EventsOk(db.terminal, SubmitRows(db.orders, ids, tx))
  {
    SubmitMoves(db, b, worker, ids, tx);
    MovedLive(db.terminal, db.orders, SubmitRows(db.orders, ids, tx), ids, Some(b), {Batched}, Submitted);
  }

  lemma SubmissionAdded(db: Db, b: BatchId, tx: TxHash, ids: seq<OrderId>)
    requires SubmittedOk(db.orders, db.submissions) && SubmissionsOk(db.submissions, db.orders)
    requires tx !in db.submissions && forall o | o in Ids(ids) :: AwaitsSubmission(db, b, o)
    ensures var orders, submissions := SubmitRows(db.orders, Ids(ids), tx), db.submissions[tx := Submission(b, ids, Open)];
            SubmittedOk(orders, submissions) && SubmissionsOk(submissions, orders)
  {
    var orders, submissions := SubmitRows(db.orders, Ids(ids), tx), db.submissions[tx := Submission(b, ids, Open)];
    forall o | o in orders && orders[o].state.Submitted?
      ensures orders[o].tx.Some? && orders[o].batch.Some? && Lists(submissions, orders[o].tx.value, orders[o].batch.value, o)
    {
      if o !in Ids(ids) { assert Lists(db.submissions, db.orders[o].tx.value, db.orders[o].batch.value, o); }
    }
    forall t, o | t in submissions && submissions[t].state.Open? && o in submissions[t].orders
      ensures o in orders && orders[o].state.Submitted? && orders[o].tx == Some(t) && orders[o].batch == Some(submissions[t].batch)
    {
      if t == tx { assert o in Ids(ids); } else { assert o !in Ids(ids); }
    }
  }

  lemma FailBatchedMoves(db: Db, b: BatchId, worker: Worker, ids: set<OrderId>, reason: Reason)
    requires AllAwaiting(db, b, worker, ids)
    ensures Moved(db.orders, FailBatchedRows(db.orders, ids, reason), ids, Some(b), {Batched}, Failed)
    ensures ids == {} || Owns(db, b, worker)
  {
  }

  lemma FailBatchedKeeps(db: Db, b: BatchId, worker: Worker, ids: set<OrderId>, reason: Reason)
    requires Inv(db) && AllAwaiting(db, b, worker, ids)
    ensures Inv(FailBatched(db, ids, reason))
  {
    FailBatchedPlaces(db, b, worker, ids, reason);
    FailBatchedBooks(db, b, worker, ids, reason);
  }

  lemma FailBatchedPlaces(db: Db, b: BatchId, worker: Worker, ids: set<OrderId>, reason: Reason)
    requires AdmissionOk(db.leases, db.reservations, db.orders) && RowsOk(db.orders)
    requires PlacedOk(db.orders, db.batches) && MembersOk(db.batches, db.orders) && ReconcilingOk(db.batches, db.orders)
    requires AllAwaiting(db, b, worker, ids)
    ensures var next := FailBatchedRows(db.orders, ids, reason);
            && AdmissionOk(db.leases, db.reservations, next) && RowsOk(next)
            && PlacedOk(next, db.batches) && MembersOk(db.batches, next) && ReconcilingOk(db.batches, next)
  {
    FailBatchedMoves(db, b, worker, ids, reason);
    BatchedFrame(db, FailBatchedRows(db.orders, ids, reason), ids, b, worker, Failed);
  }

  lemma FailBatchedBooks(db: Db, b: BatchId, worker: Worker, ids: set<OrderId>, reason: Reason)
    requires SubmittedOk(db.orders, db.submissions) && SubmissionsOk(db.submissions, db.orders)
    requires EventsOk(db.terminal, db.orders) && AllAwaiting(db, b, worker, ids)
    ensures var next := FailBatchedRows(db.orders, ids, reason);
            && SubmittedOk(next, db.submissions) && SubmissionsOk(db.submissions, next)
            && EventsOk(Close(db.terminal, ids, FailedEvent), next)
  {
    var next := FailBatchedRows(db.orders, ids, reason);
    FailBatchedMoves(db, b, worker, ids, reason);
    MovedSubmissions(db.submissions, db.orders, next, ids, Some(b), {Batched}, Failed);
    MovedEvents(db.terminal, db.orders, next, ids, Some(b), {Batched}, Failed);
  }

  // ---- Reconciliation ----

  /** The invariant, except that reconciling batch `b` may have run out of submitted orders. */
  ghost predicate AlmostInv(db: Db, b: BatchId) {
    && LeasesOk(db.allocators, db.leases)
    && AdmissionOk(db.leases, db.reservations, db.orders)
    && RowsOk(db.orders)
    && PlacedOk(db.orders, db.batches)
    && MembersOk(db.batches, db.orders)
    && BatchShapesOk(db.batches)
    && ReconcilingOk(db.batches - {b}, db.orders)
    && TerminalBatchesOk(db.batches, db.outbox)
    && SubmittedOk(db.orders, db.submissions)
    && SubmissionsOk(db.submissions, db.orders)
    && EventsOk(db.terminal, db.orders)
    && SingleFlight(db.batches)
  }

  lemma FinalizeKeeps(db: Db, b: BatchId)
    requires AlmostInv(db, b)
    ensures Inv(FinalizeIfReady(db, b))
  {
    ReconcilingRejoins(db, b);
    BatchFinalized(db, b);
  }

  lemma ReconcilingRejoins(db: Db, b: BatchId)
    requires PlacedOk(db.orders, db.batches) && ReconcilingOk(db.batches - {b}, db.orders)
    ensures ReconcilingOk(FinalizeIfReady(db, b).batches, db.orders)
  {
    var batches := FinalizeIfReady(db, b).batches;
    forall a | a in batches && batches[a].state.Reconciling? ensures HasSubmitted(batches[a], db.orders) {
      if a == b { StillWaiting(db, b); } else { assert (db.batches - {b})[a] == batches[a]; }
    }
  }

  /** A reconciling batch that is not finalized has a submitted order left. */
  lemma StillWaiting(db: Db, b: BatchId)
    requires PlacedOk(db.orders, db.batches)
    requires b in FinalizeIfReady(db, b).batches && FinalizeIfReady(db, b).batches[b].state.Reconciling?
    ensures HasSubmitted(FinalizeIfReady(db, b).batches[b], db.orders)
  {
    var o :| o in db.orders && db.orders[o].batch == Some(b) && !IsTerminal(db.orders[o].state);
    assert Compatible(db.orders[o].state, db.batches[b].state);
  }

  lemma BatchFinalized(db: Db, b: BatchId)
    requires PlacedOk(db.orders, db.batches) && MembersOk(db.batches, db.orders) && BatchShapesOk(db.batches)
    requires TerminalBatchesOk(db.batches, db.outbox) && SingleFlight(db.batches)
    ensures var next := FinalizeIfReady(db, b);
            && PlacedOk(next.orders, next.batches) && MembersOk(next.batches, next.orders) && BatchShapesOk(next.batches)
            && TerminalBatchesOk(next.batches, next.outbox) && SingleFlight(next.batches)
  {
    var next := FinalizeIfReady(db, b);
    if next != db { SamePayload(db.batches, b, next.batches[b], db.orders); }
  }

  lemma BeginReconciliationKeeps(db: Db, b: BatchId, worker: Worker)
    requires Inv(db)
    ensures Inv(BeginReconciliation(db, b, worker).0)
  {
    if BeginReconciliation(db, b, worker).1 == Ok(true) {
      BatchReconciles(db, b, worker);
      FinalizeKeeps(db.(batches := Reconcile(db.batches, b)), b);
    }
  }

  lemma BatchReconciles(db: Db, b: BatchId, worker: Worker)
    requires PlacedOk(db.orders, db.batches) && MembersOk(db.batches, db.orders) && BatchShapesOk(db.batches)
    requires ReconcilingOk(db.batches, db.orders) && TerminalBatchesOk(db.batches, db.outbox) && SingleFlight(db.batches)
    requires Owns(db, b, worker) && !exists o :: o in db.orders && AwaitsSubmission(db, b, o)
    ensures var batches := Reconcile(db.batches, b);
            && PlacedOk(db.orders, batches) && MembersOk(batches, db.orders) && BatchShapesOk(batches)
            && ReconcilingOk(batches - {b}, db.orders) && TerminalBatchesOk(batches, db.outbox) && SingleFlight(batches)
  {
    var batches := Reconcile(db.batches, b);
    SamePayload(db.batches, b, batches[b], db.orders);
    forall o | o in db.orders && db.orders[o].batch.Some?
      ensures Compatible(db.orders[o].state, batches[db.orders[o].batch.value].state)
    {
      assert !AwaitsSubmission(db, b, o);
    }
    assert forall a | a in batches - {b} :: (batches - {b})[a] == db.batches[a];
  }

  function Resolution(reason: Option<Reason>): OrderState { if reason.None? then Confirmed else Failed }

  lemma ResolveKeeps(db: Db, tx: TxHash, reason: Option<Reason>)
    requires Inv(db)
    ensures Inv(ResolveSubmission(db, tx, reason).0)
  {
    if tx in db.submissions && db.submissions[tx].state.Open? {
      SettledMoves(db, tx, reason);
      SettledPlaces(db, tx, reason);
      SettledEvents(db, tx, reason);
      SettledReconciling(db, tx, reason);
      SettledSubmissions(db, tx, reason);
      FinalizeKeeps(Settled(db, tx, reason), db.submissions[tx].batch);
    }
  }

  lemma SettledPlaces(db: Db, tx: TxHash, reason: Option<Reason>)
    requires AdmissionOk(db.leases, db.reservations, db.orders) && RowsOk(db.orders)
    requires PlacedOk(db.orders, db.batches) && MembersOk(db.batches, db.orders)
    requires tx in db.submissions && SettlesListed(db, tx, reason)
    ensures var next := Settled(db, tx, reason).orders;
            && AdmissionOk(db.leases, db.reservations, next) && RowsOk(next)
            && PlacedOk(next, db.batches) && MembersOk(db.batches, next)
  {
    var next, ids, b, after := Settled(db, tx, reason).orders, Ids(db.submissions[tx].orders), Some(db.submissions[tx].batch), Resolution(reason);
    MovedAdmission(db, next, ids, b, {Submitted}, after);
    MovedPlaces(db.orders, next, db.batches, ids, b, {Submitted}, after);
    MovedRows(db.orders, next, ids, b, {Submitted}, after);
  }

  lemma SettledEvents(db: Db, tx: TxHash, reason: Option<Reason>)
    requires EventsOk(db.terminal, db.orders) && tx in db.submissions && SettlesListed(db, tx, reason)
    ensures var s := Settled(db, tx, reason); EventsOk(s.terminal, s.orders)
  {
    var s, ids, b := Settled(db, tx, reason), Ids(db.submissions[tx].orders), Some(db.submissions[tx].batch);
    MovedEvents(db.terminal, db.orders, s.orders, ids, b, {Submitted}, Resolution(reason));
  }

  ghost predicate SettlesListed(db: Db, tx: TxHash, reason: Option<Reason>)
    requires tx in db.submissions
  {
    var ids, b := Ids(db.submissions[tx].orders), db.submissions[tx].batch;
    && Moved(db.orders, Settled(db, tx, reason).orders, ids, Some(b), {Submitted}, Resolution(reason))
    && (ids != {} ==> b in db.batches && Compatible(Resolution(reason), db.batches[b].state))
  }

  /** Settling a submission moves exactly the orders it lists, all of them submitted before. */
  lemma SettledMoves(db: Db, tx: TxHash, reason: Option<Reason>)
    requires RowsOk(db.orders) && PlacedOk(db.orders, db.batches) && SubmissionsOk(db.submissions, db.orders)
    requires tx in db.submissions && db.submissions[tx].state.Open?
    ensures SettlesListed(db, tx, reason)
  {
    ListedSubmitted(db, tx);
    ResolveMoves(db.orders, Ids(db.submissions[tx].orders), tx, db.submissions[tx].batch, reason);
    if db.submissions[tx].orders != [] {
      var o := db.submissions[tx].orders[0];
      assert o in Ids(db.submissions[tx].orders);
    }
  }

  ghost predicate AllSubmitted(orders: Orders, ids: set<OrderId>, tx: TxHash, b: BatchId) {
    forall o | o in ids :: o in orders && orders[o].state.Submitted? && orders[o].tx == Some(tx) && orders[o].batch == Some(b)
  }

  lemma ListedSubmitted(db: Db, tx: TxHash)
    requires SubmissionsOk(db.submissions, db.orders) && tx in db.submissions && db.submissions[tx].state.Open?
    ensures AllSubmitted(db.orders, Ids(db.submissions[tx].orders), tx, db.submissions[tx].batch)
  {
  }

  lemma ResolveMoves(orders: Orders, ids: set<OrderId>, tx: TxHash, b: BatchId, reason: Option<Reason>)
    requires RowsOk(orders) && AllSubmitted(orders, ids, tx, b)
    ensures Moved(orders, ResolveRows(orders, ids, tx, Resolution(reason), reason), ids, Some(b), {Submitted}, Resolution(reason))
  {
  }

  lemma SettledReconciling(db: Db, tx: TxHash, reason: Option<Reason>)
    requires MembersOk(db.batches, db.orders) && ReconcilingOk(db.batches, db.orders)
    requires SubmissionsOk(db.submissions, db.orders)
    requires tx in db.submissions && db.submissions[tx].state.Open?
    ensures ReconcilingOk(db.batches - {db.submissions[tx].batch}, Settled(db, tx, reason).orders)
  {
    var next, rest := Settled(db, tx, reason).orders, db.batches - {db.submissions[tx].batch};
    forall a | a in rest && rest[a].state.Reconciling? ensures HasSubmitted(rest[a], next) {
      assert HasSubmitted(db.batches[a], db.orders);
      var o :| o in db.batches[a].payload && o in db.orders && db.orders[o].state.Submitted?;
      assert db.orders[o].batch == Some(a);
      assert next[o] == db.orders[o];
    }
  }

  lemma SettledSubmissions(db: Db, tx: TxHash, reason: Option<Reason>)
    requires SubmittedOk(db.orders, db.submissions) && SubmissionsOk(db.submissions, db.orders)
    requires tx in db.submissions && db.submissions[tx].state.Open?
    ensures var s := Settled(db, tx, reason); SubmittedOk(s.orders, s.submissions) && SubmissionsOk(s.submissions, s.orders)
  {
    OthersStillSubmitted(db, tx, reason);
    var s := Settled(db, tx, reason);
    forall o | o in s.orders && s.orders[o].state.Submitted?
      ensures s.orders[o].tx.Some? && s.orders[o].batch.Some? && Lists(s.submissions, s.orders[o].tx.value, s.orders[o].batch.value, o)
    {
      StillListed(db, tx, reason, o);
    }
  }

  lemma OthersStillSubmitted(db: Db, tx: TxHash, reason: Option<Reason>)
    requires SubmissionsOk(db.submissions, db.orders) && tx in db.submissions && db.submissions[tx].state.Open?
    ensures var s := Settled(db, tx, reason); SubmissionsOk(s.submissions, s.orders)
  {
    var s := Settled(db, tx, reason);
    forall t, o | t in s.submissions && s.submissions[t].state.Open? && o in s.submissions[t].orders
      ensures o in s.orders && s.orders[o] == db.orders[o]
    {
      assert t in db.submissions && o in db.submissions[t].orders;
    }
  }

  lemma StillListed(db: Db, tx: TxHash, reason: Option<Reason>, o: OrderId)
    requires SubmittedOk(db.orders, db.submissions) && tx in db.submissions && db.submissions[tx].state.Open?
    requires o in db.orders && Settled(db, tx, reason).orders[o].state.Submitted?
    ensures var s := Settled(db, tx, reason);
            s.orders[o] == db.orders[o] && Lists(s.submissions, s.orders[o].tx.value, s.orders[o].batch.value, o)
  {
    assert Lists(db.submissions, db.orders[o].tx.value, db.orders[o].batch.value, o);
  }

  lemma MarkDeliveredKeeps(db: Db, wakeup: Wakeup)
    requires Inv(db)
    ensures Inv(MarkDelivered(db, wakeup).0)
  {
  }

  // ---- Transactions that fail orders ----

  lemma FailClaimedKeeps(db: Db, o: OrderId, worker: Worker, reason: Reason)
    requires Inv(db)
    ensures Inv(FailClaimed(db, o, worker, reason).0)
  {
    if ClaimedBy(db, o, worker) { FailOrdersKeeps(db, {o}, reason); }
  }

  lemma FailByIdsKeeps(db: Db, ids: seq<OrderId>, reason: Reason)
    requires Inv(db)
    ensures Inv(FailByIds(db, ids, reason).0)
  {
    FailOrdersKeeps(db, QueuedAmong(db, ids), reason);
  }

  lemma MarkFailedKeeps(db: Db, b: BatchId, worker: Worker, ids: seq<OrderId>, reason: Reason)
    requires Inv(db)
    ensures Inv(MarkPreSubmissionFailed(db, b, worker, ids, reason))
  {
    FailBatchedKeeps(db, b, worker, AwaitingAmong(db, b, worker, ids), reason);
  }

  lemma FailRemainingKeeps(db: Db, b: BatchId, worker: Worker, reason: Reason)
    requires Inv(db)
    ensures Inv(FailRemaining(db, b, worker, reason).0)
  {
    FailBatchedKeeps(db, b, worker, Awaiting(db, b, worker), reason);
  }

  /** The processor's status write touches only swap rows. */
  lemma FailSwapKeeps(db: Db, o: OrderId)
    requires Inv(db)
    ensures Inv(FailSwap(db, o))
  {
  }
}
