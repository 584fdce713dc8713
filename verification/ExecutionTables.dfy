/**
 The durable execution tables (src/execution_store.rs) as values, and every transaction as a
 function from the tables before to the tables after. Each transaction is stated in closed form:
 what a loop over order ids does is written as one simultaneous change of the affected rows. A
 transaction that returns an error leaves the tables as they were.
 */
module ExecutionTables {
  import opened Basics
  import opened ClientOrderId

  type User = nat
  type OrderId = nat
  type BatchId = nat
  type Worker = nat
  type TxHash = nat
  type Commitment = nat
  type Time = nat
  type Reason = string

  datatype OrderState =
    Admitted | ProcessingClaimed | Batched | Submitted | Confirmed | Executed | Failed

  datatype Order = Order(
    client: Uuid, user: User, nonce: nat, state: OrderState,
    owner: Option<Worker>, until: Option<Time>,
    batch: Option<BatchId>, tx: Option<TxHash>, error: Option<Reason>, createdAt: Time)

  datatype BatchState = Pending | Claimed | Reconciling | Terminal

  datatype Batch = Batch(
    payload: seq<OrderId>, state: BatchState,
    owner: Option<Worker>, until: Option<Time>, hasError: bool, createdAt: Time)

  datatype SubmissionState = Open | Included | Dropped

  datatype Submission = Submission(batch: BatchId, orders: seq<OrderId>, state: SubmissionState)

  datatype SwapStatus = Proposed | SwapSubmitted | SwapConfirmed | SwapFailed

  datatype Lease = Lease(user: User, nonce: nat)

  datatype Reservation = Reservation(commitment: Commitment, order: OrderId)

  /** A non-terminal lifecycle event, identified by its dedupe key: one per order, except that
      every claim by a worker at a time has its own. */
  datatype Progress =
    | AdmittedEvent(order: OrderId)
    | ClaimedEvent(order: OrderId, worker: Worker, at: Time)
    | BatchedEvent(order: OrderId)
    | SubmittedEvent(order: OrderId)

  /** The kind recorded under an order's one terminal dedupe key. */
  datatype TerminalKind = ConfirmedEvent | FailedEvent

  datatype Wakeup = OrderAdmitted(order: OrderId) | BatchPending(batch: BatchId) | BatchTerminal(batch: BatchId)

  datatype Db = Db(
    allocators: map<User, nat>,
    leases: map<Uuid, Lease>,
    reservations: map<Uuid, Reservation>,
    orders: map<OrderId, Order>,
    batches: map<BatchId, Batch>,
    submissions: map<TxHash, Submission>,
    accounting: map<OrderId, SwapStatus>,
    progress: set<Progress>,
    terminal: map<OrderId, TerminalKind>,
    outbox: set<Wakeup>,
    delivered: set<Wakeup>)

  const EMPTY := Db(map[], map[], map[], map[], map[], map[], map[], {}, map[], {}, {})

  datatype TxError =
    | NonceOverflow | UnknownNonceLease | NonceLeaseConflict | QueueFull | ConstraintViolation
    | LengthMismatch | SwapMismatch | NotClaimed | NotAwaitingSubmission | UnsubmittedOrders
    | MissingRow | NonTerminalOrder

  datatype Intent = New(order: OrderId) | Existing(order: OrderId) | Conflict

  predicate IsTerminal(s: OrderState) { s.Confirmed? || s.Executed? || s.Failed? }

  predicate IsQueued(s: OrderState) { s.Admitted? || s.ProcessingClaimed? }

  function Ids(s: seq<OrderId>): set<OrderId> { set o | o in s }

  // ---- Row-level helpers ----

  /** `INSERT OR IGNORE` of one terminal event per order: rows already present win. */
  function Close(terminal: map<OrderId, TerminalKind>, ids: set<OrderId>, kind: TerminalKind)
    : map<OrderId, TerminalKind>
  {
    (map o | o in ids :: kind) + terminal
  }

  /** The queued wake-ups of the given orders. */
  function AdmittedWakeups(outbox: set<Wakeup>, ids: set<OrderId>): set<Wakeup>
  {
    set w | w in outbox && w.OrderAdmitted? && w.order in ids
  }

  /** Orders that fail before any submission. */
  function FailRows(orders: map<OrderId, Order>, ids: set<OrderId>, reason: Reason): map<OrderId, Order>
  {
    map o | o in orders ::
      if o in ids then orders[o].(state := Failed, error := Some(reason), owner := None, until := None)
      else orders[o]
  }

  function Settle(accounting: map<OrderId, SwapStatus>, ids: set<OrderId>, before: SwapStatus, after: SwapStatus)
    : map<OrderId, SwapStatus>
  {
    map o | o in accounting :: if o in ids && accounting[o] == before then after else accounting[o]
  }

  predicate Owns(db: Db, b: BatchId, worker: Worker) {
    b in db.batches && db.batches[b].state.Claimed? && db.batches[b].owner == Some(worker)
  }

  predicate AnyPending(db: Db) { exists b :: b in db.batches && db.batches[b].state.Pending? }

  predicate AnyClaimed(db: Db) { exists b :: b in db.batches && db.batches[b].state.Claimed? }

  predicate AwaitsSubmission(db: Db, b: BatchId, o: OrderId) {
    o in db.orders && db.orders[o].batch == Some(b) && db.orders[o].state.Batched?
  }

  predicate ClaimedBy(db: Db, o: OrderId, worker: Worker) {
    o in db.orders && db.orders[o].state.ProcessingClaimed? && db.orders[o].owner == Some(worker)
  }

  // ---- Nonce leases and admission ----

  function NextNonce(db: Db, user: User): nat { if user in db.allocators then db.allocators[user] else 0 }

  function AllocateLease(db: Db, user: User, random: seq<Byte>): (Db, Result<Uuid, TxError>)
    requires |random| == 12
  {
    var nonce := NextNonce(db, user);
    if nonce >= U32_LIMIT then (db, Err(NonceOverflow))
    else
      var client := ForNonce(nonce, random);
      if client in db.leases || exists c :: c in db.leases && db.leases[c] == Lease(user, nonce)
      then (db, Err(ConstraintViolation))
      else (db.(allocators := db.allocators[user := nonce + 1],
                leases := db.leases[client := Lease(user, nonce)]),
            Ok(client))
  }

  function ValidateLease(db: Db, client: Uuid, user: User): Result<nat, TxError>
  {
    if client !in db.leases then Err(UnknownNonceLease)
    else if db.leases[client].user != user || db.leases[client].nonce != NonceOf(client)
    then Err(NonceLeaseConflict)
    else Ok(db.leases[client].nonce)
  }

  function QueuedOrders(db: Db): set<OrderId> { set o | o in db.orders && IsQueued(db.orders[o].state) }

  function FreshOrder(client: Uuid, user: User, nonce: nat, now: Time): Order {
    Order(client, user, nonce, Admitted, None, None, None, None, None, now)
  }

  /** The rows written for a newly admitted order. */
  function InsertOrder(db: Db, id: OrderId, order: Order): Db
  {
    db.(orders := db.orders[id := order],
        progress := db.progress + {AdmittedEvent(id)},
        outbox := db.outbox + {OrderAdmitted(id)})
  }

  function Admit(db: Db, client: Uuid, commitment: Commitment, id: OrderId, user: User, now: Time, limit: nat)
    : (Db, Result<Intent, TxError>)
  {
    match ValidateLease(db, client, user)
    case Err(e) => (db, Err(e))
    case Ok(nonce) =>
      if client in db.reservations then
        var r := db.reservations[client];
        if r.commitment != commitment then (db, Ok(Conflict))
        else if r.order in db.orders then (db, Ok(Existing(r.order)))
        else if ClientTaken(db, client) then (db, Err(ConstraintViolation))
        else (InsertOrder(db, r.order, FreshOrder(client, user, nonce, now)), Ok(Existing(r.order)))
      else if |QueuedOrders(db)| >= limit then (db, Err(QueueFull))
      else if id in db.orders || ReservedOrder(db, id) || ClientTaken(db, client) then (db, Err(ConstraintViolation))
      else
        var reserved := db.(reservations := db.reservations[client := Reservation(commitment, id)]);
        (InsertOrder(reserved, id, FreshOrder(client, user, nonce, now)), Ok(New(id)))
  }

  predicate ReservedOrder(db: Db, id: OrderId) {
    exists c :: c in db.reservations && db.reservations[c].order == id
  }

  predicate ClientTaken(db: Db, client: Uuid) {
    exists o :: o in db.orders && db.orders[o].client == client
  }

  // ---- Claiming and failing queued orders ----

  predicate Eligible(db: Db, o: OrderId, now: Time) {
    && o in db.orders
    && (|| db.orders[o].state.Admitted?
        || (db.orders[o].state.ProcessingClaimed? && db.orders[o].until.Some? && db.orders[o].until.value < now))
  }

  function EligibleOrders(db: Db, now: Time): set<OrderId> { set o | o in db.orders && Eligible(db, o, now) }

  /** `ORDER BY created_at, order_id` */
  predicate Before(orders: map<OrderId, Order>, a: OrderId, b: OrderId)
    requires a in orders && b in orders
  {
    orders[a].createdAt < orders[b].createdAt || (orders[a].createdAt == orders[b].createdAt && a <= b)
  }

  predicate IsEarliest(orders: map<OrderId, Order>, s: set<OrderId>, o: OrderId)
    requires s <= orders.Keys
  {
    o in s && forall x | x in s :: Before(orders, o, x)
  }

  lemma {:induction false} EarliestExists(orders: map<OrderId, Order>, s: set<OrderId>)
    requires s <= orders.Keys && s != {}
    ensures exists o :: IsEarliest(orders, s, o)
  {
    var x :| x in s;
    if s == {x} {
      assert IsEarliest(orders, s, x);
    } else {
      EarliestExists(orders, s - {x});
      var o :| IsEarliest(orders, s - {x}, o);
      if Before(orders, x, o) {
        forall y | y in s ensures Before(orders, x, y) {
          if y != x { assert y in s - {x} && Before(orders, o, y); }
        }
        assert IsEarliest(orders, s, x);
      } else {
        assert IsEarliest(orders, s, o);
      }
    }
  }

  /** The first `n` rows of `s` in query order. */
  ghost function Earliest(orders: map<OrderId, Order>, s: set<OrderId>, n: nat): seq<OrderId>
    requires s <= orders.Keys
  {
    if n == 0 || s == {} then []
    else
      EarliestExists(orders, s);
      var o :| IsEarliest(orders, s, o);
      [o] + Earliest(orders, s - {o}, n - 1)
  }

  function ClaimRows(orders: map<OrderId, Order>, ids: set<OrderId>, worker: Worker, until: Time): map<OrderId, Order>
  {
    map o | o in orders ::
      if o in ids then orders[o].(state := ProcessingClaimed, owner := Some(worker), until := Some(until))
      else orders[o]
  }

  function ClaimPicked(db: Db, ids: set<OrderId>, worker: Worker, now: Time, until: Time): Db
  {
    db.(orders := ClaimRows(db.orders, ids, worker, until),
        progress := db.progress + set o | o in ids :: ClaimedEvent(o, worker, now),
        delivered := db.delivered + AdmittedWakeups(db.outbox, ids))
  }

  ghost function ClaimAdmitted(db: Db, worker: Worker, now: Time, lease: Time, limit: nat): (Db, seq<OrderId>)
  {
    if AnyPending(db) then (db, [])
    else
      var picked := Earliest(db.orders, EligibleOrders(db, now), limit);
      (ClaimPicked(db, Ids(picked), worker, now, now + lease), picked)
  }

  /** Fails the given orders and records their terminal events. */
  function FailOrders(db: Db, ids: set<OrderId>, reason: Reason): Db
  {
    db.(orders := FailRows(db.orders, ids, reason),
        terminal := Close(db.terminal, ids, FailedEvent))
  }

  function FailClaimed(db: Db, o: OrderId, worker: Worker, reason: Reason): (Db, bool)
  {
    if ClaimedBy(db, o, worker) then (FailOrders(db, {o}, reason), true) else (db, false)
  }

  function QueuedAmong(db: Db, ids: seq<OrderId>): set<OrderId> {
    set o | o in ids && o in db.orders && IsQueued(db.orders[o].state)
  }

  function FailByIds(db: Db, ids: seq<OrderId>, reason: Reason): (Db, nat)
  {
    (FailOrders(db, QueuedAmong(db, ids), reason), |QueuedAmong(db, ids)|)
  }

  // ---- Batches ----

  function BatchRows(orders: map<OrderId, Order>, ids: set<OrderId>, b: BatchId): map<OrderId, Order>
  {
    map o | o in orders ::
      if o in ids then orders[o].(state := Batched, batch := Some(b), owner := None, until := None)
      else orders[o]
  }

  /** `INSERT ... ON CONFLICT DO NOTHING` */
  function ProposeAll(accounting: map<OrderId, SwapStatus>, ids: set<OrderId>): map<OrderId, SwapStatus>
  {
    (map o | o in ids :: Proposed) + accounting
  }

  ghost function CreateBatch(db: Db, worker: Worker, ids: seq<OrderId>, swaps: seq<OrderId>, b: BatchId, now: Time)
    : (Db, Result<Option<BatchId>, TxError>)
  {
    if ids == [] then (db, Ok(None))
    else if |ids| != |swaps| then (db, Err(LengthMismatch))
    else if ids != swaps then (db, Err(SwapMismatch))
    else if !Distinct(ids) || exists o :: o in ids && !ClaimedBy(db, o, worker) then (db, Err(NotClaimed))
    else if b in db.batches || AnyPending(db) then (db, Err(ConstraintViolation))
    else
      (db.(orders := BatchRows(db.orders, Ids(ids), b),
           progress := db.progress + set o | o in ids :: BatchedEvent(o),
           accounting := ProposeAll(db.accounting, Ids(ids)),
           batches := db.batches[b := Batch(ids, Pending, None, None, false, now)],
           outbox := db.outbox + {BatchPending(b)}),
       Ok(Some(b)))
  }

  /** The two partial unique indexes: at most one pending and at most one claimed batch. */
  ghost predicate SingleFlight(batches: map<BatchId, Batch>) {
    && (forall a, b | a in batches && b in batches && batches[a].state.Pending? && batches[b].state.Pending? :: a == b)
    && (forall a, b | a in batches && b in batches && batches[a].state.Claimed? && batches[b].state.Claimed? :: a == b)
  }

  predicate ExpiredClaim(db: Db, b: BatchId, now: Time) {
    b in db.batches && db.batches[b].state.Claimed? && db.batches[b].until.Some? && db.batches[b].until.value < now
  }

  predicate LiveClaim(db: Db, now: Time) {
    exists b :: b in db.batches && db.batches[b].state.Claimed? && !ExpiredClaim(db, b, now)
  }

  /** The row the claim query returns: an expired claim first, else a pending batch when no claim
      is live. */
  ghost predicate Claimable(db: Db, b: BatchId, now: Time) {
    || ExpiredClaim(db, b, now)
    || (&& b in db.batches && db.batches[b].state.Pending?
        && !LiveClaim(db, now)
        && !(exists c :: ExpiredClaim(db, c, now)))
  }

  /** Takes or takes over a batch. The error is the claimed-slot unique index firing. */
  ghost function ClaimBatch(db: Db, worker: Worker, now: Time, lease: Time): (Db, Result<Option<BatchId>, TxError>)
  {
    if !(exists b :: Claimable(db, b, now)) then (db, Ok(None))
    else
      var b :| Claimable(db, b, now);
      if db.batches[b].state.Pending? && AnyClaimed(db) then (db, Err(ConstraintViolation))
      else
        (db.(batches := db.batches[b := db.batches[b].(state := Claimed, owner := Some(worker), until := Some(now + lease))],
             delivered := db.delivered + ({BatchPending(b)} * db.outbox)),
         Ok(Some(b)))
  }

  /** The orders a claimant still has to submit, in payload order. */
  function Unsubmitted(db: Db, b: BatchId, payload: seq<OrderId>): Result<seq<OrderId>, TxError>
  {
    if payload == [] then Ok([])
    else
      var o := payload[0];
      if o !in db.orders || db.orders[o].batch != Some(b) then Err(MissingRow)
      else
        match Unsubmitted(db, b, payload[1..])
        case Err(e) => Err(e)
        case Ok(rest) => Ok(if db.orders[o].state.Batched? then [o] + rest else rest)
  }

  // ---- Submission, failure and reconciliation of a claimed batch ----

  function SubmitRows(orders: map<OrderId, Order>, ids: set<OrderId>, tx: TxHash): map<OrderId, Order>
  {
    map o | o in orders :: if o in ids then orders[o].(state := Submitted, tx := Some(tx)) else orders[o]
  }

  ghost function RecordSubmission(db: Db, b: BatchId, worker: Worker, tx: TxHash, ids: seq<OrderId>)
    : (Db, Result<bool, TxError>)
  {
    if !Owns(db, b, worker) then (db, Ok(false))
    else if tx in db.submissions then (db, Ok(true))
    else if !Distinct(ids) || exists o :: o in ids && !AwaitsSubmission(db, b, o) then (db, Err(NotAwaitingSubmission))
    else
      (db.(submissions := db.submissions[tx := Submission(b, ids, Open)],
           orders := SubmitRows(db.orders, Ids(ids), tx),
           accounting := Settle(db.accounting, Ids(ids), Proposed, SwapSubmitted),
           progress := db.progress + set o | o in ids :: SubmittedEvent(o)),
       Ok(true))
  }

  function FailBatchedRows(orders: map<OrderId, Order>, ids: set<OrderId>, reason: Reason): map<OrderId, Order>
  {
    map o | o in orders :: if o in ids then orders[o].(state := Failed, error := Some(reason)) else orders[o]
  }

  /** Fails batched orders together with their proposed swaps. */
  function FailBatched(db: Db, ids: set<OrderId>, reason: Reason): Db
  {
    db.(orders := FailBatchedRows(db.orders, ids, reason),
        accounting := Settle(db.accounting, ids, Proposed, SwapFailed),
        terminal := Close(db.terminal, ids, FailedEvent))
  }

  function AwaitingAmong(db: Db, b: BatchId, worker: Worker, ids: seq<OrderId>): set<OrderId> {
    set o | o in ids && AwaitsSubmission(db, b, o) && Owns(db, b, worker)
  }

  function MarkPreSubmissionFailed(db: Db, b: BatchId, worker: Worker, ids: seq<OrderId>, reason: Reason): Db
  {
    FailBatched(db, AwaitingAmong(db, b, worker, ids), reason)
  }

  function Awaiting(db: Db, b: BatchId, worker: Worker): set<OrderId> {
    set o | o in db.orders && AwaitsSubmission(db, b, o) && Owns(db, b, worker)
  }

  ghost function FailRemaining(db: Db, b: BatchId, worker: Worker, reason: Reason): (Db, seq<OrderId>)
  {
    var s := Awaiting(db, b, worker);
    (FailBatched(db, s, reason), Earliest(db.orders, s, |s|))
  }

  function FinalizeIfReady(db: Db, b: BatchId): Db
  {
    if exists o :: o in db.orders && db.orders[o].batch == Some(b) && !IsTerminal(db.orders[o].state) then db
    else if b in db.batches && (db.batches[b].state.Claimed? || db.batches[b].state.Reconciling?) then
      var hasError := exists o :: o in db.orders && db.orders[o].batch == Some(b) && db.orders[o].error.Some?;
      db.(batches := db.batches[b := db.batches[b].(state := Terminal, owner := None, until := None, hasError := hasError)],
          outbox := db.outbox + {BatchTerminal(b)})
    else db
  }

  function Reconcile(batches: map<BatchId, Batch>, b: BatchId): map<BatchId, Batch>
    requires b in batches
  {
    batches[b := batches[b].(state := Reconciling, owner := None, until := None)]
  }

  function BeginReconciliation(db: Db, b: BatchId, worker: Worker): (Db, Result<bool, TxError>)
  {
    if exists o :: o in db.orders && AwaitsSubmission(db, b, o) then (db, Err(UnsubmittedOrders))
    else if !Owns(db, b, worker) then (db, Ok(false))
    else (FinalizeIfReady(db.(batches := Reconcile(db.batches, b)), b), Ok(true))
  }

  function ResolveRows(orders: map<OrderId, Order>, ids: set<OrderId>, tx: TxHash, state: OrderState, reason: Option<Reason>)
    : map<OrderId, Order>
  {
    map o | o in orders ::
      if o in ids && orders[o].state.Submitted? && orders[o].tx == Some(tx)
      then orders[o].(state := state, error := reason)
      else orders[o]
  }

  /** The tables after a submission settles, before its batch is looked at: `Some(reason)` fails
      it, `None` confirms it. */
  function Settled(db: Db, tx: TxHash, reason: Option<Reason>): Db
    requires tx in db.submissions
  {
    var sub := db.submissions[tx];
    var ids := Ids(sub.orders);
    db.(submissions := db.submissions[tx := sub.(state := if reason.None? then Included else Dropped)],
        orders := ResolveRows(db.orders, ids, tx, if reason.None? then Confirmed else Failed, reason),
        accounting := Settle(db.accounting, ids, SwapSubmitted, if reason.None? then SwapConfirmed else SwapFailed),
        terminal := Close(db.terminal, ids, if reason.None? then ConfirmedEvent else FailedEvent))
  }

  function ResolveSubmission(db: Db, tx: TxHash, reason: Option<Reason>): (Db, bool)
  {
    if tx !in db.submissions || !db.submissions[tx].state.Open? then (db, false)
    else (FinalizeIfReady(Settled(db, tx, reason), db.submissions[tx].batch), true)
  }

  /** The unconditional status write the processor makes for an order reported as failed. */
  function FailSwap(db: Db, o: OrderId): Db
  {
    if o in db.accounting then db.(accounting := db.accounting[o := SwapFailed]) else db
  }

  // ---- Outbox and recovery ----

  function MarkDelivered(db: Db, wakeup: Wakeup): (Db, bool)
  {
    if wakeup in db.outbox && wakeup !in db.delivered
    then (db.(delivered := db.delivered + {wakeup}), true)
    else (db, false)
  }

  datatype Outcome = Outcome(order: OrderId, tx: Option<TxHash>, error: Option<Reason>)

  function Outcomes(db: Db, b: BatchId, payload: seq<OrderId>): Result<seq<Outcome>, TxError>
  {
    if payload == [] then Ok([])
    else
      var o := payload[0];
      if o !in db.orders || db.orders[o].batch != Some(b) then Err(MissingRow)
      else if !IsTerminal(db.orders[o].state) then Err(NonTerminalOrder)
      else
        match Outcomes(db, b, payload[1..])
        case Err(e) => Err(e)
        case Ok(rest) => Ok([Outcome(o, db.orders[o].tx, db.orders[o].error)] + rest)
  }

  function RecoverTerminalBatch(db: Db, b: BatchId): Result<Option<seq<Outcome>>, TxError>
  {
    if b !in db.batches || !db.batches[b].state.Terminal? then Ok(None)
    else
      match Outcomes(db, b, db.batches[b].payload)
      case Err(e) => Err(e)
      case Ok(outcomes) => Ok(Some(outcomes))
  }
}
