/**
 The execution store as the object the program uses: one field per table, one method per
 transaction, loops over order ids on working copies that are committed at the end. Every method is
 proved to compute the closed-form transaction of `ExecutionTables`, so the invariant and the run
 theorems apply to it.
 */
module ExecutionStore {
  import opened Basics
  import opened ClientOrderId
  import opened ExecutionTables
  import T = ExecutionTables
  import opened ExecutionInvariant

  type Terminals = map<OrderId, TerminalKind>
  type Accounting = map<OrderId, SwapStatus>

  // ---- One loop step at a time ----

  lemma IdsStep(ids: seq<OrderId>, i: nat)
    requires i < |ids|
    ensures Ids(ids[..i + 1]) == Ids(ids[..i]) + {ids[i]}
  {
    assert ids[..i + 1] == ids[..i] + [ids[i]];
  }

  lemma IdsCons(o: OrderId, rest: seq<OrderId>)
    ensures Ids([o] + rest) == {o} + Ids(rest)
  {
  }

  lemma IdsWhole(ids: seq<OrderId>)
    ensures Ids(ids[..|ids|]) == Ids(ids) && ids[..|ids|] == ids
  {
  }

  lemma CloseStep(terminal: Terminals, ids: set<OrderId>, o: OrderId, kind: TerminalKind)
    ensures Close(terminal, ids + {o}, kind) == Close(Close(terminal, ids, kind), {o}, kind)
  {
  }

  lemma {:induction false} EarliestDistinct(orders: Orders, s: set<OrderId>, n: nat)
    requires s <= orders.Keys
    ensures Distinct(Earliest(orders, s, n)) && |Earliest(orders, s, n)| == Min(n, |s|)
  {
    if n != 0 && s != {} {
      EarliestExists(orders, s);
      var picked := Earliest(orders, s, n);
      var rest := Earliest(orders, s - {picked[0]}, n - 1);
      EarliestDistinct(orders, s - {picked[0]}, n - 1);
      EarliestWithin(orders, s - {picked[0]}, n - 1);
      assert picked == [picked[0]] + rest;
      assert forall j | 0 <= j < |rest| :: rest[j] in Ids(rest);
    }
  }

  lemma {:induction false} EarliestAll(orders: Orders, s: set<OrderId>)
    requires s <= orders.Keys
    ensures Ids(Earliest(orders, s, |s|)) == s
    decreases |s|
  {
    if s != {} {
      EarliestExists(orders, s);
      var picked := Earliest(orders, s, |s|);
      EarliestAll(orders, s - {picked[0]});
      var rest := Earliest(orders, s - {picked[0]}, |s| - 1);
      assert picked == [picked[0]] + rest;
      IdsCons(picked[0], rest);
    } else {
      assert Earliest(orders, s, |s|) == [];
    }
  }

  class Store {
    var allocators: map<User, nat>
    var leases: map<Uuid, Lease>
    var reservations: map<Uuid, Reservation>
    var orders: map<OrderId, Order>
    var batches: map<BatchId, Batch>
    var submissions: map<TxHash, Submission>
    var accounting: map<OrderId, SwapStatus>
    var progress: set<Progress>
    var terminal: map<OrderId, TerminalKind>
    var outbox: set<Wakeup>
    var delivered: set<Wakeup>

    function Tables(): Db
      reads this
    {
      Db(allocators, leases, reservations, orders, batches, submissions, accounting, progress, terminal, outbox, delivered)
    }

    constructor ()
      ensures Tables() == EMPTY
    {
      allocators, leases, reservations, orders, batches := map[], map[], map[], map[], map[];
      submissions, accounting, progress, terminal, outbox, delivered := map[], map[], {}, map[], {}, {};
    }

    method AllocateNonceLease(user: User, random: seq<Byte>) returns (r: Result<Uuid, TxError>)
      requires |random| == 12
      modifies this
      ensures (Tables(), r) == AllocateLease(old(Tables()), user, random)
    {
      var nonce := if user in allocators then allocators[user] else 0;
      if nonce >= U32_LIMIT { return Err(NonceOverflow); }
      var client := ForNonce(nonce, random);
      if client in leases || exists c :: c in leases && leases[c] == Lease(user, nonce) {
        return Err(ConstraintViolation);
      }
      allocators := allocators[user := nonce + 1];
      leases := leases[client := Lease(user, nonce)];
      r := Ok(client);
    }

    method AdmitOrder(client: Uuid, commitment: Commitment, id: OrderId, user: User, now: Time, limit: nat)
      returns (r: Result<Intent, TxError>)
      modifies this
      ensures (Tables(), r) == Admit(old(Tables()), client, commitment, id, user, now, limit)
    {
      var lease := ValidateLease(Tables(), client, user);
      if lease.Err? { return Err(lease.error); }
      var target := id;
      if client in reservations {
        target := reservations[client].order;
        if reservations[client].commitment != commitment { return Ok(Conflict); }
        if target in orders { return Ok(Existing(target)); }
        if ClientTaken(Tables(), client) { return Err(ConstraintViolation); }
        r := Ok(Existing(target));
      } else {
        if |QueuedOrders(Tables())| >= limit { return Err(QueueFull); }
        if id in orders || ReservedOrder(Tables(), id) || ClientTaken(Tables(), client) { return Err(ConstraintViolation); }
        reservations := reservations[client := Reservation(commitment, id)];
        r := Ok(New(id));
      }
      InsertRow(target, FreshOrder(client, user, lease.value, now));
    }

    method InsertRow(id: OrderId, row: Order)
      modifies this
      ensures Tables() == InsertOrder(old(Tables()), id, row)
    {
      orders := orders[id := row];
      progress := progress + {AdmittedEvent(id)};
      outbox := outbox + {OrderAdmitted(id)};
    }

    /** `ORDER BY created_at, order_id LIMIT n` over the eligible rows. */
    method SelectEarliest(s: set<OrderId>, n: nat) returns (picked: seq<OrderId>)
      requires s <= orders.Keys
      ensures picked == Earliest(orders, s, n)
    {
      picked := [];
      var rest := s;
      while |picked| < n && rest != {}
        invariant rest <= s && |picked| <= n
        invariant picked + Earliest(orders, rest, n - |picked|) == Earliest(orders, s, n)
        decreases rest
      {
        EarliestExists(orders, rest);
        var o :| o in rest && IsEarliest(orders, rest, o);
        EarliestStep(orders, rest, n - |picked|, picked, o);
        picked, rest := picked + [o], rest - {o};
      }
      assert Earliest(orders, rest, n - |picked|) == [];
    }

    method ClaimAdmittedOrders(worker: Worker, now: Time, lease: Time, limit: nat) returns (claimed: seq<OrderId>)
      modifies this
      ensures (Tables(), claimed) == ClaimAdmitted(old(Tables()), worker, now, lease, limit)
    {
      if exists b :: b in batches && batches[b].state.Pending? { return []; }
      var picked := SelectEarliest(EligibleOrders(Tables(), now), limit);
      EarliestWithin(orders, EligibleOrders(Tables(), now), limit);
      var rows, events, done := orders, progress, delivered;
      ghost var db := Tables();
      for i := 0 to |picked|
        invariant Tables() == db
        invariant ClaimedSoFar(db, picked[..i], worker, now, now + lease, rows, events, done)
      {
        var o := picked[i];
        assert o in Ids(picked);
        ClaimStep(db, picked, i, worker, now, now + lease, rows, events, done);
        rows := rows[o := rows[o].(state := ProcessingClaimed, owner := Some(worker), until := Some(now + lease))];
        events := events + {ClaimedEvent(o, worker, now)};
        done := done + ({OrderAdmitted(o)} * outbox);
      }
      IdsWhole(picked);
      orders, progress, delivered, claimed := rows, events, done, picked;
    }

    method FailClaimedOrder(o: OrderId, worker: Worker, reason: Reason) returns (failed: bool)
      modifies this
      ensures (Tables(), failed) == FailClaimed(old(Tables()), o, worker, reason)
    {
      failed := o in orders && orders[o].state.ProcessingClaimed? && orders[o].owner == Some(worker);
      if failed {
        orders := orders[o := orders[o].(state := Failed, error := Some(reason), owner := None, until := None)];
        assert orders == FailRows(old(orders), {o}, reason);
        terminal := Close(terminal, {o}, FailedEvent);
      }
    }

    method FailOrdersByIds(ids: seq<OrderId>, reason: Reason) returns (failed: nat)
      modifies this
      ensures (Tables(), failed) == FailByIds(old(Tables()), ids, reason)
    {
      var rows, closed := orders, terminal;
      failed := 0;
      ghost var db := Tables();
      QueuedNone(db, ids, reason);
      for i := 0 to |ids|
        invariant Tables() == db
        invariant QueuedSoFar(db, QueuedAmong(db, ids[..i]), reason, rows, closed)
        invariant failed == |QueuedAmong(db, ids[..i])|
      {
        var o := ids[i];
        QueuedStep(db, ids, i, reason, rows, closed);
        if o in rows && IsQueued(rows[o].state) {
          rows := rows[o := rows[o].(state := Failed, error := Some(reason), owner := None, until := None)];
          closed := Close(closed, {o}, FailedEvent);
          failed := failed + 1;
        }
      }
      IdsWhole(ids);
      orders, terminal := rows, closed;
    }

    /** Every proposed swap names the order at its place. */
    method SwapsMatch(ids: seq<OrderId>, swaps: seq<OrderId>) returns (matching: bool)
      requires |ids| == |swaps|
      ensures matching <==> ids == swaps
    {
      for i := 0 to |ids|
        invariant forall j | 0 <= j < i :: ids[j] == swaps[j]
      {
        if ids[i] != swaps[i] { return false; }
      }
      matching := true;
    }

    method ProposeSwaps(swaps: seq<OrderId>) returns (proposals: map<OrderId, SwapStatus>)
      ensures proposals == ProposeAll(accounting, Ids(swaps))
    {
      proposals := accounting;
      for i := 0 to |swaps|
        invariant proposals == ProposeAll(accounting, Ids(swaps[..i]))
      {
        ProposeStep(accounting, swaps, i);
        if swaps[i] !in proposals { proposals := proposals[swaps[i] := Proposed]; }
      }
      IdsWhole(swaps);
    }

    /** Moves the claimed rows into the batch on working copies; a row that is not claimed by the
        worker, or listed before, stops it. */
    method BatchClaimed(worker: Worker, ids: seq<OrderId>, b: BatchId) returns (r: Option<(Orders, set<Progress>)>)
      ensures r.None? <==> !Distinct(ids) || exists o :: o in ids && !ClaimedBy(Tables(), o, worker)
      ensures r.Some? ==> r.value == (BatchRows(orders, Ids(ids), b), progress + set o | o in ids :: BatchedEvent(o))
    {
      var rows, events := orders, progress;
      ghost var db := Tables();
      BatchedNone(db, worker, ids, b);
      for i := 0 to |ids|
        invariant BatchedSoFar(db, worker, ids[..i], b, rows, events)
      {
        var o := ids[i];
        if !(o in rows && rows[o].state.ProcessingClaimed? && rows[o].owner == Some(worker)) {
          NotBatchable(db, worker, ids, i, b, rows, events);
          return None;
        }
        BatchStep(db, worker, ids, i, b, rows, events);
        rows := rows[o := rows[o].(state := Batched, batch := Some(b), owner := None, until := None)];
        events := events + {BatchedEvent(o)};
      }
      IdsWhole(ids);
      r := Some((rows, events));
    }

    method CreateExecutionBatch(worker: Worker, ids: seq<OrderId>, swaps: seq<OrderId>, b: BatchId, now: Time)
      returns (r: Result<Option<BatchId>, TxError>)
      modifies this
      ensures (Tables(), r) == CreateBatch(old(Tables()), worker, ids, swaps, b, now)
    {
      if ids == [] { return Ok(None); }
      if |ids| != |swaps| { return Err(LengthMismatch); }
      var matching := SwapsMatch(ids, swaps);
      if !matching { return Err(SwapMismatch); }
      var batched := BatchClaimed(worker, ids, b);
      if batched.None? { return Err(NotClaimed); }
      var (rows, events) := batched.value;
      var proposals := ProposeSwaps(swaps);
      if b in batches || exists a :: a in batches && batches[a].state.Pending? { return Err(ConstraintViolation); }
      orders, progress, accounting := rows, events, proposals;
      batches := batches[b := Batch(ids, Pending, None, None, false, now)];
      outbox := outbox + {BatchPending(b)};
      r := Ok(Some(b));
    }

    /** Takes the claimable row, then lists what is left to submit; a batch with nothing left goes
        straight to reconciliation. */
    method ClaimPendingBatch(worker: Worker, now: Time, lease: Time)
      returns (r: Result<Option<(BatchId, seq<OrderId>)>, TxError>)
      requires SingleFlight(batches)
      modifies this
      ensures (Tables(), r) == ClaimPending(old(Tables()), worker, now, lease)
    {
      var c := PromoteBatch(worker, now, lease);
      if c.Err? { return Err(c.error); }
      if c.value.None? { return Ok(None); }
      var b := c.value.value;
      var left := [];
      var payload := batches[b].payload;
      ghost var db := Tables();
      assert payload[0..] == payload;
      PrependNothing(Unsubmitted(db, b, payload));
      for i := 0 to |payload|
        invariant Tables() == db
        invariant Unsubmitted(db, b, payload) == Prepended(left, Unsubmitted(db, b, payload[i..]))
      {
        var o := payload[i];
        assert payload[i..][0] == o && payload[i..][1..] == payload[i + 1..];
        PrependMore(left, o, Unsubmitted(db, b, payload[i + 1..]));
        if o !in orders || orders[o].batch != Some(b) { return Err(MissingRow); }
        if orders[o].state.Batched? { left := left + [o]; }
      }
      assert payload[|payload|..] == [] && left + [] == left;
      if left == [] {
        var begun := BeginReconciliation(b, worker);
        return if begun.Err? then Err(begun.error) else Ok(None);
      }
      r := Ok(Some((b, left)));
    }

    method PromoteBatch(worker: Worker, now: Time, lease: Time) returns (r: Result<Option<BatchId>, TxError>)
      requires SingleFlight(batches)
      modifies this
      ensures (Tables(), r) == ClaimBatch(old(Tables()), worker, now, lease)
      ensures r.Ok? && r.value.Some? ==> r.value.value in batches
    {
      var expired := set b | b in batches && batches[b].state.Claimed? && batches[b].until.Some? && batches[b].until.value < now;
      var pending := set b | b in batches && batches[b].state.Pending?;
      var live := exists b :: b in batches && batches[b].state.Claimed? && b !in expired;
      ghost var db := Tables();
      assert forall b :: b in expired <==> ExpiredClaim(db, b, now);
      assert live <==> LiveClaim(db, now);
      if expired == {} && (live || pending == {}) {
        NothingClaimable(db, now, expired, pending);
        return Ok(None);
      }
      var b :| b in batches && if expired != {} then b in expired else b in pending;
      assert Claimable(db, b, now);
      if batches[b].state.Pending? && exists a :: a in batches && batches[a].state.Claimed? {
        return Err(ConstraintViolation);
      }
      batches := batches[b := batches[b].(state := Claimed, owner := Some(worker), until := Some(now + lease))];
      delivered := delivered + ({BatchPending(b)} * outbox);
      r := Ok(Some(b));
    }

    method RecordSubmission(b: BatchId, worker: Worker, tx: TxHash, ids: seq<OrderId>) returns (r: Result<bool, TxError>)
      modifies this
      ensures (Tables(), r) == T.RecordSubmission(old(Tables()), b, worker, tx, ids)
    {
      if !(b in batches && batches[b].state.Claimed? && batches[b].owner == Some(worker)) { return Ok(false); }
      if tx in submissions { return Ok(true); }
      var rows, books, events := orders, accounting, progress;
      ghost var db := Tables();
      for i := 0 to |ids|
        invariant Tables() == db
        invariant SubmittedSoFar(db, b, ids[..i], tx, rows, books, events)
      {
        var o := ids[i];
        if !(o in rows && rows[o].batch == Some(b) && rows[o].state.Batched?) {
          NotSubmittable(db, b, ids, i, tx, rows, books, events);
          return Err(NotAwaitingSubmission);
        }
        SubmitStep(db, b, ids, i, tx, rows, books, events);
        rows := rows[o := rows[o].(state := Submitted, tx := Some(tx))];
        if o in books && books[o] == Proposed { books := books[o := SwapSubmitted]; }
        events := events + {SubmittedEvent(o)};
      }
      IdsWhole(ids);
      submissions := submissions[tx := Submission(b, ids, Open)];
      orders, accounting, progress, r := rows, books, events, Ok(true);
    }

    method MarkPreSubmissionFailed(b: BatchId, worker: Worker, ids: seq<OrderId>, reason: Reason)
      modifies this
      ensures Tables() == T.MarkPreSubmissionFailed(old(Tables()), b, worker, ids, reason)
    {
      var rows, books, closed := orders, accounting, terminal;
      ghost var db := Tables();
      FailedNone(db, reason);
      assert AwaitingAmong(db, b, worker, ids[..0]) == {};
      for i := 0 to |ids|
        invariant Tables() == db
        invariant FailedSoFar(db, AwaitingAmong(db, b, worker, ids[..i]), reason, rows, books, closed)
      {
        var o := ids[i];
        AwaitingStep(db, b, worker, ids, i, reason, rows, books, closed);
        if o in rows && rows[o].batch == Some(b) && rows[o].state.Batched?
           && b in batches && batches[b].state.Claimed? && batches[b].owner == Some(worker)
        {
          rows := rows[o := rows[o].(state := Failed, error := Some(reason))];
          if o in books && books[o] == Proposed { books := books[o := SwapFailed]; }
          closed := Close(closed, {o}, FailedEvent);
        }
      }
      IdsWhole(ids);
      orders, accounting, terminal := rows, books, closed;
    }

    method FailRemainingBatchedOrders(b: BatchId, worker: Worker, reason: Reason) returns (failed: seq<OrderId>)
      modifies this
      ensures (Tables(), failed) == FailRemaining(old(Tables()), b, worker, reason)
    {
      var left := Awaiting(Tables(), b, worker);
      var ids := SelectEarliest(left, |left|);
      EarliestAll(orders, left);
      EarliestDistinct(orders, left, |left|);
      failed := FailListed(b, worker, ids, reason);
    }

    method FailListed(b: BatchId, worker: Worker, ids: seq<OrderId>, reason: Reason) returns (failed: seq<OrderId>)
      requires Distinct(ids) && Ids(ids) == Awaiting(Tables(), b, worker)
      modifies this
      ensures Tables() == FailBatched(old(Tables()), Ids(ids), reason) && failed == ids
    {
      var rows, books, closed := orders, accounting, terminal;
      ghost var db := Tables();
      FailedNone(db, reason);
      failed := [];
      ghost var done := {};
      for i := 0 to |ids|
        invariant Tables() == db && failed == ids[..i] && done == Ids(ids[..i])
        invariant FailedSoFar(db, done, reason, rows, books, closed)
      {
        var o := ids[i];
        NextRemaining(db, b, worker, ids, i, done, reason, rows, books, closed);
        var changed := o in rows && rows[o].batch == Some(b) && rows[o].state.Batched?;
        assert changed;
        if changed {
          rows := rows[o := rows[o].(state := Failed, error := Some(reason))];
          if o in books && books[o] == Proposed { books := books[o := SwapFailed]; }
          closed := Close(closed, {o}, FailedEvent);
          failed := failed + [o];
        }
        done := done + {o};
      }
      IdsWhole(ids);
      orders, accounting, terminal := rows, books, closed;
    }

    method FinalizeBatchIfReady(b: BatchId)
      modifies this
      ensures Tables() == FinalizeIfReady(old(Tables()), b)
    {
      if exists o :: o in orders && orders[o].batch == Some(b) && !IsTerminal(orders[o].state) { return; }
      var hasError := exists o :: o in orders && orders[o].batch == Some(b) && orders[o].error.Some?;
      if b in batches && (batches[b].state.Claimed? || batches[b].state.Reconciling?) {
        batches := batches[b := batches[b].(state := Terminal, owner := None, until := None, hasError := hasError)];
        outbox := outbox + {BatchTerminal(b)};
      }
    }

    method BeginReconciliation(b: BatchId, worker: Worker) returns (r: Result<bool, TxError>)
      modifies this
      ensures (Tables(), r) == T.BeginReconciliation(old(Tables()), b, worker)
    {
      if exists o :: o in orders && AwaitsSubmission(Tables(), b, o) { return Err(UnsubmittedOrders); }
      if !(b in batches && batches[b].state.Claimed? && batches[b].owner == Some(worker)) { return Ok(false); }
      batches := batches[b := batches[b].(state := Reconciling, owner := None, until := None)];
      FinalizeBatchIfReady(b);
      r := Ok(true);
    }

    method ResolveSubmission(tx: TxHash, reason: Option<Reason>) returns (resolved: bool)
      modifies this
      ensures (Tables(), resolved) == T.ResolveSubmission(old(Tables()), tx, reason)
    {
      if tx !in submissions || !submissions[tx].state.Open? { return false; }
      ghost var db := Tables();
      var sub := submissions[tx];
      var state := if reason.None? then Confirmed else Failed;
      var status := if reason.None? then SwapConfirmed else SwapFailed;
      var kind := if reason.None? then ConfirmedEvent else FailedEvent;
      var rows, books, closed := orders, accounting, terminal;
      for i := 0 to |sub.orders|
        invariant Tables() == db
        invariant SettledSoFar(db, sub.orders[..i], tx, state, reason, status, kind, rows, books, closed)
      {
        var o := sub.orders[i];
        ResolveStep(db, sub.orders, i, tx, state, reason, status, kind, rows, books, closed);
        if o in rows && rows[o].state.Submitted? && rows[o].tx == Some(tx) {
          rows := rows[o := rows[o].(state := state, error := reason)];
        }
        if o in books && books[o] == SwapSubmitted { books := books[o := status]; }
        closed := Close(closed, {o}, kind);
      }
      IdsWhole(sub.orders);
      submissions := submissions[tx := sub.(state := if reason.None? then Included else Dropped)];
      orders, accounting, terminal := rows, books, closed;
      assert Tables() == Settled(db, tx, reason);
      FinalizeBatchIfReady(sub.batch);
      resolved := true;
    }

    method FailSwapRow(o: OrderId)
      modifies this
      ensures Tables() == FailSwap(old(Tables()), o)
    {
      if o in accounting { accounting := accounting[o := SwapFailed]; }
    }

    method MarkOutboxDelivered(wakeup: Wakeup) returns (marked: bool)
      modifies this
      ensures (Tables(), marked) == MarkDelivered(old(Tables()), wakeup)
    {
      marked := wakeup in outbox && wakeup !in delivered;
      if marked { delivered := delivered + {wakeup}; }
    }

    method RecoverBatch(b: BatchId) returns (r: Result<Option<seq<Outcome>>, TxError>)
      ensures r == RecoverTerminalBatch(Tables(), b)
    {
      if b !in batches || !batches[b].state.Terminal? { return Ok(None); }
      var payload, outcomes := batches[b].payload, [];
      assert payload[0..] == payload;
      PrependNothing(Outcomes(Tables(), b, payload));
      for i := 0 to |payload|
        invariant Outcomes(Tables(), b, payload) == Prepended(outcomes, Outcomes(Tables(), b, payload[i..]))
      {
        var o := payload[i];
        assert payload[i..][0] == o && payload[i..][1..] == payload[i + 1..];
        if o !in orders || orders[o].batch != Some(b) { return Err(MissingRow); }
        PrependMore(outcomes, Outcome(o, orders[o].tx, orders[o].error), Outcomes(Tables(), b, payload[i + 1..]));
        if !IsTerminal(orders[o].state) { return Err(NonTerminalOrder); }
        outcomes := outcomes + [Outcome(o, orders[o].tx, orders[o].error)];
      }
      assert payload[|payload|..] == [] && outcomes + [] == outcomes;
      r := Ok(Some(outcomes));
    }
  }

  // ---- Specifications shared by the loops ----

  function Prepended<T>(front: seq<T>, r: Result<seq<T>, TxError>): Result<seq<T>, TxError> {
    match r
    case Err(e) => Err(e)
    case Ok(rest) => Ok(front + rest)
  }

  lemma NothingClaimable(db: Db, now: Time, expired: set<BatchId>, pending: set<BatchId>)
    requires forall b :: b in expired <==> ExpiredClaim(db, b, now)
    requires pending == set b | b in db.batches && db.batches[b].state.Pending?
    requires expired == {} && (LiveClaim(db, now) || pending == {})
    ensures !exists b :: Claimable(db, b, now)
  {
    assert forall b :: Claimable(db, b, now) ==> b in expired || b in pending;
  }

  lemma PrependNothing<T>(r: Result<seq<T>, TxError>)
    ensures Prepended([], r) == r
  {
    if r.Ok? { assert [] + r.value == r.value; }
  }

  lemma PrependMore<T>(front: seq<T>, x: T, r: Result<seq<T>, TxError>)
    ensures Prepended(front, Prepended([x], r)) == Prepended(front + [x], r)
  {
    if r.Ok? { assert front + ([x] + r.value) == front + [x] + r.value; }
  }

  ghost function ClaimPending(db: Db, worker: Worker, now: Time, lease: Time)
    : (Db, Result<Option<(BatchId, seq<OrderId>)>, TxError>)
  {
    var (claimed, r) := ClaimBatch(db, worker, now, lease);
    if r.Err? then (claimed, Err(r.error))
    else if r.value.None? then (claimed, Ok(None))
    else
      var b := r.value.value;
      match Unsubmitted(claimed, b, claimed.batches[b].payload)
      case Err(e) => (claimed, Err(e))
      case Ok(left) =>
        if left != [] then (claimed, Ok(Some((b, left))))
        else
          var (begun, s) := T.BeginReconciliation(claimed, b, worker);
          (begun, if s.Err? then Err(s.error) else Ok(None))
  }

  ghost predicate ClaimedSoFar(db: Db, done: seq<OrderId>, worker: Worker, now: Time, until: Time,
                               rows: Orders, events: set<Progress>, delivered: set<Wakeup>) {
    && rows == ClaimRows(db.orders, Ids(done), worker, until)
    && events == db.progress + (set o | o in Ids(done) :: ClaimedEvent(o, worker, now))
    && delivered == db.delivered + AdmittedWakeups(db.outbox, Ids(done))
  }

  lemma ClaimStep(db: Db, picked: seq<OrderId>, i: nat, worker: Worker, now: Time, until: Time,
                  rows: Orders, events: set<Progress>, delivered: set<Wakeup>)
    requires i < |picked| && picked[i] in db.orders
    requires ClaimedSoFar(db, picked[..i], worker, now, until, rows, events, delivered)
    ensures var o := picked[i];
            ClaimedSoFar(db, picked[..i + 1], worker, now, until,
                         rows[o := rows[o].(state := ProcessingClaimed, owner := Some(worker), until := Some(until))],
                         events + {ClaimedEvent(o, worker, now)}, delivered + ({OrderAdmitted(o)} * db.outbox))
  {
    IdsStep(picked, i);
  }

  ghost predicate QueuedSoFar(db: Db, done: set<OrderId>, reason: Reason, rows: Orders, closed: Terminals) {
    rows == FailRows(db.orders, done, reason) && closed == Close(db.terminal, done, FailedEvent)
  }

  lemma QueuedNone(db: Db, ids: seq<OrderId>, reason: Reason)
    ensures QueuedAmong(db, ids[..0]) == {} && QueuedSoFar(db, {}, reason, db.orders, db.terminal)
  {
  }

  lemma QueuedStep(db: Db, ids: seq<OrderId>, i: nat, reason: Reason, rows: Orders, closed: Terminals)
    requires i < |ids| && QueuedSoFar(db, QueuedAmong(db, ids[..i]), reason, rows, closed)
    ensures var o, done, next := ids[i], QueuedAmong(db, ids[..i]), QueuedAmong(db, ids[..i + 1]);
            if o in rows && IsQueued(rows[o].state)
            then && QueuedSoFar(db, next, reason,
                                rows[o := rows[o].(state := Failed, error := Some(reason), owner := None, until := None)],
                                Close(closed, {o}, FailedEvent))
                 && |next| == |done| + 1
            else next == done
  {
    var o, done := ids[i], QueuedAmong(db, ids[..i]);
    assert ids[..i + 1] == ids[..i] + [o];
    if o in rows && IsQueued(rows[o].state) {
      assert QueuedAmong(db, ids[..i + 1]) == done + {o};
      CloseStep(db.terminal, done, o, FailedEvent);
    }
  }

  lemma PrefixDistinct(ids: seq<OrderId>, i: nat)
    requires i < |ids| && Distinct(ids[..i]) && ids[i] !in ids[..i]
    ensures Distinct(ids[..i + 1])
  {
    assert ids[..i + 1] == ids[..i] + [ids[i]];
  }

  lemma EarliestStep(orders: Orders, rest: set<OrderId>, n: nat, picked: seq<OrderId>, o: OrderId)
    requires rest <= orders.Keys && n > 0 && o in rest && IsEarliest(orders, rest, o)
    ensures picked + Earliest(orders, rest, n) == picked + [o] + Earliest(orders, rest - {o}, n - 1)
  {
    EarliestExists(orders, rest);
    assert Earliest(orders, rest, n) == [o] + Earliest(orders, rest - {o}, n - 1);
    assert picked + ([o] + Earliest(orders, rest - {o}, n - 1)) == picked + [o] + Earliest(orders, rest - {o}, n - 1);
  }

  ghost predicate BatchedSoFar(db: Db, worker: Worker, done: seq<OrderId>, b: BatchId, rows: Orders, events: set<Progress>) {
    && Distinct(done) && (forall o | o in done :: ClaimedBy(db, o, worker))
    && rows == BatchRows(db.orders, Ids(done), b)
    && events == db.progress + set o | o in done :: BatchedEvent(o)
  }

  lemma BatchedNone(db: Db, worker: Worker, ids: seq<OrderId>, b: BatchId)
    ensures BatchedSoFar(db, worker, ids[..0], b, db.orders, db.progress)
  {
  }

  lemma BatchStep(db: Db, worker: Worker, ids: seq<OrderId>, i: nat, b: BatchId, rows: Orders, events: set<Progress>)
    requires i < |ids| && BatchedSoFar(db, worker, ids[..i], b, rows, events)
    requires ids[i] in rows && rows[ids[i]].state.ProcessingClaimed? && rows[ids[i]].owner == Some(worker)
    ensures var o := ids[i];
            BatchedSoFar(db, worker, ids[..i + 1], b,
                         rows[o := rows[o].(state := Batched, batch := Some(b), owner := None, until := None)],
                         events + {BatchedEvent(o)})
  {
    assert ids[i] !in Ids(ids[..i]);
    PrefixDistinct(ids, i);
    IdsStep(ids, i);
    assert ids[..i + 1] == ids[..i] + [ids[i]];
  }

  lemma NotBatchable(db: Db, worker: Worker, ids: seq<OrderId>, i: nat, b: BatchId, rows: Orders, events: set<Progress>)
    requires i < |ids| && BatchedSoFar(db, worker, ids[..i], b, rows, events)
    requires !(ids[i] in rows && rows[ids[i]].state.ProcessingClaimed? && rows[ids[i]].owner == Some(worker))
    ensures !Distinct(ids) || exists o :: o in ids && !ClaimedBy(db, o, worker)
  {
    if ids[i] in Ids(ids[..i]) {
      var j :| 0 <= j < i && ids[j] == ids[i];
    } else {
      assert !ClaimedBy(db, ids[i], worker);
    }
  }

  lemma ProposeStep(accounting: Accounting, swaps: seq<OrderId>, i: nat)
    requires i < |swaps|
    ensures var before := ProposeAll(accounting, Ids(swaps[..i]));
            ProposeAll(accounting, Ids(swaps[..i + 1]))
            == if swaps[i] in before then before else before[swaps[i] := Proposed]
  {
    IdsStep(swaps, i);
  }

  ghost predicate SubmittedSoFar(db: Db, b: BatchId, done: seq<OrderId>, tx: TxHash,
                                 rows: Orders, books: Accounting, events: set<Progress>) {
    && Distinct(done) && (forall o | o in done :: AwaitsSubmission(db, b, o))
    && rows == SubmitRows(db.orders, Ids(done), tx)
    && books == Settle(db.accounting, Ids(done), Proposed, SwapSubmitted)
    && events == db.progress + set o | o in done :: SubmittedEvent(o)
  }

  lemma SubmitStep(db: Db, b: BatchId, ids: seq<OrderId>, i: nat, tx: TxHash, rows: Orders, books: Accounting, events: set<Progress>)
    requires i < |ids| && SubmittedSoFar(db, b, ids[..i], tx, rows, books, events)
    requires ids[i] in rows && rows[ids[i]].batch == Some(b) && rows[ids[i]].state.Batched?
    ensures var o := ids[i];
            SubmittedSoFar(db, b, ids[..i + 1], tx, rows[o := rows[o].(state := Submitted, tx := Some(tx))],
                           if o in books && books[o] == Proposed then books[o := SwapSubmitted] else books,
                           events + {SubmittedEvent(o)})
  {
    assert ids[i] !in Ids(ids[..i]);
    PrefixDistinct(ids, i);
    IdsStep(ids, i);
    SettleOne(db.accounting, Ids(ids[..i]), ids[i], Proposed, SwapSubmitted);
    assert ids[..i + 1] == ids[..i] + [ids[i]];
  }

  lemma NotSubmittable(db: Db, b: BatchId, ids: seq<OrderId>, i: nat, tx: TxHash, rows: Orders, books: Accounting, events: set<Progress>)
    requires i < |ids| && SubmittedSoFar(db, b, ids[..i], tx, rows, books, events)
    requires !(ids[i] in rows && rows[ids[i]].batch == Some(b) && rows[ids[i]].state.Batched?)
    ensures !Distinct(ids) || exists o :: o in ids && !AwaitsSubmission(db, b, o)
  {
    if ids[i] in Ids(ids[..i]) {
      var j :| 0 <= j < i && ids[j] == ids[i];
    } else {
      assert !AwaitsSubmission(db, b, ids[i]);
    }
  }

  ghost predicate SettledSoFar(db: Db, done: seq<OrderId>, tx: TxHash, state: OrderState, reason: Option<Reason>,
                               status: SwapStatus, kind: TerminalKind, rows: Orders, books: Accounting, closed: Terminals) {
    && rows == ResolveRows(db.orders, Ids(done), tx, state, reason)
    && books == Settle(db.accounting, Ids(done), SwapSubmitted, status)
    && closed == Close(db.terminal, Ids(done), kind)
  }

  lemma ResolveStep(db: Db, ids: seq<OrderId>, i: nat, tx: TxHash, state: OrderState, reason: Option<Reason>,
                    status: SwapStatus, kind: TerminalKind, rows: Orders, books: Accounting, closed: Terminals)
    requires i < |ids| && SettledSoFar(db, ids[..i], tx, state, reason, status, kind, rows, books, closed)
    requires !state.Submitted?
    ensures var o := ids[i];
            SettledSoFar(db, ids[..i + 1], tx, state, reason, status, kind,
                         if o in rows && rows[o].state.Submitted? && rows[o].tx == Some(tx)
                         then rows[o := rows[o].(state := state, error := reason)] else rows,
                         if o in books && books[o] == SwapSubmitted then books[o := status] else books,
                         Close(closed, {o}, kind))
  {
    IdsStep(ids, i);
    ResolveOne(db.orders, Ids(ids[..i]), ids[i], tx, state, reason);
    SettleOne(db.accounting, Ids(ids[..i]), ids[i], SwapSubmitted, status);
    CloseStep(db.terminal, Ids(ids[..i]), ids[i], kind);
  }

  lemma ResolveOne(orders: Orders, done: set<OrderId>, o: OrderId, tx: TxHash, state: OrderState, reason: Option<Reason>)
    requires !state.Submitted?
    ensures var rows := ResolveRows(orders, done, tx, state, reason);
            ResolveRows(orders, done + {o}, tx, state, reason)
            == if o in rows && rows[o].state.Submitted? && rows[o].tx == Some(tx)
               then rows[o := rows[o].(state := state, error := reason)] else rows
  {
  }

  lemma SettleOne(accounting: Accounting, done: set<OrderId>, o: OrderId, before: SwapStatus, after: SwapStatus)
    ensures var books := Settle(accounting, done, before, after);
            Settle(accounting, done + {o}, before, after)
            == if o in books && books[o] == before then books[o := after] else books
  {
  }

  ghost predicate FailedSoFar(db: Db, done: set<OrderId>, reason: Reason, rows: Orders, books: Accounting, closed: Terminals) {
    && rows == FailBatchedRows(db.orders, done, reason)
    && books == Settle(db.accounting, done, Proposed, SwapFailed)
    && closed == Close(db.terminal, done, FailedEvent)
  }

  lemma FailStep(db: Db, done: set<OrderId>, o: OrderId, reason: Reason, rows: Orders, books: Accounting, closed: Terminals)
    requires FailedSoFar(db, done, reason, rows, books, closed) && o in rows && rows[o].state.Batched?
    ensures FailedSoFar(db, done + {o}, reason, rows[o := rows[o].(state := Failed, error := Some(reason))],
                        if o in books && books[o] == Proposed then books[o := SwapFailed] else books,
                        Close(closed, {o}, FailedEvent))
  {
    SettleOne(db.accounting, done, o, Proposed, SwapFailed);
    CloseStep(db.terminal, done, o, FailedEvent);
  }

  lemma AwaitingStep(db: Db, b: BatchId, worker: Worker, ids: seq<OrderId>, i: nat, reason: Reason,
                     rows: Orders, books: Accounting, closed: Terminals)
    requires i < |ids| && FailedSoFar(db, AwaitingAmong(db, b, worker, ids[..i]), reason, rows, books, closed)
    ensures var o, next := ids[i], AwaitingAmong(db, b, worker, ids[..i + 1]);
            if o in rows && rows[o].batch == Some(b) && rows[o].state.Batched? && Owns(db, b, worker)
            then FailedSoFar(db, next, reason, rows[o := rows[o].(state := Failed, error := Some(reason))],
                             if o in books && books[o] == Proposed then books[o := SwapFailed] else books,
                             Close(closed, {o}, FailedEvent))
            else next == AwaitingAmong(db, b, worker, ids[..i])
  {
    var o, done := ids[i], AwaitingAmong(db, b, worker, ids[..i]);
    assert ids[..i + 1] == ids[..i] + [o];
    if o in rows && rows[o].batch == Some(b) && rows[o].state.Batched? && Owns(db, b, worker) {
      assert AwaitingAmong(db, b, worker, ids[..i + 1]) == done + {o};
      FailStep(db, done, o, reason, rows, books, closed);
    }
  }

  lemma NextRemaining(db: Db, b: BatchId, worker: Worker, ids: seq<OrderId>, i: nat, done: set<OrderId>, reason: Reason,
                      rows: Orders, books: Accounting, closed: Terminals)
    requires i < |ids| && Distinct(ids) && Ids(ids) == Awaiting(db, b, worker) && done == Ids(ids[..i])
    requires FailedSoFar(db, done, reason, rows, books, closed)
    ensures var o := ids[i];
            && o in rows && rows[o].batch == Some(b) && rows[o].state.Batched?
            && FailedSoFar(db, done + {o}, reason, rows[o := rows[o].(state := Failed, error := Some(reason))],
                           if o in books && books[o] == Proposed then books[o := SwapFailed] else books,
                           Close(closed, {o}, FailedEvent))
    ensures ids[..i + 1] == ids[..i] + [ids[i]] && Ids(ids[..i + 1]) == done + {ids[i]}
  {
    assert ids[i] in Ids(ids) && ids[i] !in done;
    assert ids[i] in Awaiting(db, b, worker);
    IdsStep(ids, i);
    assert ids[..i + 1] == ids[..i] + [ids[i]];
    FailStep(db, done, ids[i], reason, rows, books, closed);
  }

  lemma FailedNone(db: Db, reason: Reason)
    ensures FailedSoFar(db, {}, reason, db.orders, db.accounting, db.terminal)
  {
  }

  // ---- Claiming never fails in a state that satisfies the invariant ----

  lemma {:induction false} UnsubmittedTotal(db: Db, b: BatchId, payload: seq<OrderId>)
    requires forall o | o in payload :: o in db.orders && db.orders[o].batch == Some(b)
    ensures Unsubmitted(db, b, payload).Ok?
    ensures forall o :: o in Unsubmitted(db, b, payload).value <==> o in payload && db.orders[o].state.Batched?
  {
    if payload != [] {
      UnsubmittedTotal(db, b, payload[1..]);
      assert payload == [payload[0]] + payload[1..];
    }
  }

  lemma ListsAwaiting(db: Db, b: BatchId)
    requires PlacedOk(db.orders, db.batches) && MembersOk(db.batches, db.orders) && b in db.batches
    ensures Unsubmitted(db, b, db.batches[b].payload).Ok?
    ensures forall o :: o in Unsubmitted(db, b, db.batches[b].payload).value <==> AwaitsSubmission(db, b, o)
  {
    UnsubmittedTotal(db, b, db.batches[b].payload);
  }

  /** A claim never fails; a worker that is handed a batch owns it and is handed exactly the orders
      still awaiting submission. */
  lemma ClaimPendingNeverFails(db: Db, worker: Worker, now: Time, lease: Time)
    requires Inv(db)
    ensures HandsOver(ClaimPending(db, worker, now, lease), worker)
  {
    ClaimBatchSucceeds(db, worker, now, lease);
    ClaimBatchKeeps(db, worker, now, lease);
    ClaimedHandsOver(db, worker, now, lease);
  }

  ghost predicate HandsOver(result: (Db, Result<Option<(BatchId, seq<OrderId>)>, TxError>), worker: Worker) {
    && result.1.Ok?
    && (result.1.value.Some? ==>
          && Owns(result.0, result.1.value.value.0, worker)
          && forall o :: o in result.1.value.value.1 <==> AwaitsSubmission(result.0, result.1.value.value.0, o))
  }

  lemma ClaimedHandsOver(db: Db, worker: Worker, now: Time, lease: Time)
    requires var (claimed, r) := ClaimBatch(db, worker, now, lease);
             r.Ok? && PlacedOk(claimed.orders, claimed.batches) && MembersOk(claimed.batches, claimed.orders)
    ensures HandsOver(ClaimPending(db, worker, now, lease), worker)
  {
    var (claimed, r) := ClaimBatch(db, worker, now, lease);
    if r.value.Some? { ListsAwaiting(claimed, r.value.value); }
  }
}
