/**
 Progress of the durable execution protocol: a claim hands out every order that is due, an expired one
 included; an idle store takes a due order through every stage to its outcome; and each failure
 transaction fails exactly the orders it should.
 */
module ExecutionProgress {
  import opened Basics
  import opened ClientOrderId
  import opened ExecutionTables
  import opened ExecutionInvariant
  import opened ExecutionRuns

  // ---- What a claim hands out ----

  /** An order row waits for a worker: admitted, or claimed by one whose lease ran out. */
  predicate Due(row: Order, now: Time) {
    row.state.Admitted? || (row.state.ProcessingClaimed? && row.until.Some? && row.until.value < now)
  }

  function DueOrders(db: Db, now: Time): set<OrderId> { set o | o in db.orders && Due(db.orders[o], now) }

  ghost predicate Quiet(db: Db) { forall b | b in db.batches :: !db.batches[b].state.Pending? }

  lemma {:induction false} EarliestTakes(orders: Orders, s: set<OrderId>, n: nat)
    requires s <= orders.Keys
    ensures |Earliest(orders, s, n)| == Min(n, |s|) && Distinct(Earliest(orders, s, n))
    decreases n
  {
    if n > 0 && s != {} {
      EarliestExists(orders, s);
      var o :| IsEarliest(orders, s, o) && Earliest(orders, s, n) == [o] + Earliest(orders, s - {o}, n - 1);
      EarliestTakes(orders, s - {o}, n - 1);
      EarliestWithin(orders, s - {o}, n - 1);
      Prepended(o, Earliest(orders, s - {o}, n - 1));
    }
  }

  lemma Prepended(o: OrderId, rest: seq<OrderId>)
    requires Distinct(rest) && o !in Ids(rest)
    ensures Distinct([o] + rest)
  {
    var all := [o] + rest;
    forall i, j | 0 <= i < j < |all| ensures all[i] != all[j] {
      assert all[j] == rest[j - 1] && rest[j - 1] in Ids(rest);
    }
  }

  lemma {:induction false} DistinctCount(s: seq<OrderId>)
    requires Distinct(s)
    ensures |Ids(s)| == |s|
    decreases |s|
  {
    if |s| > 0 {
      var n := |s| - 1;
      DistinctCount(s[..n]);
      assert Ids(s) == Ids(s[..n]) + {s[n]};
      assert s[n] !in Ids(s[..n]);
    } else {
      assert Ids(s) == {};
    }
  }

  /** With no pending batch a claim takes as many of the due orders as its limit allows: all of them, if
      they fit. */
  lemma ClaimTakesDue(db: Db, worker: Worker, now: Time, lease: Time, limit: nat)
    requires Quiet(db)
    ensures var picked := ClaimAdmitted(db, worker, now, lease, limit).1;
            && Distinct(picked) && (forall o | o in picked :: o in db.orders && Due(db.orders[o], now))
            && |picked| == Min(limit, |DueOrders(db, now)|)
            && (|picked| < limit ==> forall o | o in db.orders && Due(db.orders[o], now) :: o in picked)
  {
    assert !AnyPending(db);
    var s := EligibleOrders(db, now);
    assert s == DueOrders(db, now);
    EarliestTakes(db.orders, s, limit);
    EarliestWithin(db.orders, s, limit);
    var picked := Earliest(db.orders, s, limit);
    DistinctCount(picked);
    forall o | o in picked ensures o in db.orders && Due(db.orders[o], now) { assert o in Ids(picked); }
    if |picked| < limit {
      AllOfThem(Ids(picked), s);
      forall o | o in db.orders && Due(db.orders[o], now) ensures o in picked { assert o in s && o in Ids(picked); }
    }
  }

  lemma AllOfThem(a: set<OrderId>, b: set<OrderId>)
    requires a <= b && |a| == |b|
    ensures a == b
  {
    if a != b {
      var x :| x in b && x !in a;
      SubsetSize(a, b - {x});
    }
  }

  /** A pending batch keeps everything back. */
  lemma PendingHoldsBack(db: Db, worker: Worker, now: Time, lease: Time, limit: nat, b: BatchId)
    requires b in db.batches && db.batches[b].state.Pending?
    ensures ClaimAdmitted(db, worker, now, lease, limit) == (db, [])
  {
    assert AnyPending(db);
  }

  // ---- Which batch is handed out ----

  ghost predicate Expired(row: Batch, now: Time) { row.state.Claimed? && row.until.Some? && row.until.value < now }

  /** A worker gets a batch exactly when some claim on one has run out, or one is pending and none is
      claimed; it then owns that batch until its own lease ends, and no order changes. */
  lemma BatchHandedOut(db: Db, worker: Worker, now: Time, lease: Time)
    requires SingleFlight(db.batches)
    ensures var (next, r) := ClaimBatch(db, worker, now, lease);
            && (r.Ok? && r.value.Some?
                <==> (exists b :: b in db.batches && Expired(db.batches[b], now))
                     || (&& (exists b :: b in db.batches && db.batches[b].state.Pending?)
                         && (forall b | b in db.batches :: !db.batches[b].state.Claimed?)))
            && (r.Ok? && r.value.Some? ==>
                  && r.value.value in db.batches && Owns(next, r.value.value, worker)
                  && next.batches[r.value.value].until == Some(now + lease)
                  && (Expired(db.batches[r.value.value], now) || db.batches[r.value.value].state.Pending?))
            && next.orders == db.orders && next.submissions == db.submissions
  {
    ClaimableExactly(db, now);
    ClaimHandsOut(db, worker, now, lease);
  }

  lemma ClaimableExactly(db: Db, now: Time)
    ensures (exists b :: Claimable(db, b, now))
            <==> (exists b :: b in db.batches && Expired(db.batches[b], now))
                 || (&& (exists b :: b in db.batches && db.batches[b].state.Pending?)
                     && (forall b | b in db.batches :: !db.batches[b].state.Claimed?))
  {
    if b :| b in db.batches && Expired(db.batches[b], now) {
      assert ExpiredClaim(db, b, now) && Claimable(db, b, now);
    } else if b :| b in db.batches && db.batches[b].state.Pending? {
      if c :| c in db.batches && db.batches[c].state.Claimed? {
        assert !ExpiredClaim(db, c, now) && LiveClaim(db, now);
      } else {
        assert !LiveClaim(db, now) && Claimable(db, b, now);
      }
    }
  }

  lemma ClaimHandsOut(db: Db, worker: Worker, now: Time, lease: Time)
    ensures var (next, r) := ClaimBatch(db, worker, now, lease);
            && (r.Ok? && r.value.Some? <==> exists b :: Claimable(db, b, now))
            && (r.Ok? && r.value.Some? ==>
                  && r.value.value in db.batches && Owns(next, r.value.value, worker)
                  && next.batches[r.value.value].until == Some(now + lease)
                  && (Expired(db.batches[r.value.value], now) || db.batches[r.value.value].state.Pending?))
            && next.orders == db.orders && next.submissions == db.submissions
  {
    if b :| Claimable(db, b, now) { NoClaimBeside(db, now); }
  }

  /** A pending batch is claimable only when nothing is claimed. */
  lemma NoClaimBeside(db: Db, now: Time)
    ensures forall b :: Claimable(db, b, now) && db.batches[b].state.Pending? ==> !AnyClaimed(db)
  {
    forall b | Claimable(db, b, now) && db.batches[b].state.Pending? ensures !AnyClaimed(db) {
      forall c | c in db.batches ensures !db.batches[c].state.Claimed? {
        assert !ExpiredClaim(db, c, now) && !LiveClaim(db, now);
      }
    }
  }

  // ---- The stages of an order ----

  /** The orders were just claimed by the worker; batches and submissions are as before. */
  ghost predicate AreClaimed(db: Db, next: Db, ids: seq<OrderId>, worker: Worker) {
    && Inv(next) && Distinct(ids) && (forall o | o in ids :: ClaimedBy(next, o, worker))
    && next.batches == db.batches && next.submissions == db.submissions
  }

  lemma Claiming(db: Db, worker: Worker, now: Time, lease: Time, limit: nat)
    requires Inv(db) && Quiet(db)
    ensures var (next, ids) := ClaimAdmitted(db, worker, now, lease, limit); AreClaimed(db, next, ids, worker)
  {
    ClaimAdmittedKeeps(db, worker, now, lease, limit);
    ClaimTakesDue(db, worker, now, lease, limit);
    var (next, ids) := ClaimAdmitted(db, worker, now, lease, limit);
    forall o | o in ids ensures ClaimedBy(next, o, worker) { assert o in Ids(ids); }
  }

  /** A batch in some state holds exactly these orders, and each row is as given. */
  ghost predicate Holds(db: Db, b: BatchId, ids: seq<OrderId>, state: OrderState, tx: Option<TxHash>) {
    && b in db.batches && db.batches[b].payload == ids
    && (forall o | o in ids :: o in db.orders && db.orders[o].batch == Some(b) && db.orders[o].state == state && db.orders[o].tx == tx)
    && (forall o | o in db.orders && db.orders[o].batch == Some(b) :: o in ids)
  }

  lemma Batching(db: Db, worker: Worker, ids: seq<OrderId>, b: BatchId, now: Time)
    requires Inv(db) && Quiet(db) && ids != [] && Distinct(ids) && b !in db.batches && forall o | o in ids :: ClaimedBy(db, o, worker)
    ensures var (next, r) := CreateBatch(db, worker, ids, ids, b, now);
            r == Ok(Some(b)) && Inv(next) && Holds(next, b, ids, Batched, None) && OnlyPending(db, next, b)
  {
    CreateBatchKeeps(db, worker, ids, ids, b, now);
    CreatedAlone(db, worker, ids, b, now);
    NewMembers(db, worker, ids, b, now);
  }

  lemma CreatedAlone(db: Db, worker: Worker, ids: seq<OrderId>, b: BatchId, now: Time)
    requires Quiet(db) && ids != [] && Distinct(ids) && b !in db.batches
    requires forall o | o in ids :: ClaimedBy(db, o, worker)
    ensures var (next, r) := CreateBatch(db, worker, ids, ids, b, now); r == Ok(Some(b)) && OnlyPending(db, next, b)
  {
    assert !AnyPending(db);
  }

  /** The batch is new and pending; the others, and the submissions, are as before. */
  ghost predicate OnlyPending(db: Db, next: Db, b: BatchId) {
    && next.batches.Keys == db.batches.Keys + {b} && b in next.batches && next.batches[b].state.Pending?
    && (forall c | c in db.batches && c != b :: next.batches[c] == db.batches[c])
    && next.submissions == db.submissions
  }

  lemma NewMembers(db: Db, worker: Worker, ids: seq<OrderId>, b: BatchId, now: Time)
    requires RowsOk(db.orders) && PlacedOk(db.orders, db.batches) && b !in db.batches && forall o | o in ids :: ClaimedBy(db, o, worker)
    requires CreateBatch(db, worker, ids, ids, b, now).1 == Ok(Some(b))
    ensures Holds(CreateBatch(db, worker, ids, ids, b, now).0, b, ids, Batched, None)
  {
    forall o | o in ids ensures db.orders[o].tx == None { assert RowOk(db.orders[o]); }
  }

  lemma Taking(db: Db, b: BatchId, ids: seq<OrderId>, worker: Worker, now: Time, lease: Time)
    requires Inv(db) && Holds(db, b, ids, Batched, None) && db.batches[b].state.Pending?
    requires forall c | c in db.batches :: !db.batches[c].state.Claimed?
    ensures var (next, r) := ClaimBatch(db, worker, now, lease);
            && r == Ok(Some(b)) && Inv(next) && Holds(next, b, ids, Batched, None) && Owns(next, b, worker)
            && next.submissions == db.submissions
  {
    ClaimBatchKeeps(db, worker, now, lease);
    BatchHandedOut(db, worker, now, lease);
  }

  lemma Submitting(db: Db, b: BatchId, ids: seq<OrderId>, worker: Worker, tx: TxHash)
    requires Inv(db) && Holds(db, b, ids, Batched, None) && Owns(db, b, worker) && Distinct(ids) && tx !in db.submissions
    ensures var (next, r) := RecordSubmission(db, b, worker, tx, ids);
            && r == Ok(true) && Inv(next) && Holds(next, b, ids, Submitted, Some(tx)) && Owns(next, b, worker)
            && tx in next.submissions && next.submissions[tx] == Submission(b, ids, Open)
  {
    RecordSubmissionKeeps(db, b, worker, tx, ids);
    assert forall o | o in ids :: AwaitsSubmission(db, b, o);
  }

  lemma Reconciling(db: Db, b: BatchId, ids: seq<OrderId>, worker: Worker, tx: TxHash)
    requires Inv(db) && Holds(db, b, ids, Submitted, Some(tx)) && Owns(db, b, worker) && ids != []
    ensures var (next, r) := BeginReconciliation(db, b, worker);
            && r == Ok(true) && Inv(next) && Holds(next, b, ids, Submitted, Some(tx)) && next.batches[b].state.Reconciling?
            && next.submissions == db.submissions
  {
    BeginReconciliationKeeps(db, b, worker);
    ReconcilingHolds(db, b, ids, worker, tx);
  }

  lemma ReconcilingHolds(db: Db, b: BatchId, ids: seq<OrderId>, worker: Worker, tx: TxHash)
    requires Holds(db, b, ids, Submitted, Some(tx)) && Owns(db, b, worker) && ids != []
    ensures var (next, r) := BeginReconciliation(db, b, worker);
            && r == Ok(true) && Holds(next, b, ids, Submitted, Some(tx)) && next.batches[b].state.Reconciling?
            && next.submissions == db.submissions
  {
    assert ids[0] in ids;
    NothingAwaits(db, b, ids, tx);
    LiveNotFinal(db.(batches := Reconcile(db.batches, b)), b, ids[0]);
  }

  lemma NothingAwaits(db: Db, b: BatchId, ids: seq<OrderId>, tx: TxHash)
    requires Holds(db, b, ids, Submitted, Some(tx))
    ensures !(exists o :: o in db.orders && AwaitsSubmission(db, b, o))
  {
  }

  lemma LiveNotFinal(db: Db, b: BatchId, o: OrderId)
    requires o in db.orders && db.orders[o].batch == Some(b) && !IsTerminal(db.orders[o].state)
    ensures FinalizeIfReady(db, b) == db
  {
  }

  /** The outcome reached every order, the submission, and the batch. */
  ghost predicate Concluded(db: Db, b: BatchId, ids: seq<OrderId>, tx: TxHash, reason: Option<Reason>) {
    && Holds(db, b, ids, if reason.None? then Confirmed else Failed, Some(tx))
    && (forall o | o in ids :: db.orders[o].error == reason
                               && o in db.terminal && db.terminal[o] == if reason.None? then ConfirmedEvent else FailedEvent)
    && tx in db.submissions && db.submissions[tx].state == (if reason.None? then Included else Dropped)
    && db.batches[b].state.Terminal? && (db.batches[b].hasError <==> reason.Some?) && BatchTerminal(b) in db.outbox
  }

  lemma SettledHolds(db: Db, b: BatchId, ids: seq<OrderId>, tx: TxHash, reason: Option<Reason>)
    requires Holds(db, b, ids, Submitted, Some(tx)) && tx in db.submissions && db.submissions[tx] == Submission(b, ids, Open)
    ensures var settled := Settled(db, tx, reason);
            && Holds(settled, b, ids, if reason.None? then Confirmed else Failed, Some(tx)) && settled.batches == db.batches
            && (forall o | o in ids :: settled.orders[o].error == reason)
            && tx in settled.submissions && settled.submissions[tx].state == (if reason.None? then Included else Dropped)
  {
    assert Settled(db, tx, reason).orders.Keys == db.orders.Keys;
    assert forall o | o in ids :: o in Ids(ids);
  }

  lemma FinalizeConcludes(db: Db, b: BatchId, ids: seq<OrderId>, tx: TxHash, reason: Option<Reason>)
    requires Holds(db, b, ids, if reason.None? then Confirmed else Failed, Some(tx)) && ids != []
    requires db.batches[b].state.Reconciling? && forall o | o in ids :: db.orders[o].error == reason
    ensures var next := FinalizeIfReady(db, b);
            && next.orders == db.orders && next.submissions == db.submissions && next.terminal == db.terminal
            && b in next.batches && next.batches[b].payload == ids
            && next.batches[b].state.Terminal? && (next.batches[b].hasError <==> reason.Some?) && BatchTerminal(b) in next.outbox
  {
    assert ids[0] in ids && db.orders[ids[0]].batch == Some(b);
  }

  lemma Concluding(db: Db, b: BatchId, ids: seq<OrderId>, tx: TxHash, reason: Option<Reason>)
    requires Inv(db) && Holds(db, b, ids, Submitted, Some(tx)) && db.batches[b].state.Reconciling? && ids != []
    requires tx in db.submissions && db.submissions[tx] == Submission(b, ids, Open)
    ensures ResolveSubmission(db, tx, reason).1 && Inv(ResolveSubmission(db, tx, reason).0)
    ensures Concluded(ResolveSubmission(db, tx, reason).0, b, ids, tx, reason)
  {
    var next := ResolveSubmission(db, tx, reason).0;
    ResolveKeeps(db, tx, reason);
    SettledHolds(db, b, ids, tx, reason);
    FinalizeConcludes(Settled(db, tx, reason), b, ids, tx, reason);
    forall o | o in ids ensures o in next.terminal && next.terminal[o] == if reason.None? then ConfirmedEvent else FailedEvent {
      assert IsTerminal(next.orders[o].state);
    }
  }

  /** From any state with no pending or claimed batch, one round of the protocol takes every order it
      claims to the outcome of its transaction, good or bad. */
  lemma RoundConcludes(db: Db, worker: Worker, now: Time, lease: Time, limit: nat, b: BatchId, created: Time,
                       executor: Worker, taken: Time, hold: Time, tx: TxHash, reason: Option<Reason>)
    requires Inv(db) && Quiet(db) && (forall c | c in db.batches :: !db.batches[c].state.Claimed?)
    requires b !in db.batches && tx !in db.submissions
    ensures var (claimed, ids) := ClaimAdmitted(db, worker, now, lease, limit);
            var batched := CreateBatch(claimed, worker, ids, ids, b, created).0;
            var owned := ClaimBatch(batched, executor, taken, hold).0;
            var submitted := RecordSubmission(owned, b, executor, tx, ids).0;
            var reconciling := BeginReconciliation(submitted, b, executor).0;
            ids != [] ==> Concluded(ResolveSubmission(reconciling, tx, reason).0, b, ids, tx, reason)
  {
    var (claimed, ids) := ClaimAdmitted(db, worker, now, lease, limit);
    Claiming(db, worker, now, lease, limit);
    if ids != [] { RoundFrom(claimed, worker, ids, b, created, executor, taken, hold, tx, reason); }
  }

  lemma RoundFrom(db: Db, worker: Worker, ids: seq<OrderId>, b: BatchId, created: Time,
                  executor: Worker, taken: Time, hold: Time, tx: TxHash, reason: Option<Reason>)
    requires Inv(db) && Quiet(db) && (forall c | c in db.batches :: !db.batches[c].state.Claimed?)
    requires ids != [] && Distinct(ids) && (forall o | o in ids :: ClaimedBy(db, o, worker)) && b !in db.batches && tx !in db.submissions
    ensures var owned := ClaimBatch(CreateBatch(db, worker, ids, ids, b, created).0, executor, taken, hold).0;
            var reconciling := BeginReconciliation(RecordSubmission(owned, b, executor, tx, ids).0, b, executor).0;
            Concluded(ResolveSubmission(reconciling, tx, reason).0, b, ids, tx, reason)
  {
    Batching(db, worker, ids, b, created);
    var batched := CreateBatch(db, worker, ids, ids, b, created).0;
    Taking(batched, b, ids, executor, taken, hold);
    SubmitToEnd(ClaimBatch(batched, executor, taken, hold).0, b, ids, executor, tx, reason);
  }

  lemma SubmitToEnd(db: Db, b: BatchId, ids: seq<OrderId>, executor: Worker, tx: TxHash, reason: Option<Reason>)
    requires Inv(db) && Holds(db, b, ids, Batched, None) && Owns(db, b, executor) && Distinct(ids) && ids != [] && tx !in db.submissions
    ensures var reconciling := BeginReconciliation(RecordSubmission(db, b, executor, tx, ids).0, b, executor).0;
            Concluded(ResolveSubmission(reconciling, tx, reason).0, b, ids, tx, reason)
  {
    Submitting(db, b, ids, executor, tx);
    var submitted := RecordSubmission(db, b, executor, tx, ids).0;
    Reconciling(submitted, b, ids, executor, tx);
    Concluding(BeginReconciliation(submitted, b, executor).0, b, ids, tx, reason);
  }

  // ---- Which orders a failure reaches ----

  /** Exactly these orders fail with this reason; no other row changes. */
  ghost predicate FailsExactly(db: Db, next: Db, which: set<OrderId>, reason: Reason) {
    && next.orders.Keys == db.orders.Keys && which <= db.orders.Keys
    && (forall o | o in which :: next.orders[o].state.Failed? && next.orders[o].error == Some(reason) && o in next.terminal)
    && (forall o | o in db.orders && o !in which :: next.orders[o] == db.orders[o])
  }

  lemma FailClaimedExactly(db: Db, o: OrderId, worker: Worker, reason: Reason)
    ensures var (next, failed) := FailClaimed(db, o, worker, reason);
            && (failed <==> o in db.orders && db.orders[o].state.ProcessingClaimed? && db.orders[o].owner == Some(worker))
            && FailsExactly(db, next, if failed then {o} else {}, reason)
  {
  }

  lemma FailByIdsExactly(db: Db, ids: seq<OrderId>, reason: Reason)
    ensures FailsExactly(db, FailByIds(db, ids, reason).0,
                         (set o | o in db.orders && o in ids && (db.orders[o].state.Admitted? || db.orders[o].state.ProcessingClaimed?)),
                         reason)
  {
    assert QueuedAmong(db, ids)
           == (set o | o in db.orders && o in ids && (db.orders[o].state.Admitted? || db.orders[o].state.ProcessingClaimed?));
  }

  /** Before submission a batch's owner fails the listed orders that are still batched in it; anyone else
      fails nothing. Their proposed swaps fail with them. */
  lemma MarkFailedExactly(db: Db, b: BatchId, worker: Worker, ids: seq<OrderId>, reason: Reason)
    ensures var next := MarkPreSubmissionFailed(db, b, worker, ids, reason);
            var which := set o | o in db.orders && o in ids && Owns(db, b, worker)
                                 && db.orders[o].state.Batched? && db.orders[o].batch == Some(b);
            && FailsExactly(db, next, which, reason)
            && (forall o | o in which && o in db.accounting && db.accounting[o].Proposed? :: o in next.accounting && next.accounting[o].SwapFailed?)
  {
    assert AwaitingAmong(db, b, worker, ids)
           == (set o | o in db.orders && o in ids && Owns(db, b, worker) && db.orders[o].state.Batched? && db.orders[o].batch == Some(b));
  }

  /** The owner's sweep fails, and reports, every order still batched in the batch. */
  lemma FailRemainingExactly(db: Db, b: BatchId, worker: Worker, reason: Reason)
    ensures var (next, reported) := FailRemaining(db, b, worker, reason);
            var which := set o | o in db.orders && Owns(db, b, worker) && db.orders[o].state.Batched? && db.orders[o].batch == Some(b);
            && FailsExactly(db, next, which, reason)
            && Distinct(reported) && forall o :: o in reported <==> o in which
  {
    var which := set o | o in db.orders && Owns(db, b, worker) && db.orders[o].state.Batched? && db.orders[o].batch == Some(b);
    assert Awaiting(db, b, worker) == which;
    EarliestAll(db.orders, which);
  }

  lemma EarliestAll(orders: Orders, s: set<OrderId>)
    requires s <= orders.Keys
    ensures Distinct(Earliest(orders, s, |s|)) && forall o :: o in Earliest(orders, s, |s|) <==> o in s
  {
    var picked := Earliest(orders, s, |s|);
    EarliestTakes(orders, s, |s|);
    EarliestWithin(orders, s, |s|);
    DistinctCount(picked);
    AllOfThem(Ids(picked), s);
    forall o ensures o in picked <==> o in s { assert o in picked <==> o in Ids(picked); }
  }

  // ---- When a batch or a submission is recorded ----

  /** A batch is created exactly when its swaps are those of its orders, each order is listed once and
      claimed by the worker, its id is new and no batch is pending. Anything else changes nothing, and
      is an error unless there was nothing to batch. */
  lemma BatchCreatedExactly(db: Db, worker: Worker, ids: seq<OrderId>, swaps: seq<OrderId>, b: BatchId, now: Time)
    ensures var (next, r) := CreateBatch(db, worker, ids, swaps, b, now);
            && (r == Ok(Some(b))
                <==> && ids != [] && swaps == ids && (forall i, j | 0 <= i < j < |ids| :: ids[i] != ids[j])
                     && (forall o | o in ids :: o in db.orders && db.orders[o].state.ProcessingClaimed? && db.orders[o].owner == Some(worker))
                     && b !in db.batches && Quiet(db))
            && (r == Ok(None) <==> ids == [])
            && (r != Ok(Some(b)) ==> next == db && (ids != [] ==> r.Err?))
  {
  }

  /** The owner of a claimed batch records a new transaction exactly when it lists orders still batched
      in that batch, each once; those become submitted under it and no other row changes. A known
      transaction is accepted again without effect, and nobody else records anything. */
  lemma SubmissionRecordedExactly(db: Db, b: BatchId, worker: Worker, tx: TxHash, ids: seq<OrderId>)
    ensures var (next, r) := RecordSubmission(db, b, worker, tx, ids);
            var awaited := (forall i, j | 0 <= i < j < |ids| :: ids[i] != ids[j])
                           && forall o | o in ids :: o in db.orders && db.orders[o].batch == Some(b) && db.orders[o].state.Batched?;
            && (r == Ok(true) <==> Owns(db, b, worker) && (tx in db.submissions || awaited))
            && (r == Ok(false) <==> !Owns(db, b, worker))
            && (r != Ok(true) || tx in db.submissions ==> next == db)
            && (r == Ok(true) && tx !in db.submissions ==>
                  && next.submissions == db.submissions[tx := Submission(b, ids, Open)] && next.batches == db.batches
                  && SubmittedUnder(db, next, ids, tx))
  {
  }

  ghost predicate SubmittedUnder(db: Db, next: Db, ids: seq<OrderId>, tx: TxHash) {
    && next.orders.Keys == db.orders.Keys
    && (forall o | o in ids :: o in next.orders && next.orders[o].state.Submitted? && next.orders[o].tx == Some(tx))
    && (forall o | o in db.orders && o !in ids :: next.orders[o] == db.orders[o])
  }

  /** An open transaction is settled once: the listed orders that were submitted under it take its outcome,
      every other row stays, and the submission is closed. A closed or unknown one changes nothing. */
  lemma ResolvedExactly(db: Db, tx: TxHash, reason: Option<Reason>)
    ensures var (next, done) := ResolveSubmission(db, tx, reason);
            && (done <==> tx in db.submissions && db.submissions[tx].state.Open?) && (!done ==> next == db)
            && (done ==>
                  && next.submissions == db.submissions[tx := db.submissions[tx].(state := if reason.None? then Included else Dropped)]
                  && next.orders.Keys == db.orders.Keys
                  && (forall o | o in db.orders :: OutcomeReaches(db.orders[o], next.orders[o], tx, reason, o in db.submissions[tx].orders)))
  {
  }

  ghost predicate OutcomeReaches(row: Order, next: Order, tx: TxHash, reason: Option<Reason>, listed: bool) {
    if listed && row.state.Submitted? && row.tx == Some(tx)
    then next.error == reason && next.state == (if reason.None? then Confirmed else Failed) && next.tx == row.tx && next.batch == row.batch
    else next == row
  }

  ghost predicate Unfinished(db: Db, b: BatchId) {
    b in db.batches && (db.batches[b].state.Claimed? || db.batches[b].state.Reconciling?)
  }

  ghost predicate AllTerminal(db: Db, b: BatchId) {
    forall o | o in db.orders && db.orders[o].batch == Some(b) :: IsTerminal(db.orders[o].state)
  }

  /** A claimed or reconciling batch becomes terminal as soon as none of its orders is live; otherwise
      nothing changes. */
  lemma FinalizedExactly(db: Db, b: BatchId)
    ensures var next := FinalizeIfReady(db, b);
            if Unfinished(db, b) && AllTerminal(db, b)
            then b in next.batches && next.batches == db.batches[b := next.batches[b]] && next.orders == db.orders
                 && next.batches[b].state.Terminal? && BatchTerminal(b) in next.outbox
            else next == db
  {
  }

  // ---- Admission ----

  /** A lease is granted while the user has nonces left and the random tail is fresh. */
  lemma LeaseGranted(db: Db, user: User, random: Entropy)
    requires LeasesOk(db.allocators, db.leases)
    ensures var (next, r) := AllocateLease(db, user, random); var nonce := NextNonce(db, user);
            && (r.Ok? <==> nonce < U32_LIMIT && ForNonce(nonce, random) !in db.leases)
            && (r.Ok? ==> next.leases == db.leases[r.value := Lease(user, nonce)] && NextNonce(next, user) == nonce + 1
                          && r.value == ForNonce(nonce, random))
  {
    NextIsUnused(db, user);
  }

  lemma NextIsUnused(db: Db, user: User)
    requires LeasesOk(db.allocators, db.leases)
    ensures forall c | c in db.leases :: db.leases[c] != Lease(user, NextNonce(db, user))
  {
  }

  /** A new order is admitted exactly when its lease is the user's, its client id has no reservation, the
      queue has room and its order id is unused; it is then due at once. */
  lemma AdmittedExactly(db: Db, client: Uuid, commitment: Commitment, id: OrderId, user: User, now: Time, limit: nat)
    requires LeasesOk(db.allocators, db.leases) && AdmissionOk(db.leases, db.reservations, db.orders)
    ensures var (next, r) := Admit(db, client, commitment, id, user, now, limit);
            && (r == Ok(New(id))
                <==> && client in db.leases && db.leases[client].user == user && client !in db.reservations
                     && |QueuedOrders(db)| < limit && id !in db.orders)
            && (r == Ok(New(id)) ==>
                  && id in next.orders && next.orders[id].state.Admitted? && next.orders[id].createdAt == now
                  && next.orders[id].user == user && next.orders[id].client == client
                  && client in next.reservations && next.reservations[client] == Reservation(commitment, id)
                  && OrderAdmitted(id) in next.outbox && Due(next.orders[id], now))
  {
    if client !in db.reservations && id !in db.orders { FreshIds(db, client, id); }
  }

  /** A reservation whose order row is missing gets the row back on a retry with the same commitment. */
  lemma MissingOrderRestored(db: Db, client: Uuid, commitment: Commitment, id: OrderId, user: User, now: Time, limit: nat)
    requires client in db.leases && db.leases[client] == Lease(user, NonceOf(client)) && client in db.reservations
    requires db.reservations[client].commitment == commitment && db.reservations[client].order !in db.orders
    requires forall o | o in db.orders :: db.orders[o].client != client
    ensures var (next, r) := Admit(db, client, commitment, id, user, now, limit); var o := db.reservations[client].order;
            && r == Ok(Existing(o)) && o in next.orders && Due(next.orders[o], now)
            && next.orders[o].user == user && next.orders[o].client == client && OrderAdmitted(o) in next.outbox
  {
    assert !ClientTaken(db, client);
  }

  lemma FreshIds(db: Db, client: Uuid, id: OrderId)
    requires AdmissionOk(db.leases, db.reservations, db.orders) && client !in db.reservations && id !in db.orders
    ensures !ReservedOrder(db, id) && !ClientTaken(db, client)
  {
  }
}
