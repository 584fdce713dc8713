/**
 The executor against the chain (src/miden_execution.rs): a worker claims a batch into memory,
 submits chunks of it, and only then records the submission in the store, so a crash or a lost lease
 between the two lets another worker execute the same orders again. The chain includes a submitted
 transaction at any later time, any number of times, and refuses it as a whole when one of its
 nonces is not free in the user's window. Every order takes effect at most once in every run.
 */
module AtMostOnce {
  import opened Basics
  import T = ExecutionTables
  import ExecutionInvariant
  import ExecutionRuns
  import ExecutionHistory
  import ExecutionStore
  import N = NonceWindow

  type User = T.User
  type Worker = T.Worker

  /** What a submitted transaction carries for one order. */
  datatype Swap = Swap(order: T.OrderId, user: User, nonce: nat)

  datatype System = System(
    db: T.Db,
    memory: map<Worker, seq<Swap>>,
    mempool: set<seq<Swap>>,
    windows: map<User, N.Window>,
    effects: seq<Swap>)

  const START := System(T.EMPTY, map[], {}, map[], [])

  datatype Step =
    | Transact(op: ExecutionRuns.Op)
    | Claim(worker: Worker, now: T.Time, lease: T.Time)
    | Submit(worker: Worker, chunk: seq<Swap>)
    | Include(chunk: seq<Swap>)
    | Crash(worker: Worker)

  // ---- The chain ----

  function WindowOf(windows: map<User, N.Window>, user: User): N.Window {
    if user in windows then windows[user] else N.EMPTY
  }

  /** A transaction consumes the nonces of its swaps in order; one refusal refuses it as a whole. */
  function Execute(windows: map<User, N.Window>, swaps: seq<Swap>): Option<map<User, N.Window>>
    decreases |swaps|
  {
    if swaps == [] then Some(windows)
    else
      match N.Consume(WindowOf(windows, swaps[0].user), swaps[0].nonce)
      case Err(_) => None
      case Ok(w) => Execute(windows[swaps[0].user := w], swaps[1..])
  }

  ghost function Consumed(effects: seq<Swap>, user: User): set<nat> {
    set s | s in effects && s.user == user :: s.nonce
  }

  /** Every user's window refines the nonces of that user's effects. */
  ghost predicate WindowsRefine(windows: map<User, N.Window>, effects: seq<Swap>) {
    forall u :: N.Refines(WindowOf(windows, u), Consumed(effects, u))
  }

  /** No two effects share a user and a nonce. */
  ghost predicate NoncesDistinct(effects: seq<Swap>) {
    forall i, j | 0 <= i < j < |effects| :: !(effects[i].user == effects[j].user && effects[i].nonce == effects[j].nonce)
  }

  lemma ConsumedMore(effects: seq<Swap>, s: Swap, u: User)
    ensures Consumed(effects + [s], u) == Consumed(effects, u) + if u == s.user then {s.nonce} else {}
  {
  }

  lemma ConsumeOne(windows: map<User, N.Window>, effects: seq<Swap>, s: Swap)
    requires WindowsRefine(windows, effects) && NoncesDistinct(effects)
    requires N.Consume(WindowOf(windows, s.user), s.nonce).Ok?
    ensures WindowsRefine(windows[s.user := N.Consume(WindowOf(windows, s.user), s.nonce).value], effects + [s])
    ensures NoncesDistinct(effects + [s])
  {
    var w, consumed := WindowOf(windows, s.user), Consumed(effects, s.user);
    assert N.Refines(w, consumed);
    N.ConsumeRefines(w, consumed, s.nonce);
    var next := windows[s.user := N.Consume(w, s.nonce).value];
    forall u ensures N.Refines(WindowOf(next, u), Consumed(effects + [s], u)) {
      assert N.Refines(WindowOf(windows, u), Consumed(effects, u));
      RefinesMore(windows, effects, s, N.Consume(w, s.nonce).value, u);
    }
    NoncesMore(effects, s);
  }

  /** Only the window of the swap's user moves. */
  lemma RefinesMore(windows: map<User, N.Window>, effects: seq<Swap>, s: Swap, w: N.Window, u: User)
    requires N.Refines(WindowOf(windows, u), Consumed(effects, u)) && N.Refines(w, Consumed(effects, s.user) + {s.nonce})
    ensures N.Refines(WindowOf(windows[s.user := w], u), Consumed(effects + [s], u))
  {
    ConsumedMore(effects, s, u);
    if u == s.user {
      assert WindowOf(windows[s.user := w], u) == w;
    } else {
      assert WindowOf(windows[s.user := w], u) == WindowOf(windows, u);
      assert Consumed(effects + [s], u) == Consumed(effects, u);
    }
  }

  lemma NoncesMore(effects: seq<Swap>, s: Swap)
    requires NoncesDistinct(effects) && s.nonce !in Consumed(effects, s.user)
    ensures NoncesDistinct(effects + [s])
  {
    forall i | 0 <= i < |effects| ensures !(effects[i].user == s.user && effects[i].nonce == s.nonce) {
      assert effects[i] in effects;
    }
  }

  lemma {:induction false} ExecuteRefines(windows: map<User, N.Window>, effects: seq<Swap>, swaps: seq<Swap>)
    requires WindowsRefine(windows, effects) && NoncesDistinct(effects)
    requires Execute(windows, swaps).Some?
    ensures WindowsRefine(Execute(windows, swaps).value, effects + swaps)
    ensures NoncesDistinct(effects + swaps)
    decreases |swaps|
  {
    if swaps == [] {
      assert effects + swaps == effects;
    } else {
      ConsumeOne(windows, effects, swaps[0]);
      var next := windows[swaps[0].user := N.Consume(WindowOf(windows, swaps[0].user), swaps[0].nonce).value];
      ExecuteRefines(next, effects + [swaps[0]], swaps[1..]);
      assert effects + [swaps[0]] + swaps[1..] == effects + swaps;
    }
  }

  // ---- Steps ----

  function Load(db: T.Db, ids: seq<T.OrderId>): seq<Swap>
  {
    if ids == [] then []
    else
      (if ids[0] in db.orders then [Swap(ids[0], db.orders[ids[0]].user, db.orders[ids[0]].nonce)] else [])
      + Load(db, ids[1..])
  }

  /** The orders a claim hands to the executor. */
  function LoadBatch(db: T.Db, claim: Result<Option<T.BatchId>, T.TxError>): seq<Swap>
  {
    if claim.Ok? && claim.value.Some? && claim.value.value in db.batches then
      match T.Unsubmitted(db, claim.value.value, db.batches[claim.value.value].payload)
      case Err(_) => []
      case Ok(left) => Load(db, left)
    else []
  }

  /** What a step does to the store. */
  ghost function Store(db: T.Db, step: Step, limit: nat): T.Db
  {
    match step
    case Transact(op) => ExecutionRuns.Apply(db, op, limit)
    case Claim(worker, now, lease) => T.ClaimBatch(db, worker, now, lease).0
    case _ => db
  }

  ghost function Next(s: System, step: Step, limit: nat): System
  {
    var db := Store(s.db, step, limit);
    match step
    case Transact(op) => s.(db := db)
    case Claim(worker, now, lease) =>
      s.(db := db, memory := s.memory[worker := LoadBatch(db, T.ClaimBatch(s.db, worker, now, lease).1)])
    case Submit(worker, chunk) =>
      if worker in s.memory && forall x | x in chunk :: x in s.memory[worker] then s.(mempool := s.mempool + {chunk}) else s
    case Include(chunk) =>
      if chunk in s.mempool then
        match Execute(s.windows, chunk)
        case None => s
        case Some(windows) => s.(windows := windows, effects := s.effects + chunk)
      else s
    case Crash(worker) => s.(memory := s.memory - {worker})
  }

  ghost function Run(steps: seq<Step>, limit: nat): System
    decreases |steps|
  {
    if |steps| == 0 then START else Next(Run(steps[..|steps| - 1], limit), steps[|steps| - 1], limit)
  }

  // ---- The invariant ----

  /** The swap carries the user and nonce of an admitted order. */
  ghost predicate Genuine(orders: ExecutionInvariant.Orders, s: Swap) {
    s.order in orders && orders[s.order].user == s.user && orders[s.order].nonce == s.nonce
  }

  ghost predicate AllGenuine(orders: ExecutionInvariant.Orders, swaps: seq<Swap>) {
    forall s | s in swaps :: Genuine(orders, s)
  }

  ghost predicate SwapsOk(s: System) {
    && (forall w | w in s.memory :: AllGenuine(s.db.orders, s.memory[w]))
    && (forall c | c in s.mempool :: AllGenuine(s.db.orders, c))
    && AllGenuine(s.db.orders, s.effects)
  }

  ghost predicate ChainOk(s: System) { WindowsRefine(s.windows, s.effects) && NoncesDistinct(s.effects) }

  lemma {:induction false} LoadGenuine(db: T.Db, ids: seq<T.OrderId>)
    ensures AllGenuine(db.orders, Load(db, ids))
  {
    if ids != [] { LoadGenuine(db, ids[1..]); }
  }

  lemma LoadBatchGenuine(db: T.Db, claim: Result<Option<T.BatchId>, T.TxError>)
    ensures AllGenuine(db.orders, LoadBatch(db, claim))
  {
    if claim.Ok? && claim.value.Some? && claim.value.value in db.batches {
      match T.Unsubmitted(db, claim.value.value, db.batches[claim.value.value].payload)
      case Err(_) =>
      case Ok(left) => LoadGenuine(db, left);
    }
  }

  lemma GenuineForward(s: System, db: T.Db)
    requires SwapsOk(s) && ExecutionHistory.OrdersEvolve(s.db.orders, db.orders)
    ensures SwapsOk(s.(db := db))
  {
  }

  lemma ChainStep(s: System, step: Step, limit: nat)
    requires ChainOk(s)
    ensures ChainOk(Next(s, step, limit))
  {
    if step.Include? && step.chunk in s.mempool && Execute(s.windows, step.chunk).Some? {
      ExecuteRefines(s.windows, s.effects, step.chunk);
    }
  }

  lemma Transacts(db: T.Db, op: ExecutionRuns.Op, limit: nat)
    requires ExecutionInvariant.Inv(db)
    ensures var next := ExecutionRuns.Apply(db, op, limit);
            ExecutionInvariant.Inv(next) && ExecutionHistory.OrdersEvolve(db.orders, next.orders)
  {
    ExecutionRuns.StepKeeps(db, op, limit);
    ExecutionHistory.StepEvolves(db, op, limit);
  }

  lemma Claims(db: T.Db, worker: Worker, now: T.Time, lease: T.Time)
    requires ExecutionInvariant.Inv(db)
    ensures var next := T.ClaimBatch(db, worker, now, lease).0;
            ExecutionInvariant.Inv(next) && ExecutionHistory.OrdersEvolve(db.orders, next.orders)
  {
    ExecutionInvariant.ClaimBatchKeeps(db, worker, now, lease);
    ExecutionHistory.ClaimBatchEvolves(db, worker, now, lease);
  }

  lemma StoreStep(db: T.Db, step: Step, limit: nat)
    requires ExecutionInvariant.Inv(db)
    ensures var next := Store(db, step, limit);
            ExecutionInvariant.Inv(next) && ExecutionHistory.OrdersEvolve(db.orders, next.orders)
  {
    if step.Transact? {
      Transacts(db, step.op, limit);
    } else if step.Claim? {
      Claims(db, step.worker, step.now, step.lease);
    } else {
      assert Store(db, step, limit) == db;
      ExecutionHistory.EvolvesReflexive(db);
    }
  }

  lemma NextStore(s: System, step: Step, limit: nat)
    ensures Next(s, step, limit).db == Store(s.db, step, limit)
  {
  }

  lemma SwapsStep(s: System, step: Step, limit: nat)
    requires SwapsOk(s) && ExecutionHistory.OrdersEvolve(s.db.orders, Next(s, step, limit).db.orders)
    ensures SwapsOk(Next(s, step, limit))
  {
    var next := Next(s, step, limit);
    GenuineForward(s, next.db);
    if step.Claim? {
      LoadBatchGenuine(next.db, T.ClaimBatch(s.db, step.worker, step.now, step.lease).1);
    }
  }

  lemma {:induction false} RunOk(steps: seq<Step>, limit: nat)
    ensures var s := Run(steps, limit); ExecutionInvariant.Inv(s.db) && SwapsOk(s) && ChainOk(s)
    decreases |steps|
  {
    if steps == [] {
      StartOk();
    } else {
      var before, last := Run(steps[..|steps| - 1], limit), steps[|steps| - 1];
      RunOk(steps[..|steps| - 1], limit);
      NextStore(before, last, limit);
      StoreStep(before.db, last, limit);
      SwapsStep(before, last, limit);
      ChainStep(before, last, limit);
    }
  }

  lemma StartOk()
    ensures ExecutionInvariant.Inv(START.db) && SwapsOk(START) && ChainOk(START)
  {
    ExecutionInvariant.EmptyInv();
    forall u ensures N.Refines(WindowOf(START.windows, u), Consumed(START.effects, u)) {
      N.EmptyRefines();
      assert Consumed(START.effects, u) == {};
    }
  }

  // ---- The theorems ----

  /** However workers crash, lose leases and resubmit, no order takes effect twice. */
  lemma EffectAtMostOnce(steps: seq<Step>, limit: nat)
    ensures var effects := Run(steps, limit).effects;
            forall i, j | 0 <= i < j < |effects| :: effects[i].order != effects[j].order
  {
    var s := Run(steps, limit);
    RunOk(steps, limit);
    forall i, j | 0 <= i < j < |s.effects| ensures s.effects[i].order != s.effects[j].order {
      DistinctEffects(s, i, j);
    }
  }

  lemma DistinctEffects(s: System, i: nat, j: nat)
    requires SwapsOk(s) && NoncesDistinct(s.effects) && i < j < |s.effects|
    ensures s.effects[i].order != s.effects[j].order
  {
    assert Genuine(s.db.orders, s.effects[i]) && Genuine(s.db.orders, s.effects[j]);
  }

  /** A swap the chain refuses as already consumed is refused because of that very order's own
      effect: leases give no nonce to two orders. Anything else not below the window is accepted. */
  lemma RefusalMeansOwnEffect(steps: seq<Step>, limit: nat, chunk: seq<Swap>, x: Swap)
    requires chunk in Run(steps, limit).mempool && x in chunk
    ensures var s := Run(steps, limit); var w := WindowOf(s.windows, x.user);
            && (N.Consume(w, x.nonce) == Err(N.AlreadyConsumed) ==> x in s.effects)
            && (x in s.effects ==> N.Consume(w, x.nonce).Err?)
            && (x !in s.effects && x.nonce >= w.base ==> N.Consume(w, x.nonce).Ok?)
  {
    var s := Run(steps, limit);
    RunOk(steps, limit);
    var consumed := Consumed(s.effects, x.user);
    assert N.Refines(WindowOf(s.windows, x.user), consumed);
    N.ConsumeRefines(WindowOf(s.windows, x.user), consumed, x.nonce);
    if x.nonce in consumed {
      var y :| y in s.effects && y.user == x.user && y.nonce == x.nonce;
      assert Genuine(s.db.orders, x) && Genuine(s.db.orders, y);
      ExecutionHistory.OneToOne(s.db, x.order, y.order);
    }
  }

  // ---- When a transaction is accepted ----

  /** Nothing of the user's that came before has this nonce, or one 96 or more above it. */
  ghost predicate InReach(before: seq<Swap>, s: Swap) {
    forall e | e in before && e.user == s.user :: e.nonce != s.nonce && e.nonce < s.nonce + N.SIZE
  }

  ghost predicate Acceptable(before: seq<Swap>, swaps: seq<Swap>) {
    forall i | 0 <= i < |swaps| :: InReach(before + swaps[..i], swaps[i])
  }

  lemma ConsumeAccepts(w: N.Window, effects: seq<Swap>, s: Swap)
    requires N.Refines(w, Consumed(effects, s.user))
    ensures N.Consume(w, s.nonce).Ok? <==> InReach(effects, s)
  {
    var consumed := Consumed(effects, s.user);
    N.ConsumeRefines(w, consumed, s.nonce);
    if s.nonce < w.base {
      assert w.base + (N.SIZE - 1) in consumed;
    } else if s.nonce !in consumed {
      forall e | e in effects && e.user == s.user ensures e.nonce != s.nonce && e.nonce < s.nonce + N.SIZE {
        assert e.nonce in consumed;
      }
    }
  }

  lemma AcceptableSplit(before: seq<Swap>, swaps: seq<Swap>)
    requires swaps != []
    ensures Acceptable(before, swaps) <==> InReach(before, swaps[0]) && Acceptable(before + [swaps[0]], swaps[1..])
  {
    assert before + swaps[..0] == before;
    if InReach(before, swaps[0]) && Acceptable(before + [swaps[0]], swaps[1..]) { AcceptableJoin(before, swaps); }
    if Acceptable(before, swaps) { AcceptableRest(before, swaps); }
  }

  lemma Shifted(before: seq<Swap>, swaps: seq<Swap>, i: nat)
    requires i + 1 < |swaps|
    ensures before + [swaps[0]] + swaps[1..][..i] == before + swaps[..i + 1] && swaps[1..][i] == swaps[i + 1]
  {
  }

  lemma AcceptableJoin(before: seq<Swap>, swaps: seq<Swap>)
    requires swaps != [] && InReach(before, swaps[0]) && Acceptable(before + [swaps[0]], swaps[1..])
    ensures Acceptable(before, swaps)
  {
    assert before + swaps[..0] == before;
    forall i | 0 <= i < |swaps| ensures InReach(before + swaps[..i], swaps[i]) {
      if i > 0 {
        Shifted(before, swaps, i - 1);
        assert InReach(before + [swaps[0]] + swaps[1..][..i - 1], swaps[1..][i - 1]);
      }
    }
  }

  lemma AcceptableRest(before: seq<Swap>, swaps: seq<Swap>)
    requires swaps != [] && Acceptable(before, swaps)
    ensures InReach(before, swaps[0]) && Acceptable(before + [swaps[0]], swaps[1..])
  {
    assert before + swaps[..0] == before && InReach(before + swaps[..0], swaps[0]);
    forall i | 0 <= i < |swaps| - 1 ensures InReach(before + [swaps[0]] + swaps[1..][..i], swaps[1..][i]) {
      Shifted(before, swaps, i);
      assert InReach(before + swaps[..i + 1], swaps[i + 1]);
    }
  }

  /** The chain accepts a transaction exactly when each of its swaps has a nonce that is new for its user
      and less than 96 behind every other, both among the effects and earlier in the transaction. */
  lemma {:induction false} AcceptedIff(windows: map<User, N.Window>, effects: seq<Swap>, swaps: seq<Swap>)
    requires WindowsRefine(windows, effects) && NoncesDistinct(effects)
    ensures Execute(windows, swaps).Some? <==> Acceptable(effects, swaps)
    decreases |swaps|
  {
    if swaps != [] {
      var w := WindowOf(windows, swaps[0].user);
      assert N.Refines(w, Consumed(effects, swaps[0].user));
      ConsumeAccepts(w, effects, swaps[0]);
      AcceptableSplit(effects, swaps);
      if N.Consume(w, swaps[0].nonce).Ok? {
        ConsumeOne(windows, effects, swaps[0]);
        AcceptedIff(windows[swaps[0].user := N.Consume(w, swaps[0].nonce).value], effects + [swaps[0]], swaps[1..]);
      }
    }
  }

  // ---- What a claimed batch comes to ----

  lemma {:induction false} LoadsAll(db: T.Db, ids: seq<T.OrderId>)
    requires forall o | o in ids :: o in db.orders
    ensures |Load(db, ids)| == |ids|
    ensures forall i | 0 <= i < |ids| :: Load(db, ids)[i] == Swap(ids[i], db.orders[ids[i]].user, db.orders[ids[i]].nonce)
  {
    if ids != [] { LoadsAll(db, ids[1..]); }
  }

  /** The swaps carry exactly the orders that still await submission in the batch. */
  ghost predicate CarriesBatch(db: T.Db, b: T.BatchId, swaps: seq<Swap>) {
    && AllGenuine(db.orders, swaps)
    && forall o :: (exists s :: s in swaps && s.order == o) <==> T.AwaitsSubmission(db, b, o)
  }

  lemma LoadCarries(db: T.Db, b: T.BatchId)
    requires b in db.batches
    requires ExecutionInvariant.PlacedOk(db.orders, db.batches) && ExecutionInvariant.MembersOk(db.batches, db.orders)
    ensures CarriesBatch(db, b, LoadBatch(db, Ok(Some(b))))
  {
    ExecutionStore.ListsAwaiting(db, b);
    var left := T.Unsubmitted(db, b, db.batches[b].payload).value;
    LoadsAll(db, left);
    LoadGenuine(db, left);
    forall o | T.AwaitsSubmission(db, b, o) ensures exists s :: s in Load(db, left) && s.order == o {
      var i :| 0 <= i < |left| && left[i] == o;
      assert Load(db, left)[i] in Load(db, left);
    }
  }

  lemma ClaimLoads(s: System, worker: Worker, now: T.Time, lease: T.Time, limit: nat)
    requires ExecutionInvariant.Inv(s.db)
    requires var r := T.ClaimBatch(s.db, worker, now, lease).1; r.Ok? && r.value.Some?
    ensures var claimed := Next(s, Claim(worker, now, lease), limit);
            && worker in claimed.memory && claimed.windows == s.windows && claimed.effects == s.effects
            && CarriesBatch(claimed.db, T.ClaimBatch(s.db, worker, now, lease).1.value.value, claimed.memory[worker])
  {
    Claims(s.db, worker, now, lease);
    LoadCarries(T.ClaimBatch(s.db, worker, now, lease).0, T.ClaimBatch(s.db, worker, now, lease).1.value.value);
  }

  lemma SubmittedIncluded(s: System, worker: Worker, limit: nat)
    requires ChainOk(s) && worker in s.memory
    ensures var swaps := s.memory[worker];
            Next(Next(s, Submit(worker, swaps), limit), Include(swaps), limit).effects
            == if Acceptable(s.effects, swaps) then s.effects + swaps else s.effects
  {
    AcceptedIff(s.windows, s.effects, s.memory[worker]);
  }

  /** In any run a worker that is handed a batch, submits all it was handed in one transaction, and has it
      included, gets every order of the batch that awaited submission into effect, if and only if their
      nonces are new and in reach; otherwise none of them. */
  lemma BatchTakesEffect(steps: seq<Step>, limit: nat, worker: Worker, now: T.Time, lease: T.Time)
    requires var r := T.ClaimBatch(Run(steps, limit).db, worker, now, lease).1; r.Ok? && r.value.Some?
    ensures var s := Run(steps, limit);
            var claimed := Next(s, Claim(worker, now, lease), limit);
            && worker in claimed.memory
            && CarriesBatch(claimed.db, T.ClaimBatch(s.db, worker, now, lease).1.value.value, claimed.memory[worker])
            && (var swaps := claimed.memory[worker];
                Next(Next(claimed, Submit(worker, swaps), limit), Include(swaps), limit).effects
                == if Acceptable(s.effects, swaps) then s.effects + swaps else s.effects)
  {
    var s := Run(steps, limit);
    RunOk(steps, limit);
    ClaimLoads(s, worker, now, lease, limit);
    SubmittedIncluded(Next(s, Claim(worker, now, lease), limit), worker, limit);
  }
}
