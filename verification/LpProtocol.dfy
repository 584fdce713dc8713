/**
 Applying LP notes across two databases (src/processing.rs, src/execution_store.rs, src/lp_store.rs).
 A note's marker and the new pool snapshot commit together in the execution store; its position
 changes later, in the LP journal; everything in memory is lost when the process crashes, which can
 happen between any two commits.
 */
module LpProtocol {
  import opened Basics
  import opened Words
  import opened Sums
  import opened Pool

  type Note = nat
  type Lp = nat
  type Faucet = nat
  type Key = (Lp, Faucet)

  datatype Kind = DepositNote | WithdrawNote

  datatype Status = Confirmed | Applied | Rejected

  datatype Operation = Operation(
    kind: Kind, lp: Lp, faucet: Faucet, amount: nat, nullifier: Option<nat>, block: nat, createdAt: nat,
    status: Status, shares: nat)

  datatype Journal = Journal(ops: map<Note, Operation>, positions: map<Key, nat>)

  datatype Marker = Marker(faucet: Faucet, shares: nat)

  /** What the process holds in memory: pools, ledger, the rest of the current pass over the journal,
      and the acknowledgement it is about to send for the note at its head. */
  datatype Ram = Ram(pools: map<Faucet, PoolState>, ledger: map<Key, nat>, queue: seq<Note>, acking: Option<(Note, nat)>)

  datatype Entry = Entry(note: Note, shares: nat)

  /** Both databases, the process, and the history of snapshot commits and position changes. */
  datatype System = System(
    journal: Journal, markers: map<Note, Marker>, snapshot: map<Faucet, PoolState>, ram: Option<Ram>,
    commits: seq<Entry>, acks: seq<Entry>)

  datatype LpError = UnknownOperation | NotConfirmed | ShareOverflow | InsufficientShares | OutOfRange

  function SharesOf(m: map<Key, nat>, k: Key): nat { if k in m then m[k] else 0 }

  // ---- The LP journal ----

  predicate NullifierTaken(ops: map<Note, Operation>, nullifier: Option<nat>) {
    nullifier.Some? && exists n :: n in ops && ops[n].nullifier == nullifier
  }

  /** Inserts a note once; a deposit below the minimum is recorded as rejected. */
  function RecordConfirmed(j: Journal, note: Note, op: Operation, minimum: nat): (Journal, Result<bool, LpError>) {
    if op.amount > I64_MAX then (j, Err(OutOfRange))
    else if note in j.ops || NullifierTaken(j.ops, op.nullifier) then (j, Ok(false))
    else
      var status := if op.kind.DepositNote? && op.amount < minimum then Rejected else Confirmed;
      (j.(ops := j.ops[note := op.(status := status, shares := 0)]), Ok(true))
  }

  function ApplyOperation(j: Journal, note: Note, shares: nat): (Journal, Result<bool, LpError>) {
    if note !in j.ops then (j, Err(UnknownOperation))
    else
      var op := j.ops[note];
      var current := SharesOf(j.positions, (op.lp, op.faucet));
      if op.status.Applied? then (j, Ok(false))
      else if !op.status.Confirmed? then (j, Err(NotConfirmed))
      else if op.kind.DepositNote? && current + shares > U64_MAX then (j, Err(ShareOverflow))
      else if op.kind.WithdrawNote? && current < shares then (j, Err(InsufficientShares))
      else
        var next := if op.kind.DepositNote? then current + shares else current - shares;
        if next > I64_MAX || shares > I64_MAX then (j, Err(OutOfRange))
        else
          (Journal(j.ops[note := op.(status := Applied, shares := shares)], j.positions[(op.lp, op.faucet) := next]), Ok(true))
  }

  /** `ORDER BY block_num, created_at` */
  predicate Before(a: Operation, b: Operation) { a.block < b.block || (a.block == b.block && a.createdAt < b.createdAt) }

  /** A listing of exactly the confirmed operations, in journal order; ties may come either way. */
  predicate JournalOrder(ops: map<Note, Operation>, list: seq<Note>) {
    && (forall i, j | 0 <= i < j < |list| :: list[i] != list[j])
    && (forall n | n in list :: n in ops && ops[n].status.Confirmed?)
    && (forall n | n in ops && ops[n].status.Confirmed? :: n in list)
    && (forall i, j | 0 <= i < j < |list| :: !Before(ops[list[j]], ops[list[i]]))
  }

  /** Acknowledges the marked notes of a list one by one, stopping at the first error. */
  function AckAll(j: Journal, markers: map<Note, Marker>, notes: seq<Note>): (Journal, Option<LpError>)
    decreases |notes|
  {
    if |notes| == 0 then (j, None)
    else if notes[0] !in markers then AckAll(j, markers, notes[1..])
    else
      var (next, r) := ApplyOperation(j, notes[0], markers[notes[0]].shares);
      if r.Err? then (next, Some(r.error)) else AckAll(next, markers, notes[1..])
  }

  class LpStore {
    var ops: map<Note, Operation>
    var positions: map<Key, nat>

    function Value(): Journal
      reads this
    {
      Journal(ops, positions)
    }

    method Record(note: Note, op: Operation, minimum: nat) returns (r: Result<bool, LpError>)
      modifies this`ops
      ensures (Value(), r) == RecordConfirmed(old(Value()), note, op, minimum)
    {
      if op.amount > I64_MAX { return Err(OutOfRange); }
      if note in ops || NullifierTaken(ops, op.nullifier) { return Ok(false); }
      var row := op.(status := Confirmed, shares := 0);
      if op.kind.DepositNote? && op.amount < minimum { row := row.(status := Rejected); }
      ops := ops[note := row];
      r := Ok(true);
    }

    method Apply(note: Note, shares: nat) returns (r: Result<bool, LpError>)
      modifies this
      ensures (Value(), r) == ApplyOperation(old(Value()), note, shares)
    {
      if note !in ops { return Err(UnknownOperation); }
      var op := ops[note];
      if op.status.Applied? { return Ok(false); }
      if !op.status.Confirmed? { return Err(NotConfirmed); }
      var shares' := SharesOf(positions, (op.lp, op.faucet));
      match op.kind {
        case DepositNote =>
          if shares' + shares > U64_MAX { return Err(ShareOverflow); }
          shares' := shares' + shares;
        case WithdrawNote =>
          if shares' < shares { return Err(InsufficientShares); }
          shares' := shares' - shares;
      }
      if shares' > I64_MAX || shares > I64_MAX { return Err(OutOfRange); }
      positions := positions[(op.lp, op.faucet) := shares'];
      ops := ops[note := op.(status := Applied, shares := shares)];
      r := Ok(true);
    }

    /** The startup loop: markers first, before anything is rebuilt from the positions. */
    method ReconcileMarked(list: seq<Note>, markers: map<Note, Marker>) returns (error: Option<LpError>)
      modifies this
      ensures (Value(), error) == AckAll(old(Value()), markers, list)
    {
      ghost var start := Value();
      for i := 0 to |list|
        invariant AckAll(start, markers, list) == AckAll(Value(), markers, list[i..])
      {
        assert list[i..][0] == list[i] && list[i..][1..] == list[i + 1..];
        if list[i] in markers {
          var r := Apply(list[i], markers[list[i]].shares);
          if r.Err? { return Some(r.error); }
        }
      }
      error := None;
    }
  }

  // ---- The in-memory ledger ----

  function Mint(ledger: map<Key, nat>, k: Key, shares: nat): map<Key, nat> {
    ledger[k := ToU64(SharesOf(ledger, k) + shares)]
  }

  function Burn(ledger: map<Key, nat>, k: Key, shares: nat): Option<map<Key, nat>> {
    if k !in ledger || ledger[k] < shares then None else Some(ledger[k := ledger[k] - shares])
  }

  class LpLedger {
    var shares: map<Key, nat>

    method MintShares(k: Key, amount: nat)
      modifies this
      ensures shares == Mint(old(shares), k, amount)
    {
      if k !in shares { shares := shares[k := 0]; }
      shares := shares[k := ToU64(shares[k] + amount)];
    }

    /** Fails, changing nothing, when there is no position or too few shares. */
    method BurnShares(k: Key, amount: nat) returns (ok: bool)
      modifies this
      ensures ok == Burn(old(shares), k, amount).Some?
      ensures shares == if ok then Burn(old(shares), k, amount).value else old(shares)
    {
      ok := k in shares && shares[k] >= amount;
      if ok { shares := shares[k := shares[k] - amount]; }
    }
  }

  // ---- The snapshot commit ----

  /** `to_i64` on every supply and on the shares: a value past 2^63 aborts the transaction. */
  predicate Storable(pools: map<Faucet, PoolState>, shares: nat) {
    shares <= I64_MAX && forall f | f in pools :: pools[f].supply <= I64_MAX
  }

  /** Shares, new pool state and new ledger that an event computes, or nothing when it fails. For a
      withdrawal `shares` is the hint or the search result. */
  function Compute(ram: Ram, op: Operation, inverse: nat, shares: nat): Option<(nat, PoolState, map<Key, nat>)> {
    if op.faucet !in ram.pools then None
    else
      var pool, k := ram.pools[op.faucet], (op.lp, op.faucet);
      match op.kind
      case DepositNote =>
        var (minted, supply, balances) := Deposit(pool, inverse, op.amount);
        Some((ToU64(minted), pool.(balances := balances, supply := supply), Mint(ram.ledger, k, ToU64(minted))))
      case WithdrawNote =>
        if shares == 0 || shares > SharesOf(ram.ledger, k) || !WithdrawDefined(pool, shares) then None
        else
          var (payout, supply, balances) := Withdraw(pool, shares);
          var burned := Burn(ram.ledger, k, shares);
          if ToU64(payout) < op.amount || burned.None? then None
          else Some((shares, pool.(balances := balances, supply := supply), burned.value))
  }

  // ---- Steps ----

  datatype Step =
    | Record(note: Note, op: Operation, minimum: nat)
    | Trade(balances: map<Faucet, Balances>)
    | Persist
    | Reload
    | Begin(list: seq<Note>)
    | Apply(inverse: nat, shares: nat)
    | Acknowledge
    | AckLost
    | Crash
    | Reconcile(list: seq<Note>, upTo: nat)
    | Start

  /** Startup may go on: no confirmed note has a marker any more. */
  predicate Reconciled(s: System) {
    forall n | n in s.markers && n in s.journal.ops :: !s.journal.ops[n].status.Confirmed?
  }

  function Ack(s: System, note: Note, shares: nat): System {
    var (journal, r) := ApplyOperation(s.journal, note, shares);
    if r == Ok(true) then s.(journal := journal, acks := s.acks + [Entry(note, shares)]) else s
  }

  function Traded(pools: map<Faucet, PoolState>, balances: map<Faucet, Balances>): map<Faucet, PoolState> {
    map f | f in pools :: if f in balances then pools[f].(balances := balances[f]) else pools[f]
  }

  /** The pass over the journal stops; the note at its head keeps its marker, if it has one. */
  function Abort(s: System, ram: Ram): System { s.(ram := Some(ram.(queue := [], acking := None))) }

  /** Applies the note at the head of the pass: a marked one is only acknowledged again, any other
      commits marker and snapshot together. */
  function ApplyHead(s: System, ram: Ram, inverse: nat, shares: nat): System
    requires ram.queue != []
  {
    var note := ram.queue[0];
    if note !in s.journal.ops || !s.journal.ops[note].status.Confirmed? then Abort(s, ram)
    else if note in s.markers then s.(ram := Some(ram.(acking := Some((note, s.markers[note].shares)))))
    else
      match Compute(ram, s.journal.ops[note], inverse, shares)
      case None => Abort(s, ram)
      case Some((used, pool, ledger)) =>
        var faucet := s.journal.ops[note].faucet;
        var pools := ram.pools[faucet := pool];
        if !Storable(pools, used) then Abort(s, ram)
        else
          s.(markers := s.markers[note := Marker(faucet, used)],
             snapshot := pools,
             ram := Some(Ram(pools, ledger, ram.queue, Some((note, used)))),
             commits := s.commits + [Entry(note, used)])
  }

  /** A successful acknowledgement moves the pass on; a failed one stops it. */
  function AcknowledgeHead(s: System, ram: Ram): System
    requires ram.acking.Some?
  {
    var (note, shares) := ram.acking.value;
    var acked := Ack(s, note, shares);
    if ApplyOperation(s.journal, note, shares).1.Err? then Abort(acked, ram)
    else acked.(ram := Some(ram.(queue := if ram.queue == [] then [] else ram.queue[1..], acking := None)))
  }

  /** Startup acknowledges marked notes in the given order until one fails. */
  function ReconcileAll(s: System, notes: seq<Note>): System
    decreases |notes|
  {
    if |notes| == 0 then s
    else if notes[0] !in s.markers then ReconcileAll(s, notes[1..])
    else if ApplyOperation(s.journal, notes[0], s.markers[notes[0]].shares).1.Err? then s
    else ReconcileAll(Ack(s, notes[0], s.markers[notes[0]].shares), notes[1..])
  }

  /** The single-threaded processor is between two events. */
  predicate Idle(s: System) { s.ram.Some? && s.ram.value.acking.None? }

  function Next(s: System, step: Step): System {
    match step
    case Record(note, op, minimum) => s.(journal := RecordConfirmed(s.journal, note, op, minimum).0)
    case Trade(balances) =>
      if s.ram.Some? then s.(ram := Some(s.ram.value.(pools := Traded(s.ram.value.pools, balances)))) else s
    case Persist => if s.ram.Some? && Storable(s.ram.value.pools, 0) then s.(snapshot := s.ram.value.pools) else s
    case Reload => if s.ram.Some? then s.(ram := Some(s.ram.value.(pools := s.snapshot))) else s
    case Begin(list) =>
      if Idle(s) && s.ram.value.queue == [] && JournalOrder(s.journal.ops, list)
      then s.(ram := Some(s.ram.value.(queue := list))) else s
    case Apply(inverse, shares) =>
      if Idle(s) && s.ram.value.queue != [] then ApplyHead(s, s.ram.value, inverse, shares) else s
    case Acknowledge =>
      if s.ram.Some? && s.ram.value.acking.Some? then AcknowledgeHead(s, s.ram.value) else s
    case AckLost =>
      if s.ram.Some? && s.ram.value.acking.Some? then Abort(s, s.ram.value) else s
    case Crash => s.(ram := None)
    case Reconcile(list, upTo) =>
      if s.ram.None? && JournalOrder(s.journal.ops, list) && upTo <= |list| then ReconcileAll(s, list[..upTo]) else s
    case Start =>
      if s.ram.None? && Reconciled(s) then s.(ram := Some(Ram(s.snapshot, s.journal.positions, [], None))) else s
  }

  // ---- Sums ----

  ghost function FaucetSum(m: map<Key, nat>, f: Faucet): int {
    SumOver(m.Keys, (k: Key) => if k in m && k.1 == f then m[k] else 0)
  }

  lemma FaucetSumSet(m: map<Key, nat>, k: Key, v: nat, f: Faucet)
    ensures FaucetSum(m[k := v], f) == FaucetSum(m, f) + if k.1 == f then v - SharesOf(m, k) else 0
  {
    var next := m[k := v];
    var g := (x: Key) => if x in m && x.1 == f then m[x] else 0;
    var h := (x: Key) => if x in next && x.1 == f then next[x] else 0;
    if k in m {
      assert next.Keys == m.Keys;
      SumChange(m.Keys, g, h, k);
    } else {
      assert next.Keys == m.Keys + {k};
      SumAdd(m.Keys, h, k);
      SumSame(m.Keys, g, h);
    }
  }

  lemma SharesWithin(m: map<Key, nat>, k: Key)
    ensures SharesOf(m, k) <= FaucetSum(m, k.1)
  {
    var g := (x: Key) => if x in m && x.1 == k.1 then m[x] else 0;
    SumAtLeast(m.Keys, g);
    if k in m { assert g(k) == m[k]; }
  }

  function Signed(kind: Kind, shares: nat): int { if kind.DepositNote? then shares else 0 - shares }

  function ByFaucet(f: Faucet): Operation -> bool { (op: Operation) => op.faucet == f }

  function ByKey(k: Key): Operation -> bool { (op: Operation) => (op.lp, op.faucet) == k }

  /** What a committed but unacknowledged note still owes the positions selected by `sel`. */
  function Owed(ops: map<Note, Operation>, markers: map<Note, Marker>, sel: Operation -> bool, n: Note): int {
    if n in markers && n in ops && ops[n].status.Confirmed? && sel(ops[n]) then Signed(ops[n].kind, markers[n].shares) else 0
  }

  ghost function Pending(ops: map<Note, Operation>, markers: map<Note, Marker>, sel: Operation -> bool): int {
    SumOver(markers.Keys, (n: Note) => Owed(ops, markers, sel, n))
  }

  lemma PendingSame(ops: map<Note, Operation>, next: map<Note, Operation>, markers: map<Note, Marker>, sel: Operation -> bool)
    requires forall n | n in markers :: Owed(next, markers, sel, n) == Owed(ops, markers, sel, n)
    ensures Pending(next, markers, sel) == Pending(ops, markers, sel)
  {
    SumSame(markers.Keys, (n: Note) => Owed(ops, markers, sel, n), (n: Note) => Owed(next, markers, sel, n));
  }

  lemma PendingCommit(ops: map<Note, Operation>, markers: map<Note, Marker>, note: Note, m: Marker, sel: Operation -> bool)
    requires note !in markers
    ensures Pending(ops, markers[note := m], sel) == Pending(ops, markers, sel) + Owed(ops, markers[note := m], sel, note)
  {
    var next := markers[note := m];
    assert next.Keys == markers.Keys + {note};
    SumAdd(markers.Keys, (n: Note) => Owed(ops, next, sel, n), note);
    SumSame(markers.Keys, (n: Note) => Owed(ops, markers, sel, n), (n: Note) => Owed(ops, next, sel, n));
  }

  lemma PendingAck(ops: map<Note, Operation>, markers: map<Note, Marker>, note: Note, op: Operation, sel: Operation -> bool)
    requires note in markers && note in ops && !op.status.Confirmed?
    ensures Pending(ops[note := op], markers, sel) == Pending(ops, markers, sel) - Owed(ops, markers, sel, note)
  {
    var next := ops[note := op];
    SumChange(markers.Keys, (n: Note) => Owed(ops, markers, sel, n), (n: Note) => Owed(next, markers, sel, n), note);
  }

  // ---- The invariant ----

  /** What the position will be once every committed note is acknowledged. */
  ghost function Virtual(s: System, k: Key): int {
    SharesOf(s.journal.positions, k) + Pending(s.journal.ops, s.markers, ByKey(k))
  }

  /** Markers belong to recorded notes; an applied note was acknowledged with its marker's shares. */
  ghost predicate MarkersOk(ops: map<Note, Operation>, markers: map<Note, Marker>) {
    && (forall n | n in markers :: 
          n in ops && markers[n].faucet == ops[n].faucet && markers[n].shares <= I64_MAX && !ops[n].status.Rejected?)
    && (forall n | n in ops && ops[n].status.Applied? :: n in markers && ops[n].shares == markers[n].shares)
  }

  /** The histories list exactly the markers and exactly the applied notes, each once. */
  ghost predicate HistoryOk(s: System) {
    && (forall e | e in s.commits :: e.note in s.markers && e.shares == s.markers[e.note].shares)
    && (forall e | e in s.acks :: e.note in s.journal.ops && s.journal.ops[e.note].status.Applied? && e.shares == s.journal.ops[e.note].shares)
    && (forall i, j | 0 <= i < j < |s.commits| :: s.commits[i].note != s.commits[j].note)
    && (forall i, j | 0 <= i < j < |s.acks| :: s.acks[i].note != s.acks[j].note)
  }

  /** The durable supply is the positions plus what committed notes still owe. */
  ghost predicate SupplyOk(s: System) {
    forall f | f in s.snapshot ::
      s.snapshot[f].supply == FaucetSum(s.journal.positions, f) + Pending(s.journal.ops, s.markers, ByFaucet(f))
  }

  ghost predicate VirtualOk(s: System) { forall k :: 0 <= Virtual(s, k) <= I64_MAX }

  /** The memory agrees with the databases: same supplies, a ledger of virtual positions that adds up
      to the supply, and an acknowledgement in flight only for a committed note. */
  ghost predicate RamOk(s: System) {
    s.ram.Some? ==>
      var ram := s.ram.value;
      && ram.pools.Keys == s.snapshot.Keys
      && (forall f | f in ram.pools :: ram.pools[f].supply == s.snapshot[f].supply)
      && (forall f | f in ram.pools :: FaucetSum(ram.ledger, f) == ram.pools[f].supply)
      && (forall k :: SharesOf(ram.ledger, k) == Virtual(s, k))
      && (ram.acking.Some? ==>
            ram.acking.value.0 in s.markers && s.markers[ram.acking.value.0].shares == ram.acking.value.1)
  }

  ghost predicate Inv(s: System) {
    MarkersOk(s.journal.ops, s.markers) && HistoryOk(s) && SupplyOk(s) && VirtualOk(s) && RamOk(s)
  }

  /** A fresh deployment: seeded positions that add up to the pools' supplies, nothing recorded. */
  ghost predicate Seeded(s: System) {
    && s.journal.ops == map[] && s.markers == map[] && s.ram == None && s.commits == [] && s.acks == []
    && (forall f | f in s.snapshot :: s.snapshot[f].supply == FaucetSum(s.journal.positions, f))
    && (forall k | k in s.journal.positions :: s.journal.positions[k] <= I64_MAX)
  }

  // ---- Every step keeps it ----

  lemma SeededInv(s: System)
    requires Seeded(s)
    ensures Inv(s)
  {
    forall k ensures 0 <= Virtual(s, k) <= I64_MAX { }
  }

  lemma RecordKeeps(s: System, note: Note, op: Operation, minimum: nat)
    requires Inv(s)
    ensures Inv(Next(s, Record(note, op, minimum)))
  {
    var next := Next(s, Record(note, op, minimum));
    PendingUnmoved(s, next);
  }

  /** Steps that leave positions, markers and the marked notes alone leave what is owed alone. */
  lemma PendingUnmoved(s: System, next: System)
    requires next.journal.positions == s.journal.positions && next.markers == s.markers
    requires forall n | n in s.markers :: n in next.journal.ops && n in s.journal.ops && next.journal.ops[n] == s.journal.ops[n]
    ensures forall f :: Pending(next.journal.ops, next.markers, ByFaucet(f)) == Pending(s.journal.ops, s.markers, ByFaucet(f))
    ensures forall k :: Virtual(next, k) == Virtual(s, k)
  {
    forall f ensures Pending(next.journal.ops, next.markers, ByFaucet(f)) == Pending(s.journal.ops, s.markers, ByFaucet(f)) {
      PendingSame(s.journal.ops, next.journal.ops, s.markers, ByFaucet(f));
    }
    forall k ensures Virtual(next, k) == Virtual(s, k) {
      PendingSame(s.journal.ops, next.journal.ops, s.markers, ByKey(k));
    }
  }

  /** Steps on memory and snapshot balances keep the durable clauses. */
  lemma DurableUnmoved(s: System, next: System)
    requires MarkersOk(s.journal.ops, s.markers) && HistoryOk(s) && SupplyOk(s) && VirtualOk(s)
    requires next == s.(ram := next.ram, snapshot := next.snapshot) && next.snapshot.Keys == s.snapshot.Keys
    requires forall f | f in s.snapshot :: next.snapshot[f].supply == s.snapshot[f].supply
    ensures MarkersOk(next.journal.ops, next.markers) && HistoryOk(next) && SupplyOk(next) && VirtualOk(next)
    ensures forall k :: Virtual(next, k) == Virtual(s, k)
  {
    PendingUnmoved(s, next);
  }

  /** Moving on in a pass over the journal touches neither pools nor ledger. */
  lemma PassKeeps(s: System, next: System)
    requires Inv(s) && s.ram.Some? && next.ram.Some?
    requires next == s.(ram := Some(s.ram.value.(queue := next.ram.value.queue, acking := next.ram.value.acking)))
    requires next.ram.value.acking.Some? ==>
               next.ram.value.acking.value.0 in s.markers && s.markers[next.ram.value.acking.value.0].shares == next.ram.value.acking.value.1
    ensures Inv(next)
  {
    DurableUnmoved(s, next);
  }

  lemma MemoryKeeps(s: System, step: Step)
    requires Inv(s)
    requires step.Trade? || step.Persist? || step.Reload? || step.Begin? || step.AckLost? || step.Crash?
    ensures Inv(Next(s, step))
  {
    DurableUnmoved(s, Next(s, step));
  }

  lemma StartKeeps(s: System)
    requires Inv(s)
    ensures Inv(Next(s, Start))
  {
    var next := Next(s, Start);
    DurableUnmoved(s, next);
    if s.ram.None? && Reconciled(s) { StartRam(s, next); }
  }

  lemma StartRam(s: System, next: System)
    requires MarkersOk(s.journal.ops, s.markers) && SupplyOk(s) && Reconciled(s)
    requires next == s.(ram := Some(Ram(s.snapshot, s.journal.positions, [], None)))
    requires forall k :: Virtual(next, k) == Virtual(s, k)
    ensures RamOk(next)
  {
    NothingPending(s);
  }

  lemma NothingPending(s: System)
    requires MarkersOk(s.journal.ops, s.markers) && Reconciled(s)
    ensures forall f :: Pending(s.journal.ops, s.markers, ByFaucet(f)) == 0
    ensures forall k :: Virtual(s, k) == SharesOf(s.journal.positions, k)
  {
    forall sel: Operation -> bool ensures Pending(s.journal.ops, s.markers, sel) == 0 {
      SumZero(s.markers.Keys, (n: Note) => Owed(s.journal.ops, s.markers, sel, n));
    }
  }

  lemma {:induction false} SumZero(s: set<Note>, f: Note -> int)
    requires forall n | n in s :: f(n) == 0
    ensures SumOver(s, f) == 0
  {
    if s != {} {
      var n :| n in s;
      SumRemove(s, f, n);
      SumZero(s - {n}, f);
    }
  }

  // ---- Acknowledging ----

  /** An acknowledgement with the marker's shares moves what was owed into the position. */
  lemma AckMoves(s: System, note: Note)
    requires MarkersOk(s.journal.ops, s.markers) && note in s.markers
    requires ApplyOperation(s.journal, note, s.markers[note].shares).1 == Ok(true)
    ensures var next := Ack(s, note, s.markers[note].shares);
            && (forall k :: Virtual(next, k) == Virtual(s, k))
            && (forall f :: FaucetSum(next.journal.positions, f) + Pending(next.journal.ops, next.markers, ByFaucet(f))
                            == FaucetSum(s.journal.positions, f) + Pending(s.journal.ops, s.markers, ByFaucet(f)))
  {
    var next, op := Ack(s, note, s.markers[note].shares), s.journal.ops[note];
    var k, shares := (op.lp, op.faucet), s.markers[note].shares;
    forall k' ensures Virtual(next, k') == Virtual(s, k') {
      PendingAck(s.journal.ops, s.markers, note, next.journal.ops[note], ByKey(k'));
    }
    forall f ensures FaucetSum(next.journal.positions, f) + Pending(next.journal.ops, next.markers, ByFaucet(f))
                     == FaucetSum(s.journal.positions, f) + Pending(s.journal.ops, s.markers, ByFaucet(f)) {
      PendingAck(s.journal.ops, s.markers, note, next.journal.ops[note], ByFaucet(f));
      FaucetSumSet(s.journal.positions, k, next.journal.positions[k], f);
    }
  }

  lemma AckKeeps(s: System, note: Note)
    requires Inv(s) && note in s.markers
    ensures Inv(Ack(s, note, s.markers[note].shares))
  {
    if ApplyOperation(s.journal, note, s.markers[note].shares).1 == Ok(true) {
      AckMoves(s, note);
      AckHistory(s, note);
    }
  }

  lemma AckHistory(s: System, note: Note)
    requires MarkersOk(s.journal.ops, s.markers) && HistoryOk(s) && note in s.markers
    requires ApplyOperation(s.journal, note, s.markers[note].shares).1 == Ok(true)
    ensures var next := Ack(s, note, s.markers[note].shares); MarkersOk(next.journal.ops, next.markers) && HistoryOk(next)
  {
  }

  lemma AcknowledgeKeeps(s: System)
    requires Inv(s)
    ensures Inv(Next(s, Acknowledge))
  {
    if s.ram.Some? && s.ram.value.acking.Some? {
      var acked := Ack(s, s.ram.value.acking.value.0, s.ram.value.acking.value.1);
      AckKeeps(s, s.ram.value.acking.value.0);
      PassKeeps(acked, Next(s, Acknowledge));
    }
  }

  lemma {:induction false} ReconcileKeeps(s: System, notes: seq<Note>)
    requires Inv(s)
    ensures Inv(ReconcileAll(s, notes))
    decreases |notes|
  {
    if |notes| > 0 {
      if notes[0] !in s.markers {
        ReconcileKeeps(s, notes[1..]);
      } else if ApplyOperation(s.journal, notes[0], s.markers[notes[0]].shares).1.Ok? {
        AckKeeps(s, notes[0]);
        ReconcileKeeps(Ack(s, notes[0], s.markers[notes[0]].shares), notes[1..]);
      }
    }
  }

  // ---- Committing ----

  /** What a storable computation does: supply and ledger move by the same signed shares, and
      nothing saturates. */
  lemma ComputeExact(s: System, op: Operation, inverse: nat, shares: nat)
    requires RamOk(s) && s.ram.Some? && Compute(s.ram.value, op, inverse, shares).Some?
    requires var (used, pool, _) := Compute(s.ram.value, op, inverse, shares).value; used <= I64_MAX && pool.supply <= I64_MAX
    ensures var ram, k := s.ram.value, (op.lp, op.faucet);
            var (used, pool, ledger) := Compute(ram, op, inverse, shares).value;
            && op.faucet in ram.pools
            && pool.supply == ram.pools[op.faucet].supply + Signed(op.kind, used)
            && ledger == ram.ledger[k := SharesOf(ledger, k)]
            && SharesOf(ledger, k) == SharesOf(ram.ledger, k) + Signed(op.kind, used) <= I64_MAX
  {
    SharesWithin(s.ram.value.ledger, (op.lp, op.faucet));
  }

  /** The commit of one note, with what it computed. */
  ghost predicate CommitsNote(s: System, next: System, note: Note, used: nat, pool: PoolState, ledger: map<Key, nat>) {
    && note in s.journal.ops && s.journal.ops[note].status.Confirmed? && note !in s.markers && s.ram.Some?
    && var op := s.journal.ops[note]; var ram := s.ram.value; var k := (op.lp, op.faucet);
    && op.faucet in ram.pools && used <= I64_MAX
    && pool.supply == ram.pools[op.faucet].supply + Signed(op.kind, used)
    && ledger == ram.ledger[k := SharesOf(ledger, k)]
    && SharesOf(ledger, k) == SharesOf(ram.ledger, k) + Signed(op.kind, used) <= I64_MAX
    && var pools := ram.pools[op.faucet := pool];
    && next == s.(markers := s.markers[note := Marker(op.faucet, used)], snapshot := pools,
                  ram := Some(Ram(pools, ledger, ram.queue, Some((note, used)))), commits := s.commits + [Entry(note, used)])
  }

  lemma CommitPending(s: System, next: System, note: Note, used: nat, pool: PoolState, ledger: map<Key, nat>)
    requires CommitsNote(s, next, note, used, pool, ledger)
    ensures var op := s.journal.ops[note];
            && (forall f :: Pending(next.journal.ops, next.markers, ByFaucet(f))
                            == Pending(s.journal.ops, s.markers, ByFaucet(f)) + if f == op.faucet then Signed(op.kind, used) else 0)
            && (forall k :: Virtual(next, k) == Virtual(s, k) + if k == (op.lp, op.faucet) then Signed(op.kind, used) else 0)
  {
    var op, m := s.journal.ops[note], Marker(s.journal.ops[note].faucet, used);
    forall f ensures Pending(next.journal.ops, next.markers, ByFaucet(f))
                     == Pending(s.journal.ops, s.markers, ByFaucet(f)) + if f == op.faucet then Signed(op.kind, used) else 0 {
      PendingCommit(s.journal.ops, s.markers, note, m, ByFaucet(f));
    }
    forall k ensures Virtual(next, k) == Virtual(s, k) + if k == (op.lp, op.faucet) then Signed(op.kind, used) else 0 {
      PendingCommit(s.journal.ops, s.markers, note, m, ByKey(k));
    }
  }

  lemma CommitSupply(s: System, next: System, note: Note, used: nat, pool: PoolState, ledger: map<Key, nat>)
    requires CommitsNote(s, next, note, used, pool, ledger) && RamOk(s) && SupplyOk(s)
    ensures SupplyOk(next)
  {
    CommitPending(s, next, note, used, pool, ledger);
  }

  lemma CommitLedger(s: System, next: System, note: Note, used: nat, pool: PoolState, ledger: map<Key, nat>)
    requires CommitsNote(s, next, note, used, pool, ledger) && RamOk(s)
    ensures forall f | f in next.snapshot :: FaucetSum(ledger, f) == next.snapshot[f].supply
  {
    var op, ram := s.journal.ops[note], s.ram.value;
    var k := (op.lp, op.faucet);
    forall f | f in next.snapshot ensures FaucetSum(ledger, f) == next.snapshot[f].supply {
      FaucetSumSet(ram.ledger, k, SharesOf(ledger, k), f);
    }
  }

  lemma CommitVirtual(s: System, next: System, note: Note, used: nat, pool: PoolState, ledger: map<Key, nat>)
    requires CommitsNote(s, next, note, used, pool, ledger) && RamOk(s) && VirtualOk(s)
    ensures VirtualOk(next) && forall k :: SharesOf(ledger, k) == Virtual(next, k)
  {
    CommitPending(s, next, note, used, pool, ledger);
    forall k ensures SharesOf(ledger, k) == Virtual(next, k) && 0 <= Virtual(next, k) <= I64_MAX {
      assert SharesOf(s.ram.value.ledger, k) == Virtual(s, k);
      assert 0 <= Virtual(s, k) <= I64_MAX;
    }
  }

  lemma CommitHistory(s: System, next: System, note: Note, used: nat, pool: PoolState, ledger: map<Key, nat>)
    requires CommitsNote(s, next, note, used, pool, ledger) && MarkersOk(s.journal.ops, s.markers) && HistoryOk(s)
    ensures MarkersOk(next.journal.ops, next.markers) && HistoryOk(next)
  {
  }

  /** An `Apply` that writes a marker is the commit of the note at the head of the pass. */
  lemma ApplyCommits(s: System, inverse: nat, shares: nat) returns (used: nat, pool: PoolState, ledger: map<Key, nat>)
    requires RamOk(s) && Next(s, Apply(inverse, shares)).markers != s.markers
    ensures s.ram.Some? && s.ram.value.queue != []
    ensures CommitsNote(s, Next(s, Apply(inverse, shares)), s.ram.value.queue[0], used, pool, ledger)
  {
    var op := s.journal.ops[s.ram.value.queue[0]];
    var (u, p, l) := Compute(s.ram.value, op, inverse, shares).value;
    used, pool, ledger := u, p, l;
    assert s.ram.value.pools[op.faucet := pool][op.faucet].supply <= I64_MAX;
    ComputeExact(s, op, inverse, shares);
  }

  lemma CommitKeeps(s: System, next: System, note: Note, used: nat, pool: PoolState, ledger: map<Key, nat>)
    requires Inv(s) && CommitsNote(s, next, note, used, pool, ledger)
    ensures Inv(next)
  {
    CommitSupply(s, next, note, used, pool, ledger);
    CommitLedger(s, next, note, used, pool, ledger);
    CommitVirtual(s, next, note, used, pool, ledger);
    CommitHistory(s, next, note, used, pool, ledger);
  }

  lemma ApplyKeeps(s: System, inverse: nat, shares: nat)
    requires Inv(s)
    ensures Inv(Next(s, Apply(inverse, shares)))
  {
    var next := Next(s, Apply(inverse, shares));
    if next.markers != s.markers {
      var used, pool, ledger := ApplyCommits(s, inverse, shares);
      CommitKeeps(s, next, s.ram.value.queue[0], used, pool, ledger);
    } else if Idle(s) && s.ram.value.queue != [] {
      PassKeeps(s, next);
    }
  }

  lemma StepKeeps(s: System, step: Step)
    requires Inv(s)
    ensures Inv(Next(s, step))
  {
    match step
    case Record(note, op, minimum) => RecordKeeps(s, note, op, minimum);
    case Apply(inverse, shares) => ApplyKeeps(s, inverse, shares);
    case Acknowledge => AcknowledgeKeeps(s);
    case Reconcile(list, upTo) =>
      if upTo <= |list| { ReconcileKeeps(s, list[..upTo]); }
    case Start => StartKeeps(s);
    case _ => MemoryKeeps(s, step);
  }

  function Run(s: System, steps: seq<Step>): System
    decreases |steps|
  {
    if steps == [] then s else Run(Next(s, steps[0]), steps[1..])
  }

  lemma {:induction false} RunKeeps(s: System, steps: seq<Step>)
    requires Inv(s)
    ensures Inv(Run(s, steps))
    decreases |steps|
  {
    if steps != [] {
      StepKeeps(s, steps[0]);
      RunKeeps(Next(s, steps[0]), steps[1..]);
    }
  }

  // ---- The theorems ----

  /** However the process crashes, each note changes the pool snapshot at most once and its LP
      position at most once, with the same share count. */
  lemma AppliedExactlyOnce(start: System, steps: seq<Step>)
    requires Seeded(start)
    ensures var end := Run(start, steps);
            && (forall i, j | 0 <= i < j < |end.commits| :: end.commits[i].note != end.commits[j].note)
            && (forall i, j | 0 <= i < j < |end.acks| :: end.acks[i].note != end.acks[j].note)
            && (forall e | e in end.acks ::
                  && e.note in end.markers && end.markers[e.note].shares == e.shares
                  && e.note in end.journal.ops && end.journal.ops[e.note].shares == e.shares)
            && (forall e | e in end.commits :: e.note in end.markers && end.markers[e.note].shares == e.shares)
  {
    SeededInv(start);
    RunKeeps(start, steps);
  }

  /** Whenever no confirmed note remains, the positions of a faucet add up to its supply. */
  lemma PositionsMatchSupply(start: System, steps: seq<Step>, f: Faucet)
    requires Seeded(start) && f in Run(start, steps).snapshot
    requires forall n | n in Run(start, steps).journal.ops :: !Run(start, steps).journal.ops[n].status.Confirmed?
    ensures FaucetSum(Run(start, steps).journal.positions, f) == Run(start, steps).snapshot[f].supply
  {
    SeededInv(start);
    RunKeeps(start, steps);
    NothingPending(Run(start, steps));
  }
}
