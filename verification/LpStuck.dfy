/**
 Two runs of the protocol after which outstanding LP notes cannot be acknowledged in the order at
 hand. In both an acknowledgement is lost while the process lives on, and the next note of the same
 block is journaled with an earlier creation time, so that the next pass reads it first.
 */
module LpStuck {
  import opened Basics
  import opened Words
  import opened Curve
  import opened Pool
  import opened LpProtocol
  import opened LpAckOrder

  /** A balanced pool in which a share is worth one unit. */
  function Even(n: nat): PoolState { PoolState(DEFAULTS, FeeRates(200, 300, 0), Balances(n, n, n), n, 18) }

  function Deposit10(createdAt: nat): Operation { Operation(DepositNote, 7, 1, 10, None, 5, createdAt, Confirmed, 0) }

  function Withdraw10(createdAt: nat): Operation { Operation(WithdrawNote, 7, 1, 10, None, 5, createdAt, Confirmed, 0) }

  lemma ComputeDeposit(ram: Ram, createdAt: nat, n: nat)
    requires 1 in ram.pools && ram.pools[1] == Even(n) && 0 < n <= 500 && SharesOf(ram.ledger, (7, 1)) <= 500
    ensures Compute(ram, Deposit10(createdAt), 0, 0)
            == Some((10, Even(n + 10), ram.ledger[(7, 1) := SharesOf(ram.ledger, (7, 1)) + 10]))
  {
    WrapSmall(10 * n);
    Arith.DivUnique(10 * n, n, 10);
    assert MintedShares(Even(n), 0, 10) == 10;
    assert Deposit(Even(n), 0, 10) == (10, n + 10, Balances(n + 10, n + 10, n + 10));
  }

  lemma DecrementTen(n: nat)
    requires 10 < n <= 500
    ensures Decrement(Even(n), 10) == 10
  {
    WrapSmall(10 * n);
    Arith.DivUnique(10 * n, n, 10);
  }

  lemma PsiTen(n: nat)
    requires 10 < n <= 500 && Decrement(Even(n), 10) == 10
    ensures WithdrawDefined(Even(n), 10) && PsiAfter(Even(n), 10) == n - 10
  {
    SmallPsi(n - 10, n - 10);
    WrapSmall(n - 10);
  }

  lemma WithdrawTen(n: nat)
    requires 10 < n <= 500
    ensures WithdrawDefined(Even(n), 10) && Withdraw(Even(n), 10) == (10, n - 10, Balances(n - 10, n - 10, n - 10))
  {
    DecrementTen(n);
    PsiTen(n);
    RedeemTen(n);
  }

  lemma RedeemTen(n: nat)
    requires 10 < n <= 500
    ensures Redeem(Even(n), 10, 10, n - 10) == (10, n - 10, Balances(n - 10, n - 10, n - 10))
  {
  }

  /** A withdrawal that the pool pays and the ledger covers. */
  lemma ComputeFrom(ram: Ram, op: Operation, pool: PoolState, shares: nat, payout: nat, supply: nat, balances: Balances)
    requires op.kind.WithdrawNote? && op.faucet in ram.pools && ram.pools[op.faucet] == pool
    requires 0 < shares && (op.lp, op.faucet) in ram.ledger && shares <= ram.ledger[(op.lp, op.faucet)]
    requires WithdrawDefined(pool, shares) && Withdraw(pool, shares) == (payout, supply, balances)
    requires op.amount <= payout <= U64_MAX
    ensures var k := (op.lp, op.faucet);
            Compute(ram, op, 0, shares)
            == Some((shares, pool.(balances := balances, supply := supply), ram.ledger[k := ram.ledger[k] - shares]))
  {
  }

  lemma ComputeWithdrawal(ram: Ram, createdAt: nat, n: nat)
    requires 1 in ram.pools && ram.pools[1] == Even(n) && 10 < n <= 500
    requires (7, 1) in ram.ledger && 10 <= ram.ledger[(7, 1)]
    ensures Compute(ram, Withdraw10(createdAt), 0, 10)
            == Some((10, Even(n - 10), ram.ledger[(7, 1) := ram.ledger[(7, 1)] - 10]))
  {
    WithdrawTen(n);
    ComputeFrom(ram, Withdraw10(createdAt), Even(n), 10, 10, n - 10, Balances(n - 10, n - 10, n - 10));
  }

  // ---- Runs, one step at a time ----

  lemma {:induction false} RunAppend(s: System, steps: seq<Step>, step: Step)
    ensures Run(s, steps + [step]) == Next(Run(s, steps), step)
    decreases |steps|
  {
    if steps == [] {
      assert [step][1..] == [] && steps + [step] == [step];
      assert Run(Next(s, step), []) == Next(s, step);
    } else {
      assert (steps + [step])[1..] == steps[1..] + [step];
      RunAppend(Next(s, steps[0]), steps[1..], step);
    }
  }

  lemma RunStep(s: System, steps: seq<Step>, n: nat)
    requires n < |steps|
    ensures Run(s, steps[..n + 1]) == Next(Run(s, steps[..n]), steps[n])
  {
    assert steps[..n + 1] == steps[..n] + [steps[n]];
    RunAppend(s, steps[..n], steps[n]);
  }

  // ---- One step ----

  /** The databases: operations, the shares of LP 7, markers, the pool and the commits. */
  ghost predicate Stored(s: System, ops: map<Note, Operation>, mine: nat, markers: map<Note, Marker>, n: nat, commits: seq<Entry>) {
    && s.journal.ops == ops && SharesOf(s.journal.positions, (7, 1)) == mine
    && s.markers == markers && s.snapshot == map[1 := Even(n)] && s.commits == commits
  }

  /** The process: the pool, the ledger's shares of LP 7, the pass and the acknowledgement in flight. */
  ghost predicate Memory(s: System, n: nat, mine: nat, queue: seq<Note>, acking: Option<(Note, nat)>) {
    && s.ram.Some? && s.ram.value.pools == map[1 := Even(n)]
    && SharesOf(s.ram.value.ledger, (7, 1)) == mine && (mine > 0 ==> (7, 1) in s.ram.value.ledger)
    && s.ram.value.queue == queue && s.ram.value.acking == acking
  }

  lemma Recorded(s: System, note: Note, op: Operation)
    requires note !in s.journal.ops && op.nullifier.None? && op.amount <= I64_MAX && op.status.Confirmed? && op.shares == 0
    ensures Next(s, Record(note, op, 0)) == s.(journal := s.journal.(ops := s.journal.ops[note := op]))
  {
  }

  lemma Began(s: System, ops: map<Note, Operation>, mine: nat, markers: map<Note, Marker>, n: nat, commits: seq<Entry>, due: nat, list: seq<Note>)
    requires Stored(s, ops, mine, markers, n, commits) && Memory(s, n, due, [], None) && JournalOrder(ops, list)
    ensures Stored(Next(s, Begin(list)), ops, mine, markers, n, commits) && Memory(Next(s, Begin(list)), n, due, list, None)
  {
  }

  /** The note at the head of the pass commits. */
  lemma Committed(s: System, ram: Ram, shares: nat, used: nat, pool: PoolState, ledger: map<Key, nat>)
    requires s.ram == Some(ram) && ram.acking.None? && ram.queue != [] && ram.queue[0] !in s.markers
    requires ram.queue[0] in s.journal.ops && s.journal.ops[ram.queue[0]].status.Confirmed? && s.journal.ops[ram.queue[0]].faucet == 1
    requires Compute(ram, s.journal.ops[ram.queue[0]], 0, shares) == Some((used, pool, ledger))
    requires used <= I64_MAX && pool.supply <= I64_MAX && ram.pools.Keys == {1}
    ensures var note := ram.queue[0];
            Next(s, Apply(0, shares))
            == s.(markers := s.markers[note := Marker(1, used)], snapshot := map[1 := pool],
                  ram := Some(Ram(map[1 := pool], ledger, ram.queue, Some((note, used)))), commits := s.commits + [Entry(note, used)])
  {
    assert ram.pools[1 := pool] == map[1 := pool];
  }

  lemma Deposited(s: System, ops: map<Note, Operation>, mine: nat, markers: map<Note, Marker>, n: nat, commits: seq<Entry>,
                  due: nat, queue: seq<Note>, createdAt: nat)
    requires Stored(s, ops, mine, markers, n, commits) && Memory(s, n, due, queue, None) && 0 < n <= 500 && due <= 500
    requires queue != [] && queue[0] !in markers && queue[0] in ops && ops[queue[0]] == Deposit10(createdAt)
    ensures var next := Next(s, Apply(0, 0));
            && Stored(next, ops, mine, markers[queue[0] := Marker(1, 10)], n + 10, commits + [Entry(queue[0], 10)])
            && Memory(next, n + 10, due + 10, queue, Some((queue[0], 10)))
  {
    ComputeDeposit(s.ram.value, createdAt, n);
    Committed(s, s.ram.value, 0, 10, Even(n + 10), s.ram.value.ledger[(7, 1) := due + 10]);
  }

  lemma Withdrawn(s: System, ops: map<Note, Operation>, mine: nat, markers: map<Note, Marker>, n: nat, commits: seq<Entry>,
                  due: nat, queue: seq<Note>, createdAt: nat)
    requires Stored(s, ops, mine, markers, n, commits) && Memory(s, n, due, queue, None) && 10 < n <= 500 && 10 <= due
    requires queue != [] && queue[0] !in markers && queue[0] in ops && ops[queue[0]] == Withdraw10(createdAt)
    ensures var next := Next(s, Apply(0, 10));
            && Stored(next, ops, mine, markers[queue[0] := Marker(1, 10)], n - 10, commits + [Entry(queue[0], 10)])
            && Memory(next, n - 10, due - 10, queue, Some((queue[0], 10)))
  {
    ComputeWithdrawal(s.ram.value, createdAt, n);
    Committed(s, s.ram.value, 10, 10, Even(n - 10), s.ram.value.ledger[(7, 1) := due - 10]);
  }

  lemma DepositedAt(start: System, steps: seq<Step>, i: nat, ops: map<Note, Operation>, mine: nat, markers: map<Note, Marker>, n: nat,
              commits: seq<Entry>, due: nat, queue: seq<Note>, createdAt: nat)
    requires i < |steps| && steps[i] == Apply(0, 0) && 0 < n <= 500 && due <= 500
    requires Stored(Run(start, steps[..i]), ops, mine, markers, n, commits) && Memory(Run(start, steps[..i]), n, due, queue, None)
    requires queue != [] && queue[0] !in markers && queue[0] in ops && ops[queue[0]] == Deposit10(createdAt)
    ensures Stored(Run(start, steps[..i + 1]), ops, mine, markers[queue[0] := Marker(1, 10)], n + 10, commits + [Entry(queue[0], 10)])
    ensures Memory(Run(start, steps[..i + 1]), n + 10, due + 10, queue, Some((queue[0], 10)))
  {
    RunStep(start, steps, i);
    Deposited(Run(start, steps[..i]), ops, mine, markers, n, commits, due, queue, createdAt);
  }

  lemma WithdrawnAt(start: System, steps: seq<Step>, i: nat, ops: map<Note, Operation>, mine: nat, markers: map<Note, Marker>, n: nat,
              commits: seq<Entry>, due: nat, queue: seq<Note>, createdAt: nat)
    requires i < |steps| && steps[i] == Apply(0, 10) && 10 < n <= 500 && 10 <= due
    requires Stored(Run(start, steps[..i]), ops, mine, markers, n, commits) && Memory(Run(start, steps[..i]), n, due, queue, None)
    requires queue != [] && queue[0] !in markers && queue[0] in ops && ops[queue[0]] == Withdraw10(createdAt)
    ensures Stored(Run(start, steps[..i + 1]), ops, mine, markers[queue[0] := Marker(1, 10)], n - 10, commits + [Entry(queue[0], 10)])
    ensures Memory(Run(start, steps[..i + 1]), n - 10, due - 10, queue, Some((queue[0], 10)))
  {
    RunStep(start, steps, i);
    Withdrawn(Run(start, steps[..i]), ops, mine, markers, n, commits, due, queue, createdAt);
  }

  lemma Lost(s: System, ops: map<Note, Operation>, mine: nat, markers: map<Note, Marker>, n: nat, commits: seq<Entry>,
             due: nat, queue: seq<Note>, acking: (Note, nat))
    requires Stored(s, ops, mine, markers, n, commits) && Memory(s, n, due, queue, Some(acking))
    ensures Stored(Next(s, AckLost), ops, mine, markers, n, commits) && Memory(Next(s, AckLost), n, due, [], None)
  {
  }

  lemma Crashed(s: System, ops: map<Note, Operation>, mine: nat, markers: map<Note, Marker>, n: nat, commits: seq<Entry>)
    requires Stored(s, ops, mine, markers, n, commits)
    ensures Stored(Next(s, Crash), ops, mine, markers, n, commits) && Next(s, Crash).ram.None?
  {
  }

  const M: Marker := Marker(1, 10)

  // ---- Startup, in journal order ----

  /** A deposit commits and its acknowledgement is lost; a withdrawal of the same block, journaled later
      with an earlier creation time, goes first: it commits, but the position lacks its shares. */
  ghost predicate Stuck(start: System, steps: seq<Step>) {
    && start == System(Journal(map[], map[(9, 1) := 100]), map[], map[1 := Even(100)], None, [], [])
    && steps == [Record(1, Deposit10(10), 0), Start, Begin([1]), Apply(0, 0), AckLost,
                 Record(2, Withdraw10(5), 0), Begin([2, 1]), Apply(0, 10), Acknowledge, Crash]
  }

  function One(): map<Note, Operation> { map[1 := Deposit10(10)] }

  function Two(): map<Note, Operation> { map[1 := Deposit10(10), 2 := Withdraw10(5)] }

  lemma BothInOrder()
    ensures JournalOrder(Two(), [2, 1])
  {
  }

  lemma StuckAtThree(start: System, steps: seq<Step>)
    requires Stuck(start, steps)
    ensures Stored(Run(start, steps[..3]), One(), 0, map[], 100, []) && Memory(Run(start, steps[..3]), 100, 0, [1], None)
  {
    assert Run(start, steps[..0]) == start;
    RunStep(start, steps, 0);
    Recorded(start, 1, Deposit10(10));
    RunStep(start, steps, 1);
    RunStep(start, steps, 2);
    Began(Run(start, steps[..2]), One(), 0, map[], 100, [], 0, [1]);
  }

  lemma StuckAtFive(start: System, steps: seq<Step>)
    requires Stuck(start, steps)
    ensures Stored(Run(start, steps[..5]), One(), 0, map[1 := M], 110, [Entry(1, 10)]) && Memory(Run(start, steps[..5]), 110, 10, [], None)
  {
    StuckAtThree(start, steps);
    DepositedAt(start, steps, 3, One(), 0, map[], 100, [], 0, [1], 10);
    RunStep(start, steps, 4);
    Lost(Run(start, steps[..4]), One(), 0, map[1 := M], 110, [Entry(1, 10)], 10, [1], (1, 10));
  }

  lemma StuckAtSeven(start: System, steps: seq<Step>)
    requires Stuck(start, steps)
    ensures Stored(Run(start, steps[..7]), Two(), 0, map[1 := M], 110, [Entry(1, 10)]) && Memory(Run(start, steps[..7]), 110, 10, [2, 1], None)
  {
    StuckAtFive(start, steps);
    RunStep(start, steps, 5);
    Recorded(Run(start, steps[..5]), 2, Withdraw10(5));
    RunStep(start, steps, 6);
    BothInOrder();
    Began(Run(start, steps[..6]), Two(), 0, map[1 := M], 110, [Entry(1, 10)], 10, [2, 1]);
  }

  ghost predicate BothOwed(s: System) { Stored(s, Two(), 0, map[1 := M, 2 := M], 100, [Entry(1, 10), Entry(2, 10)]) }

  /** The deposit's shares are not in the position, so the withdrawal's cannot be taken out of it. */
  lemma Refused(s: System)
    requires BothOwed(s) && Memory(s, 100, 0, [2, 1], Some((2, 10)))
    ensures BothOwed(Next(s, Acknowledge))
  {
    assert ApplyOperation(s.journal, 2, 10) == (s.journal, Err(InsufficientShares));
  }

  lemma StuckAtNine(start: System, steps: seq<Step>)
    requires Stuck(start, steps)
    ensures BothOwed(Run(start, steps[..9]))
  {
    StuckAtSeven(start, steps);
    WithdrawnAt(start, steps, 7, Two(), 0, map[1 := M], 110, [Entry(1, 10)], 10, [2, 1], 5);
    RunStep(start, steps, 8);
    Refused(Run(start, steps[..8]));
  }

  lemma StuckRun(start: System, steps: seq<Step>)
    requires Stuck(start, steps)
    ensures BothOwed(Run(start, steps)) && Run(start, steps).ram.None?
  {
    StuckAtNine(start, steps);
    RunStep(start, steps, 9);
    Crashed(Run(start, steps[..9]), Two(), 0, map[1 := M, 2 := M], 100, [Entry(1, 10), Entry(2, 10)]);
    assert steps[..10] == steps;
  }

  lemma OneOrTwo(list: seq<Note>, i: nat)
    requires JournalOrder(Two(), list) && i < |list|
    ensures list[i] == 1 || list[i] == 2
  {
    assert list[i] in list;
  }

  /** The journal order of the two is unique. */
  lemma OnlyOrder(list: seq<Note>)
    requires JournalOrder(Two(), list)
    ensures list == [2, 1]
  {
    assert 1 in Two() && 2 in Two();
    var x :| 0 <= x < |list| && list[x] == 1;
    var y :| 0 <= y < |list| && list[y] == 2;
    OneOrTwo(list, 0);
    OneOrTwo(list, 1);
    if |list| > 2 { OneOrTwo(list, 2); }
  }

  lemma NoReconcile(s: System, list: seq<Note>, upTo: nat)
    requires BothOwed(s)
    ensures Next(s, Reconcile(list, upTo)) == s
  {
    if s.ram.None? && JournalOrder(s.journal.ops, list) && 0 < upTo <= |list| {
      OnlyOrder(list);
      assert list[..upTo][0] == 2;
      assert ApplyOperation(s.journal, 2, 10) == (s.journal, Err(InsufficientShares));
    }
  }

  lemma NoStart(s: System)
    requires BothOwed(s)
    ensures Next(s, Start) == s
  {
    assert 1 in s.markers && s.journal.ops[1].status.Confirmed?;
  }

  lemma InCommitOrder(s: System)
    requires BothOwed(s)
    ensures AckAll(s.journal, s.markers, NotesOf(s.commits)).1.None?
  {
    var next := ApplyOperation(s.journal, 1, 10).0;
    assert NotesOf(s.commits) == [1, 2] && [1, 2][1..] == [2] && [2][1..] == [];
    assert SharesOf(next.positions, (7, 1)) == 10 && next.ops[2] == Withdraw10(5);
    assert AckAll(next, s.markers, [2]).1.None?;
  }

  lemma SeededStuck(start: System, steps: seq<Step>)
    requires Stuck(start, steps)
    ensures Seeded(start)
  {
    FaucetSumSet(map[], (9, 1), 100, 1);
    assert map[][(9, 1) := 100] == start.journal.positions;
  }

  /** After this run neither acknowledging in journal order nor starting gets anywhere; the order of the
      commits would have worked. */
  lemma JournalOrderGetsStuck(start: System, steps: seq<Step>)
    requires Stuck(start, steps)
    ensures Seeded(start)
    ensures var end := Run(start, steps);
            && end.ram.None? && Next(end, Start) == end
            && (forall list, upTo :: Next(end, Reconcile(list, upTo)) == end)
            && AckAll(end.journal, end.markers, NotesOf(end.commits)).1.None?
  {
    SeededStuck(start, steps);
    StuckRun(start, steps);
    var end := Run(start, steps);
    forall list, upTo ensures Next(end, Reconcile(list, upTo)) == end { NoReconcile(end, list, upTo); }
    NoStart(end);
    InCommitOrder(end);
  }

  // ---- The order of the commits ----

  /** A withdrawal and a deposit commit and both acknowledgements are lost; a second withdrawal, journaled
      last but read first, takes the shares the first one was promised. */
  ghost predicate Overtaken(start: System, steps: seq<Step>) {
    && start == System(Journal(map[], map[(7, 1) := 10, (9, 1) := 90]), map[], map[1 := Even(100)], None, [], [])
    && steps == [Record(1, Withdraw10(5), 0), Start, Begin([1]), Apply(0, 10), AckLost,
                 Record(2, Deposit10(4), 0), Begin([2, 1]), Apply(0, 0), AckLost,
                 Record(3, Withdraw10(3), 0), Begin([3, 2, 1]), Apply(0, 10), Acknowledge, Crash]
  }

  function First(): map<Note, Operation> { map[1 := Withdraw10(5)] }

  function Second(): map<Note, Operation> { map[1 := Withdraw10(5), 2 := Deposit10(4)] }

  function Third(): map<Note, Operation> { map[1 := Withdraw10(5), 2 := Deposit10(4), 3 := Withdraw10(3)] }

  lemma SecondInOrder()
    ensures JournalOrder(Second(), [2, 1])
  {
  }

  lemma ThirdInOrder()
    ensures JournalOrder(Third(), [3, 2, 1])
  {
  }

  lemma OvertakenAtThree(start: System, steps: seq<Step>)
    requires Overtaken(start, steps)
    ensures Stored(Run(start, steps[..3]), First(), 10, map[], 100, []) && Memory(Run(start, steps[..3]), 100, 10, [1], None)
  {
    assert Run(start, steps[..0]) == start;
    RunStep(start, steps, 0);
    Recorded(start, 1, Withdraw10(5));
    RunStep(start, steps, 1);
    RunStep(start, steps, 2);
    Began(Run(start, steps[..2]), First(), 10, map[], 100, [], 10, [1]);
  }

  lemma OvertakenAtFour(start: System, steps: seq<Step>)
    requires Overtaken(start, steps)
    ensures Stored(Run(start, steps[..4]), First(), 10, map[1 := M], 90, [Entry(1, 10)])
    ensures Memory(Run(start, steps[..4]), 90, 0, [1], Some((1, 10)))
  {
    OvertakenAtThree(start, steps);
    WithdrawnAt(start, steps, 3, First(), 10, map[], 100, [], 10, [1], 5);
  }

  lemma OvertakenAtFive(start: System, steps: seq<Step>)
    requires Overtaken(start, steps)
    ensures Stored(Run(start, steps[..5]), First(), 10, map[1 := M], 90, [Entry(1, 10)]) && Memory(Run(start, steps[..5]), 90, 0, [], None)
  {
    OvertakenAtFour(start, steps);
    RunStep(start, steps, 4);
    Lost(Run(start, steps[..4]), First(), 10, map[1 := M], 90, [Entry(1, 10)], 0, [1], (1, 10));
  }

  lemma OvertakenAtSeven(start: System, steps: seq<Step>)
    requires Overtaken(start, steps)
    ensures Stored(Run(start, steps[..7]), Second(), 10, map[1 := M], 90, [Entry(1, 10)]) && Memory(Run(start, steps[..7]), 90, 0, [2, 1], None)
  {
    OvertakenAtFive(start, steps);
    RunStep(start, steps, 5);
    Recorded(Run(start, steps[..5]), 2, Deposit10(4));
    RunStep(start, steps, 6);
    SecondInOrder();
    Began(Run(start, steps[..6]), Second(), 10, map[1 := M], 90, [Entry(1, 10)], 0, [2, 1]);
  }

  lemma OvertakenAtNine(start: System, steps: seq<Step>)
    requires Overtaken(start, steps)
    ensures Stored(Run(start, steps[..9]), Second(), 10, map[1 := M, 2 := M], 100, [Entry(1, 10), Entry(2, 10)])
    ensures Memory(Run(start, steps[..9]), 100, 10, [], None)
  {
    OvertakenAtSeven(start, steps);
    DepositedAt(start, steps, 7, Second(), 10, map[1 := M], 90, [Entry(1, 10)], 0, [2, 1], 4);
    RunStep(start, steps, 8);
    Lost(Run(start, steps[..8]), Second(), 10, map[1 := M, 2 := M], 100, [Entry(1, 10), Entry(2, 10)], 10, [2, 1], (2, 10));
  }

  lemma OvertakenAtEleven(start: System, steps: seq<Step>)
    requires Overtaken(start, steps)
    ensures Stored(Run(start, steps[..11]), Third(), 10, map[1 := M, 2 := M], 100, [Entry(1, 10), Entry(2, 10)])
    ensures Memory(Run(start, steps[..11]), 100, 10, [3, 2, 1], None)
  {
    OvertakenAtNine(start, steps);
    RunStep(start, steps, 9);
    Recorded(Run(start, steps[..9]), 3, Withdraw10(3));
    RunStep(start, steps, 10);
    ThirdInOrder();
    Began(Run(start, steps[..10]), Third(), 10, map[1 := M, 2 := M], 100, [Entry(1, 10), Entry(2, 10)], 10, [3, 2, 1]);
  }

  const SETTLED: Operation := Withdraw10(3).(status := Applied, shares := 10)

  ghost predicate Overtook(s: System) {
    Stored(s, Third()[3 := SETTLED], 0, map[1 := M, 2 := M, 3 := M], 90, [Entry(1, 10), Entry(2, 10), Entry(3, 10)])
  }

  lemma Acknowledged(s: System)
    requires Stored(s, Third(), 10, map[1 := M, 2 := M, 3 := M], 90, [Entry(1, 10), Entry(2, 10), Entry(3, 10)])
    requires Memory(s, 90, 0, [3, 2, 1], Some((3, 10)))
    ensures Overtook(Next(s, Acknowledge))
  {
    assert ApplyOperation(s.journal, 3, 10) == (Journal(Third()[3 := SETTLED], s.journal.positions[(7, 1) := 0]), Ok(true));
  }

  lemma ThreeCommits(s: System)
    requires Stored(s, Third(), 10, map[1 := M, 2 := M][3 := M], 90, [Entry(1, 10), Entry(2, 10)] + [Entry(3, 10)])
    ensures Stored(s, Third(), 10, map[1 := M, 2 := M, 3 := M], 90, [Entry(1, 10), Entry(2, 10), Entry(3, 10)])
  {
  }

  lemma OvertakenAtTwelve(start: System, steps: seq<Step>)
    requires Overtaken(start, steps)
    ensures Stored(Run(start, steps[..12]), Third(), 10, map[1 := M, 2 := M, 3 := M], 90, [Entry(1, 10), Entry(2, 10), Entry(3, 10)])
    ensures Memory(Run(start, steps[..12]), 90, 0, [3, 2, 1], Some((3, 10)))
  {
    OvertakenAtEleven(start, steps);
    WithdrawnAt(start, steps, 11, Third(), 10, map[1 := M, 2 := M], 100, [Entry(1, 10), Entry(2, 10)], 10, [3, 2, 1], 3);
    ThreeCommits(Run(start, steps[..12]));
  }

  lemma OvertakenAtThirteen(start: System, steps: seq<Step>)
    requires Overtaken(start, steps)
    ensures Overtook(Run(start, steps[..13]))
  {
    OvertakenAtTwelve(start, steps);
    RunStep(start, steps, 12);
    Acknowledged(Run(start, steps[..12]));
  }

  lemma OvertakenRun(start: System, steps: seq<Step>)
    requires Overtaken(start, steps)
    ensures Overtook(Run(start, steps)) && Run(start, steps).ram.None?
  {
    OvertakenAtThirteen(start, steps);
    RunStep(start, steps, 13);
    assert steps[..14] == steps;
  }

  lemma CommitOrderRefused(s: System)
    requires Overtook(s)
    ensures AckAll(s.journal, s.markers, NotesOf(s.commits)) == (s.journal, Some(InsufficientShares)) && !InOrder(s)
  {
    var notes := NotesOf(s.commits);
    assert notes == [1, 2, 3];
    assert ApplyOperation(s.journal, 1, 10) == (s.journal, Err(InsufficientShares));
    assert s.journal.ops[notes[0]].status.Confirmed? && !s.journal.ops[notes[2]].status.Confirmed?;
  }

  lemma SeededOvertaken(start: System, steps: seq<Step>)
    requires Overtaken(start, steps)
    ensures Seeded(start)
  {
    FaucetSumSet(map[], (7, 1), 10, 1);
    FaucetSumSet(map[(7, 1) := 10], (9, 1), 90, 1);
    assert map[][(7, 1) := 10] == map[(7, 1) := 10];
    assert map[(7, 1) := 10][(9, 1) := 90] == start.journal.positions;
  }

  /** After this run even the order of the commits fails: note 3 was acknowledged ahead of note 1. */
  lemma CommitOrderGetsStuck(start: System, steps: seq<Step>)
    requires Overtaken(start, steps)
    ensures Seeded(start)
    ensures var end := Run(start, steps);
            && end.ram.None? && !InOrder(end)
            && AckAll(end.journal, end.markers, NotesOf(end.commits)) == (end.journal, Some(InsufficientShares))
  {
    SeededOvertaken(start, steps);
    OvertakenRun(start, steps);
    CommitOrderRefused(Run(start, steps));
  }
}
