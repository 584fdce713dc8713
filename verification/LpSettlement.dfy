/**
 What applying an LP note is for: a withdrawal that was already paid on the chain is covered by the
 pool, a deposit is credited in full, a note below the minimum never counts, and a note that the pool
 can settle is settled, whether or not the process crashes on the way.
 */
module LpSettlement {
  import opened Basics
  import opened Words
  import opened Pool
  import opened LpProtocol
  import opened LpRecovery

  // ---- One computation ----

  /** The pool is what a deposit or withdrawal of `Pool` makes of it. */
  ghost predicate Becomes(pool: PoolState, next: PoolState, result: (nat, nat, Balances)) {
    next == pool.(supply := result.1, balances := result.2)
  }

  /** A withdrawal takes at least the amount already paid out of the pool's slippage reserve, and
      exactly the shares used out of the LP's own entry. */
  lemma WithdrawalCovered(ram: Ram, op: Operation, inverse: nat, shares: nat)
    requires op.kind.WithdrawNote? && Compute(ram, op, inverse, shares).Some?
    ensures var (used, pool, ledger) := Compute(ram, op, inverse, shares).value; var k := (op.lp, op.faucet);
            && op.faucet in ram.pools
            && ram.pools[op.faucet].balances.slippage - pool.balances.slippage >= op.amount
            && used == shares && 0 < used <= SharesOf(ram.ledger, k)
            && WithdrawDefined(ram.pools[op.faucet], used) && Becomes(ram.pools[op.faucet], pool, Withdraw(ram.pools[op.faucet], used))
            && SharesOf(ledger, k) == SharesOf(ram.ledger, k) - used
            && forall other | other != k :: SharesOf(ledger, other) == SharesOf(ram.ledger, other)
  {
  }

  /** A deposit puts exactly its amount into the slippage reserve and its shares into the LP's entry. */
  lemma DepositCredited(ram: Ram, op: Operation, inverse: nat, shares: nat)
    requires op.kind.DepositNote? && Compute(ram, op, inverse, shares).Some?
    requires op.faucet in ram.pools && ram.pools[op.faucet].balances.slippage + op.amount < U256_LIMIT
    ensures var (used, pool, ledger) := Compute(ram, op, inverse, shares).value; var k := (op.lp, op.faucet);
            && pool.balances.slippage == ram.pools[op.faucet].balances.slippage + op.amount
            && Becomes(ram.pools[op.faucet], pool, Deposit(ram.pools[op.faucet], inverse, op.amount))
            && SharesOf(ledger, k) == Min(SharesOf(ram.ledger, k) + used, U64_MAX)
            && forall other | other != k :: SharesOf(ledger, other) == SharesOf(ram.ledger, other)
  {
    WrapSmall(ram.pools[op.faucet].balances.slippage + op.amount);
  }

  /** A note is refused for exactly these reasons: no pool; or, for a withdrawal, shares that are none or
      not owned, or that the pool does not pay the amount for. */
  lemma ComputedExactly(ram: Ram, op: Operation, inverse: nat, shares: nat)
    requires op.amount <= U64_MAX && (op.faucet in ram.pools ==> WithdrawDefined(ram.pools[op.faucet], shares))
    ensures Compute(ram, op, inverse, shares).Some?
            <==> && op.faucet in ram.pools
                 && (op.kind.WithdrawNote? ==>
                       && 0 < shares <= SharesOf(ram.ledger, (op.lp, op.faucet))
                       && Withdraw(ram.pools[op.faucet], shares).0 >= op.amount)
  {
  }

  // ---- Every commit ----

  /** From one set of pools to the next the operation is paid for: a withdrawal's amount left the
      slippage reserve, a deposit's came in, and no other pool moved. */
  ghost predicate PaidFor(op: Operation, pools: map<Faucet, PoolState>, next: map<Faucet, PoolState>) {
    && op.faucet in pools && next.Keys == pools.Keys
    && (op.kind.WithdrawNote? ==> pools[op.faucet].balances.slippage - next[op.faucet].balances.slippage >= op.amount)
    && (op.kind.DepositNote? && pools[op.faucet].balances.slippage + op.amount < U256_LIMIT ==>
          next[op.faucet].balances.slippage == pools[op.faucet].balances.slippage + op.amount)
    && (forall f | f in pools && f != op.faucet :: next[f] == pools[f])
  }

  lemma ComputePays(ram: Ram, op: Operation, inverse: nat, shares: nat)
    requires Compute(ram, op, inverse, shares).Some?
    ensures op.faucet in ram.pools
    ensures PaidFor(op, ram.pools, ram.pools[op.faucet := Compute(ram, op, inverse, shares).value.1])
  {
    if op.kind.WithdrawNote? {
      WithdrawalCovered(ram, op, inverse, shares);
    } else if ram.pools[op.faucet].balances.slippage + op.amount < U256_LIMIT {
      DepositCredited(ram, op, inverse, shares);
    }
  }

  lemma HeadPays(s: System, ram: Ram, inverse: nat, shares: nat)
    requires ram.queue != [] && ApplyHead(s, ram, inverse, shares).markers != s.markers
    ensures var next, note := ApplyHead(s, ram, inverse, shares), ram.queue[0];
            && note in s.journal.ops && note in next.markers && PaidFor(s.journal.ops[note], ram.pools, next.snapshot)
            && next.ram.Some? && next.ram.value.pools == next.snapshot
  {
    ComputePays(ram, s.journal.ops[ram.queue[0]], inverse, shares);
  }

  /** Whenever a step commits a note, the snapshot it commits, which is also what memory then holds, has
      paid for the note. */
  lemma CommitPays(s: System, inverse: nat, shares: nat)
    requires Next(s, Apply(inverse, shares)).markers != s.markers
    ensures s.ram.Some? && s.ram.value.queue != []
    ensures var next, note := Next(s, Apply(inverse, shares)), s.ram.value.queue[0];
            && note in s.journal.ops && note in next.markers
            && PaidFor(s.journal.ops[note], s.ram.value.pools, next.snapshot)
            && next.ram.Some? && next.ram.value.pools == next.snapshot
  {
    HeadPays(s, s.ram.value, inverse, shares);
  }

  // ---- Deposits below the minimum ----

  ghost predicate Refused(s: System, note: Note) { note in s.journal.ops && s.journal.ops[note].status.Rejected? }

  lemma {:induction false} ReconcileRefused(s: System, notes: seq<Note>, note: Note)
    requires Refused(s, note)
    ensures Refused(ReconcileAll(s, notes), note)
    decreases |notes|
  {
    if |notes| > 0 {
      if notes[0] !in s.markers {
        ReconcileRefused(s, notes[1..], note);
      } else if ApplyOperation(s.journal, notes[0], s.markers[notes[0]].shares).1.Ok? {
        ReconcileRefused(Ack(s, notes[0], s.markers[notes[0]].shares), notes[1..], note);
      }
    }
  }

  lemma StepRefused(s: System, step: Step, note: Note)
    requires Refused(s, note)
    ensures Refused(Next(s, step), note)
  {
    match step
    case Reconcile(list, upTo) => if upTo <= |list| { ReconcileRefused(s, list[..upTo], note); }
    case Apply(inverse, shares) =>
    case _ =>
  }

  lemma {:induction false} RunRefused(s: System, steps: seq<Step>, note: Note)
    requires Inv(s) && Refused(s, note)
    ensures Inv(Run(s, steps)) && Refused(Run(s, steps), note)
    decreases |steps|
  {
    if steps != [] {
      StepKeeps(s, steps[0]);
      StepRefused(s, steps[0], note);
      RunRefused(Next(s, steps[0]), steps[1..], note);
    }
  }

  /** A new note is recorded as confirmed, except a deposit below the minimum, which is rejected. */
  lemma RecordedStatus(j: Journal, note: Note, op: Operation, minimum: nat)
    requires RecordConfirmed(j, note, op, minimum).1 == Ok(true)
    ensures var row := RecordConfirmed(j, note, op, minimum).0.ops[note];
            && (row.status.Rejected? <==> op.kind.DepositNote? && op.amount < minimum)
            && (row.status.Confirmed? <==> !row.status.Rejected?)
            && row.shares == 0 && row.kind == op.kind && row.lp == op.lp && row.faucet == op.faucet && row.amount == op.amount
  {
  }

  /** Journaling succeeds exactly for a note not seen before, by id or by nullifier, of a storable
      amount. */
  lemma RecordedExactly(j: Journal, note: Note, op: Operation, minimum: nat)
    ensures RecordConfirmed(j, note, op, minimum).1 == Ok(true)
            <==> && op.amount <= I64_MAX && note !in j.ops
                 && (op.nullifier.Some? ==> forall n | n in j.ops :: j.ops[n].nullifier != op.nullifier)
    ensures forall n | n in j.ops :: n in RecordConfirmed(j, note, op, minimum).0.ops
                                     && RecordConfirmed(j, note, op, minimum).0.ops[n] == j.ops[n]
  {
  }

  /** A pass reads its notes by block, and within a block by creation time. */
  lemma ReadByBlock(ops: map<Note, Operation>, list: seq<Note>, i: nat, j: nat)
    requires JournalOrder(ops, list) && i < j < |list|
    ensures var a, b := ops[list[i]], ops[list[j]]; a.block < b.block || (a.block == b.block && a.createdAt <= b.createdAt)
  {
  }

  /** A deposit below the minimum never commits and never changes a position, however the run goes on. */
  lemma BelowMinimumNeverCounts(start: System, steps: seq<Step>, note: Note, op: Operation, minimum: nat, more: seq<Step>)
    requires Seeded(start) && op.kind.DepositNote? && op.amount < minimum
    requires RecordConfirmed(Run(start, steps).journal, note, op, minimum).1 == Ok(true)
    ensures var end := Run(Next(Run(start, steps), Record(note, op, minimum)), more);
            && note !in end.markers
            && (forall e | e in end.commits :: e.note != note)
            && (forall e | e in end.acks :: e.note != note)
  {
    var s := Run(start, steps);
    SeededInv(start);
    RunKeeps(start, steps);
    StepKeeps(s, Record(note, op, minimum));
    RecordedStatus(s.journal, note, op, minimum);
    RunRefused(Next(s, Record(note, op, minimum)), more, note);
  }

  // ---- A note that can be settled is settled ----

  /** The process is between passes and one note is confirmed, not yet committed. */
  ghost predicate OneDue(s: System, note: Note) {
    && Idle(s) && s.ram.value.queue == [] && note in s.journal.ops && note !in s.markers
    && s.journal.ops[note].status.Confirmed?
    && forall n | n in s.journal.ops && s.journal.ops[n].status.Confirmed? :: n == note
  }

  /** The pool settles it and the result fits the columns. */
  ghost predicate Settleable(s: System, note: Note, inverse: nat, shares: nat)
    requires s.ram.Some? && note in s.journal.ops
  {
    && Compute(s.ram.value, s.journal.ops[note], inverse, shares).Some?
    && var (used, pool, _) := Compute(s.ram.value, s.journal.ops[note], inverse, shares).value;
       Storable(s.ram.value.pools[s.journal.ops[note].faucet := pool], used)
  }

  /** The note counts: marked, applied, and in the position with its shares. */
  ghost predicate Settled(s: System, next: System, note: Note, used: nat)
    requires note in s.journal.ops
  {
    var op := s.journal.ops[note];
    && note in next.markers && next.markers[note].shares == used
    && note in next.journal.ops && next.journal.ops[note].status.Applied? && next.journal.ops[note].shares == used
    && SharesOf(next.journal.positions, KeyOf(op)) == SharesOf(s.journal.positions, KeyOf(op)) + Signed(op.kind, used)
  }

  /** What the process and the databases look like right after the note's commit. */
  ghost predicate JustCommitted(s: System, next: System, note: Note, used: nat) {
    && next.journal == s.journal && note in next.markers && next.markers[note].shares == used
    && next.ram.Some? && next.ram.value.acking == Some((note, used))
  }

  lemma Begun(s: System, note: Note)
    requires OneDue(s, note)
    ensures Next(s, Begin([note])) == s.(ram := Some(s.ram.value.(queue := [note])))
  {
    assert JournalOrder(s.journal.ops, [note]);
  }

  lemma HeadCommits(s: System, ram: Ram, note: Note, inverse: nat, shares: nat)
    requires ram.queue != [] && ram.queue[0] == note && note in s.journal.ops && s.journal.ops[note].status.Confirmed? && note !in s.markers
    requires Compute(ram, s.journal.ops[note], inverse, shares).Some?
    requires var (used, pool, _) := Compute(ram, s.journal.ops[note], inverse, shares).value;
             Storable(ram.pools[s.journal.ops[note].faucet := pool], used)
    ensures JustCommitted(s, ApplyHead(s, ram, inverse, shares), note, Compute(ram, s.journal.ops[note], inverse, shares).value.0)
  {
  }

  lemma SameCompute(ram: Ram, queue: seq<Note>, op: Operation, inverse: nat, shares: nat)
    ensures Compute(ram.(queue := queue), op, inverse, shares) == Compute(ram, op, inverse, shares)
  {
  }

  /** Beginning a pass and applying its head commits the note. */
  lemma Committing(s: System, note: Note, inverse: nat, shares: nat)
    requires Inv(s) && OneDue(s, note) && Settleable(s, note, inverse, shares)
    ensures var next := Next(Next(s, Begin([note])), Apply(inverse, shares));
            Inv(next) && JustCommitted(s, next, note, Compute(s.ram.value, s.journal.ops[note], inverse, shares).value.0)
  {
    var begun, ram := Next(s, Begin([note])), s.ram.value.(queue := [note]);
    Begun(s, note);
    SameCompute(s.ram.value, [note], s.journal.ops[note], inverse, shares);
    HeadCommits(begun, ram, note, inverse, shares);
    StepKeeps(s, Begin([note]));
    StepKeeps(begun, Apply(inverse, shares));
    ApplyIsHead(begun, ram, inverse, shares);
  }

  lemma ApplyIsHead(s: System, ram: Ram, inverse: nat, shares: nat)
    requires s.ram == Some(ram) && ram.acking.None? && ram.queue != []
    ensures Next(s, Apply(inverse, shares)) == ApplyHead(s, ram, inverse, shares)
  {
  }

  lemma OutstandingAcked(s: System, note: Note)
    requires Inv(s) && Outstanding(s, note)
    requires forall n | n in s.journal.ops && s.journal.ops[n].status.Confirmed? :: n == note
    ensures var used := s.markers[note].shares;
            ApplyOperation(s.journal, note, used).1 == Ok(true) && Settled(s, Ack(s, note, used), note, used)
  {
    SoleAck(s, note);
  }

  /** The acknowledgement of a fresh commit settles the note. */
  lemma Acknowledging(s: System, next: System, note: Note, used: nat)
    requires Inv(next) && OneDue(s, note) && JustCommitted(s, next, note, used)
    ensures Settled(s, Next(next, Acknowledge), note, used)
  {
    OutstandingAcked(next, note);
  }

  /** A pass over the journal settles the note. */
  lemma PassSettles(s: System, note: Note, inverse: nat, shares: nat)
    requires Inv(s) && OneDue(s, note) && Settleable(s, note, inverse, shares)
    ensures Settled(s, Next(Next(Next(s, Begin([note])), Apply(inverse, shares)), Acknowledge), note,
                    Compute(s.ram.value, s.journal.ops[note], inverse, shares).value.0)
  {
    Committing(s, note, inverse, shares);
    Acknowledging(s, Next(Next(s, Begin([note])), Apply(inverse, shares)), note,
                  Compute(s.ram.value, s.journal.ops[note], inverse, shares).value.0);
  }

  lemma Reconciling(s: System, note: Note)
    requires s.ram.None? && Outstanding(s, note) && ApplyOperation(s.journal, note, s.markers[note].shares).1 == Ok(true)
    requires forall n | n in s.journal.ops && s.journal.ops[n].status.Confirmed? :: n == note
    ensures Next(s, Reconcile([note], 1)) == Ack(s, note, s.markers[note].shares)
    ensures Reconciled(Ack(s, note, s.markers[note].shares))
  {
    assert JournalOrder(s.journal.ops, [note]);
    assert [note][..1] == [note] && [note][1..] == [];
    assert ReconcileAll(Ack(s, note, s.markers[note].shares), []) == Ack(s, note, s.markers[note].shares);
  }

  /** Startup after a crash right after the commit settles the note and rebuilds the ledger. */
  lemma Restarting(s: System, next: System, note: Note, used: nat)
    requires Inv(next) && OneDue(s, note) && JustCommitted(s, next, note, used)
    ensures var end := Next(Next(Next(next, Crash), Reconcile([note], 1)), Start);
            Settled(s, end, note, used) && end.ram == Some(Ram(end.snapshot, end.journal.positions, [], None))
  {
    var crashed := Next(next, Crash);
    StepKeeps(next, Crash);
    OutstandingAcked(crashed, note);
    Reconciling(crashed, note);
    Starting(Ack(crashed, note, used));
  }

  lemma Starting(s: System)
    requires s.ram.None? && Reconciled(s)
    ensures Next(s, Start) == s.(ram := Some(Ram(s.snapshot, s.journal.positions, [], None)))
  {
  }

  /** So does startup, when the process crashed between the commit and the acknowledgement; the ledger
      is then the positions. */
  lemma CrashSettles(s: System, note: Note, inverse: nat, shares: nat)
    requires Inv(s) && OneDue(s, note) && Settleable(s, note, inverse, shares)
    ensures var committed := Next(Next(s, Begin([note])), Apply(inverse, shares));
            var end := Next(Next(Next(committed, Crash), Reconcile([note], 1)), Start);
            && Settled(s, end, note, Compute(s.ram.value, s.journal.ops[note], inverse, shares).value.0)
            && end.ram == Some(Ram(end.snapshot, end.journal.positions, [], None))
  {
    Committing(s, note, inverse, shares);
    Restarting(s, Next(Next(s, Begin([note])), Apply(inverse, shares)), note,
               Compute(s.ram.value, s.journal.ops[note], inverse, shares).value.0);
  }

  /** After a lost acknowledgement the next pass finds the marker and only prepares to acknowledge again. */
  lemma Marked(s: System, next: System, note: Note, used: nat)
    requires OneDue(s, note) && JustCommitted(s, next, note, used)
    ensures var lost := Next(next, AckLost);
            Next(lost, Begin([note])) == lost.(ram := Some(lost.ram.value.(queue := [note]))) && Idle(lost)
  {
    assert JournalOrder(next.journal.ops, [note]);
  }

  lemma HeadRepeats(s: System, ram: Ram, note: Note, inverse: nat, shares: nat)
    requires ram.queue != [] && ram.queue[0] == note && note in s.journal.ops && s.journal.ops[note].status.Confirmed? && note in s.markers
    ensures ApplyHead(s, ram, inverse, shares) == s.(ram := Some(ram.(acking := Some((note, s.markers[note].shares)))))
  {
  }

  /** And when the process lives on but its acknowledgement is lost, the next pass settles the note with
      the shares of the commit, whatever the curve says by then. */
  lemma LostAckSettles(s: System, note: Note, inverse: nat, shares: nat, inverse': nat, shares': nat)
    requires Inv(s) && OneDue(s, note) && Settleable(s, note, inverse, shares)
    ensures var lost := Next(Next(Next(s, Begin([note])), Apply(inverse, shares)), AckLost);
            Settled(s, Next(Next(Next(lost, Begin([note])), Apply(inverse', shares')), Acknowledge), note,
                    Compute(s.ram.value, s.journal.ops[note], inverse, shares).value.0)
  {
    Committing(s, note, inverse, shares);
    Repeating(s, Next(Next(s, Begin([note])), Apply(inverse, shares)), note,
              Compute(s.ram.value, s.journal.ops[note], inverse, shares).value.0, inverse', shares');
  }

  lemma Repeating(s: System, next: System, note: Note, used: nat, inverse: nat, shares: nat)
    requires Inv(next) && OneDue(s, note) && JustCommitted(s, next, note, used)
    ensures Settled(s, Next(Next(Next(Next(next, AckLost), Begin([note])), Apply(inverse, shares)), Acknowledge), note, used)
  {
    var lost := Next(next, AckLost);
    var begun := Next(lost, Begin([note]));
    Marked(s, next, note, used);
    HeadRepeats(begun, begun.ram.value, note, inverse, shares);
    ApplyIsHead(begun, begun.ram.value, inverse, shares);
    StepKeeps(next, AckLost);
    StepKeeps(lost, Begin([note]));
    StepKeeps(begun, Apply(inverse, shares));
    Acknowledging(s, Next(begun, Apply(inverse, shares)), note, used);
  }

  /** A saved snapshot survives a crash: the process restarts with the pools it had in memory. */
  lemma PersistSurvives(s: System)
    requires s.ram.Some? && Reconciled(s) && forall f | f in s.ram.value.pools :: s.ram.value.pools[f].supply <= I64_MAX
    ensures var end := Next(Next(Next(s, Persist), Crash), Start);
            end.ram == Some(Ram(s.ram.value.pools, s.journal.positions, [], None))
  {
    Starting(Next(Next(s, Persist), Crash));
  }
}
