/**
 Outstanding acknowledgements of LP notes: marked in the execution store, still confirmed in the
 journal. They always succeed if no acknowledgement is lost while the process lives on, and, lost ones
 included, if notes are journaled in the order the journal is read.
 */
module LpRecovery {
  import opened Basics
  import opened Sums
  import opened Pool
  import opened LpProtocol

  ghost predicate Outstanding(s: System, n: Note) {
    n in s.markers && n in s.journal.ops && s.journal.ops[n].status.Confirmed?
  }

  ghost predicate AtMostOne(s: System) { forall n, m | Outstanding(s, n) && Outstanding(s, m) :: n == m }

  function KeyOf(op: Operation): Key { (op.lp, op.faucet) }

  // ---- One outstanding note ----

  /** A note that is the only outstanding one on its position can be acknowledged. */
  lemma SoleAck(s: System, note: Note)
    requires VirtualOk(s) && MarkersOk(s.journal.ops, s.markers) && Outstanding(s, note)
    requires forall n | Outstanding(s, n) && n != note :: KeyOf(s.journal.ops[n]) != KeyOf(s.journal.ops[note])
    ensures ApplyOperation(s.journal, note, s.markers[note].shares).1 == Ok(true)
  {
    var op := s.journal.ops[note];
    var k := KeyOf(op);
    var f := (n: Note) => Owed(s.journal.ops, s.markers, ByKey(k), n);
    SumRemove(s.markers.Keys, f, note);
    forall n | n in s.markers.Keys - {note} ensures f(n) == 0 {
      if Outstanding(s, n) { assert KeyOf(s.journal.ops[n]) != k; }
    }
    SumZero(s.markers.Keys - {note}, f);
    assert Virtual(s, k) == SharesOf(s.journal.positions, k) + Signed(op.kind, s.markers[note].shares);
    assert 0 <= Virtual(s, k) <= I64_MAX;
  }

  /** A successful acknowledgement settles its note and no other. */
  lemma AckSettles(s: System, note: Note, n: Note)
    requires note in s.markers && note in s.journal.ops
    ensures var next := Ack(s, note, s.markers[note].shares);
            && (Outstanding(next, n) ==> Outstanding(s, n) && next.journal.ops[n] == s.journal.ops[n])
            && (ApplyOperation(s.journal, note, s.markers[note].shares).1.Ok? ==> !Outstanding(next, note))
  {
  }

  lemma {:induction false} ReconcileSettles(s: System, notes: seq<Note>, n: Note)
    requires MarkersOk(s.journal.ops, s.markers) && HistoryOk(s) && Outstanding(ReconcileAll(s, notes), n)
    ensures Outstanding(s, n) && ReconcileAll(s, notes).journal.ops[n] == s.journal.ops[n]
    decreases |notes|
  {
    if |notes| > 0 {
      if notes[0] !in s.markers {
        ReconcileSettles(s, notes[1..], n);
      } else if ApplyOperation(s.journal, notes[0], s.markers[notes[0]].shares).1.Ok? {
        var next := Ack(s, notes[0], s.markers[notes[0]].shares);
        AckMarkers(s, notes[0]);
        ReconcileSettles(next, notes[1..], n);
        AckSettles(s, notes[0], n);
      }
    }
  }

  lemma AckMarkers(s: System, note: Note)
    requires MarkersOk(s.journal.ops, s.markers) && HistoryOk(s) && note in s.markers
    ensures var next := Ack(s, note, s.markers[note].shares); MarkersOk(next.journal.ops, next.markers) && HistoryOk(next)
  {
    if ApplyOperation(s.journal, note, s.markers[note].shares).1 == Ok(true) { AckHistory(s, note); }
  }

  // ---- Runs in which no acknowledgement is lost ----

  /** At most one note is outstanding, and while the process lives it is the one being acknowledged. */
  ghost predicate Solo(s: System) {
    && AtMostOne(s)
    && (s.ram.Some? ==>
          forall n | Outstanding(s, n) :: s.ram.value.acking.Some? && s.ram.value.acking.value.0 == n)
  }

  lemma ApplySolo(s: System, inverse: nat, shares: nat)
    requires Solo(s)
    ensures Solo(Next(s, Apply(inverse, shares)))
  {
    var next := Next(s, Apply(inverse, shares));
    if Idle(s) && s.ram.value.queue != [] {
      forall n | Outstanding(next, n) ensures n == s.ram.value.queue[0] && next.ram.value.acking.Some? {
        assert !Outstanding(s, n);
      }
    }
  }

  lemma AcknowledgeSolo(s: System)
    requires Inv(s) && Solo(s)
    ensures Solo(Next(s, Acknowledge))
  {
    if s.ram.Some? && s.ram.value.acking.Some? {
      var note := s.ram.value.acking.value.0;
      if Outstanding(s, note) { SoleAck(s, note); }
      forall n ensures !Outstanding(Next(s, Acknowledge), n) {
        AckSettles(s, note, n);
        assert Outstanding(s, n) ==> n == note;
      }
    }
  }

  lemma ReconcileSolo(s: System, notes: seq<Note>)
    requires Inv(s) && Solo(s) && s.ram.None?
    ensures Solo(ReconcileAll(s, notes))
  {
    ReconcileRam(s, notes);
    forall n | Outstanding(ReconcileAll(s, notes), n) ensures Outstanding(s, n) { ReconcileSettles(s, notes, n); }
  }

  lemma {:induction false} ReconcileRam(s: System, notes: seq<Note>)
    ensures ReconcileAll(s, notes).ram == s.ram && ReconcileAll(s, notes).markers == s.markers
    decreases |notes|
  {
    if |notes| > 0 {
      if notes[0] !in s.markers {
        ReconcileRam(s, notes[1..]);
      } else {
        ReconcileRam(Ack(s, notes[0], s.markers[notes[0]].shares), notes[1..]);
      }
    }
  }

  lemma RecordSolo(s: System, note: Note, op: Operation, minimum: nat)
    requires MarkersOk(s.journal.ops, s.markers) && Solo(s)
    ensures Solo(Next(s, Record(note, op, minimum)))
  {
    forall n | Outstanding(Next(s, Record(note, op, minimum)), n) ensures Outstanding(s, n) { }
  }

  lemma StepSolo(s: System, step: Step)
    requires Inv(s) && Solo(s) && !step.AckLost?
    ensures Solo(Next(s, step))
  {
    match step
    case Record(note, op, minimum) => RecordSolo(s, note, op, minimum);
    case Apply(inverse, shares) => ApplySolo(s, inverse, shares);
    case Acknowledge => AcknowledgeSolo(s);
    case Reconcile(list, upTo) =>
      if s.ram.None? && upTo <= |list| { ReconcileSolo(s, list[..upTo]); }
    case _ => QuietSolo(s, step);
  }

  lemma QuietSolo(s: System, step: Step)
    requires Solo(s) && (step.Trade? || step.Persist? || step.Reload? || step.Begin? || step.Crash? || step.Start?)
    ensures Solo(Next(s, step))
  {
    forall n | Outstanding(Next(s, step), n) ensures Outstanding(s, n) { }
  }

  lemma {:induction false} RunSolo(s: System, steps: seq<Step>)
    requires Inv(s) && Solo(s) && AckLost !in steps
    ensures Solo(Run(s, steps))
    decreases |steps|
  {
    if steps != [] {
      assert steps[0] in steps;
      StepSolo(s, steps[0]);
      StepKeeps(s, steps[0]);
      RunSolo(Next(s, steps[0]), steps[1..]);
    }
  }

  // ---- Runs that journal notes in the order the journal is read ----

  ghost predicate Confirmed(s: System, n: Note) { n in s.journal.ops && s.journal.ops[n].status.Confirmed? }

  ghost predicate Earlier(s: System, n: Note, m: Note) {
    Confirmed(s, n) && Confirmed(s, m) && Before(s.journal.ops[n], s.journal.ops[m])
  }

  /** An outstanding note comes before every other confirmed one, and no two confirmed ones tie. */
  ghost predicate Ordered(s: System) {
    && (forall n, m | Outstanding(s, n) && Confirmed(s, m) && n != m :: Earlier(s, n, m))
    && (forall n, m | Confirmed(s, n) && Confirmed(s, m) && n != m :: Earlier(s, n, m) || Earlier(s, m, n))
  }

  ghost predicate Sorted(s: System, queue: seq<Note>) { forall i, j | 0 <= i < j < |queue| :: Earlier(s, queue[i], queue[j]) }

  /** Everything confirmed that is not in the queue comes after all of it. */
  ghost predicate Ahead(s: System, queue: seq<Note>) { forall q, m | q in queue && Confirmed(s, m) && m !in queue :: Earlier(s, q, m) }

  /** The rest of the pass is in order, and everything journaled since comes after it. */
  ghost predicate QueueOk(s: System) {
    s.ram.Some? ==>
      && (forall q | q in s.ram.value.queue :: Confirmed(s, q))
      && Sorted(s, s.ram.value.queue) && Ahead(s, s.ram.value.queue)
      && (s.ram.value.acking.Some? ==> s.ram.value.queue != [] && s.ram.value.queue[0] == s.ram.value.acking.value.0)
  }

  ghost predicate InSequence(s: System) { Ordered(s) && QueueOk(s) }

  /** A note is journaled after every confirmed one, in journal order. */
  ghost predicate Appends(s: System, step: Step) {
    step.Record? && RecordConfirmed(s.journal, step.note, step.op, step.minimum).1 == Ok(true) ==>
      forall m | Confirmed(s, m) :: Before(s.journal.ops[m], step.op)
  }

  /** No note becomes confirmed or outstanding. */
  ghost predicate Shrinks(s: System, next: System) {
    && (forall n | Confirmed(next, n) :: Confirmed(s, n) && next.journal.ops[n] == s.journal.ops[n])
    && (forall n | Outstanding(next, n) :: Outstanding(s, n))
  }

  lemma ShrinksOrdered(s: System, next: System)
    requires Ordered(s) && Shrinks(s, next)
    ensures Ordered(next)
  {
    forall n, m | Outstanding(next, n) && Confirmed(next, m) && n != m ensures Earlier(next, n, m) {
      assert Confirmed(next, n) && Earlier(s, n, m);
    }
    forall n, m | Confirmed(next, n) && Confirmed(next, m) && n != m ensures Earlier(next, n, m) || Earlier(next, m, n) {
      assert Earlier(s, n, m) || Earlier(s, m, n);
    }
  }

  lemma RecordInSequence(s: System, note: Note, op: Operation, minimum: nat)
    requires MarkersOk(s.journal.ops, s.markers) && InSequence(s) && Appends(s, Record(note, op, minimum))
    ensures InSequence(Next(s, Record(note, op, minimum)))
  {
    var next := Next(s, Record(note, op, minimum));
    if next.journal != s.journal {
      RecordLast(s, note, op, minimum);
      forall n, m | Outstanding(next, n) && Confirmed(next, m) && n != m ensures Earlier(next, n, m) {
        assert Outstanding(s, n) && Confirmed(s, n);
        assert m != note ==> Earlier(s, n, m);
      }
      forall n, m | Confirmed(next, n) && Confirmed(next, m) && n != m ensures Earlier(next, n, m) || Earlier(next, m, n) {
        assert n != note && m != note ==> Earlier(s, n, m) || Earlier(s, m, n);
      }
      if s.ram.Some? {
        var queue := s.ram.value.queue;
        forall i, j | 0 <= i < j < |queue| ensures Earlier(next, queue[i], queue[j]) {
          assert Earlier(s, queue[i], queue[j]);
        }
        forall q, m | q in queue && Confirmed(next, m) && m !in queue ensures Earlier(next, q, m) {
          assert Confirmed(s, q);
          assert m != note ==> Earlier(s, q, m);
        }
      }
    }
  }

  /** A note that was journaled is new, and comes last if it is confirmed at all. */
  lemma RecordLast(s: System, note: Note, op: Operation, minimum: nat)
    requires MarkersOk(s.journal.ops, s.markers) && Appends(s, Record(note, op, minimum))
    requires RecordConfirmed(s.journal, note, op, minimum).0 != s.journal
    ensures var next := Next(s, Record(note, op, minimum));
            && note !in s.journal.ops && !Outstanding(next, note)
            && (forall n :: n != note ==> (Confirmed(next, n) <==> Confirmed(s, n)))
            && (forall n | Confirmed(s, n) :: next.journal.ops[n] == s.journal.ops[n])
            && (forall n | Confirmed(s, n) && Confirmed(next, note) :: Earlier(next, n, note))
  {
  }

  lemma BeginInSequence(s: System, list: seq<Note>)
    requires InSequence(s)
    ensures InSequence(Next(s, Begin(list)))
  {
    var next := Next(s, Begin(list));
    if next != s {
      ShrinksOrdered(s, next);
      forall i, j | 0 <= i < j < |list| ensures Earlier(next, list[i], list[j]) {
        assert Confirmed(s, list[i]) && Confirmed(s, list[j]);
        assert list[i] != list[j];
        assert !Before(s.journal.ops[list[j]], s.journal.ops[list[i]]);
      }
    }
  }

  /** Dropping the pass, or losing memory, leaves the databases as they are. */
  lemma DropInSequence(s: System, next: System)
    requires Ordered(s) && Shrinks(s, next)
    requires next.ram.Some? ==> next.ram.value.queue == [] && next.ram.value.acking.None?
    ensures InSequence(next)
  {
    ShrinksOrdered(s, next);
  }

  lemma SameRamInSequence(s: System, next: System)
    requires InSequence(s) && next.journal == s.journal && next.markers == s.markers && s.ram.Some? && next.ram.Some?
    requires next.ram.value.queue == s.ram.value.queue
    requires next.ram.value.acking.Some? ==> s.ram.value.queue != [] && next.ram.value.acking.value.0 == s.ram.value.queue[0]
    ensures InSequence(next)
  {
    ShrinksOrdered(s, next);
    SameQueue(s, next, s.ram.value.queue);
  }

  lemma SameQueue(s: System, next: System, queue: seq<Note>)
    requires next.journal == s.journal && Sorted(s, queue) && Ahead(s, queue)
    ensures Sorted(next, queue) && Ahead(next, queue)
  {
    forall i, j | 0 <= i < j < |queue| ensures Earlier(next, queue[i], queue[j]) { assert Earlier(s, queue[i], queue[j]); }
    forall q, m | q in queue && Confirmed(next, m) && m !in queue ensures Earlier(next, q, m) {
      assert Confirmed(s, m) && Earlier(s, q, m);
    }
  }

  /** The head of the pass comes before every other confirmed note. */
  lemma HeadFirst(s: System, m: Note)
    requires QueueOk(s) && s.ram.Some? && s.ram.value.queue != [] && Confirmed(s, m) && m != s.ram.value.queue[0]
    ensures Earlier(s, s.ram.value.queue[0], m)
  {
    var queue := s.ram.value.queue;
    assert queue[0] in queue;
    if m in queue {
      var j :| 0 <= j < |queue| && queue[j] == m;
      assert Earlier(s, queue[0], queue[j]);
    }
  }

  lemma ApplyInSequence(s: System, inverse: nat, shares: nat)
    requires InSequence(s)
    ensures InSequence(Next(s, Apply(inverse, shares)))
  {
    var next := Next(s, Apply(inverse, shares));
    if Idle(s) && s.ram.value.queue != [] {
      if next.markers != s.markers {
        CommitInSequence(s, next, s.ram.value.queue[0]);
      } else if next.ram.value.queue == [] {
        DropInSequence(s, next);
      } else {
        SameRamInSequence(s, next);
      }
    }
  }

  lemma CommitInSequence(s: System, next: System, head: Note)
    requires InSequence(s) && s.ram.Some? && s.ram.value.queue != [] && head == s.ram.value.queue[0] && head !in s.markers
    requires next.journal == s.journal && next.markers.Keys == s.markers.Keys + {head}
    requires next.ram.Some? && next.ram.value.queue == s.ram.value.queue
    requires next.ram.value.acking.Some? && next.ram.value.acking.value.0 == head
    ensures InSequence(next)
  {
    forall n, m | Outstanding(next, n) && Confirmed(next, m) && n != m ensures Earlier(next, n, m) {
      if n == head {
        HeadFirst(s, m);
      } else {
        assert n in next.markers.Keys;
        assert Outstanding(s, n) && Earlier(s, n, m);
      }
    }
    forall n, m | Confirmed(next, n) && Confirmed(next, m) && n != m ensures Earlier(next, n, m) || Earlier(next, m, n) {
      assert Earlier(s, n, m) || Earlier(s, m, n);
    }
    SameQueue(s, next, s.ram.value.queue);
  }

  lemma AcknowledgeInSequence(s: System)
    requires InSequence(s) && RamOk(s) && MarkersOk(s.journal.ops, s.markers)
    ensures InSequence(Next(s, Acknowledge))
  {
    if s.ram.Some? && s.ram.value.acking.Some? {
      var (note, shares) := s.ram.value.acking.value;
      var next := Next(s, Acknowledge);
      if ApplyOperation(s.journal, note, shares).1.Err? {
        DropInSequence(s, next);
      } else {
        AckShrinks(s, note);
        SettledInSequence(s, next, note);
      }
    }
  }

  lemma AckShrinks(s: System, note: Note)
    requires note in s.markers
    ensures Shrinks(s, Ack(s, note, s.markers[note].shares))
    ensures forall n | Confirmed(s, n) && n != note :: Confirmed(Ack(s, note, s.markers[note].shares), n)
    ensures ApplyOperation(s.journal, note, s.markers[note].shares).1.Ok? ==> !Confirmed(Ack(s, note, s.markers[note].shares), note)
  {
  }

  lemma SettledInSequence(s: System, next: System, note: Note)
    requires InSequence(s) && s.ram.Some? && s.ram.value.queue != [] && note == s.ram.value.queue[0]
    requires next.ram.Some? && next.ram.value.queue == s.ram.value.queue[1..] && next.ram.value.acking.None?
    requires Shrinks(s, next) && !Confirmed(next, note) && forall n | Confirmed(s, n) && n != note :: Confirmed(next, n)
    ensures InSequence(next)
  {
    var queue, rest := s.ram.value.queue, next.ram.value.queue;
    ShrinksOrdered(s, next);
    forall i, j | 0 <= i < j < |queue| ensures queue[i] != queue[j] { SortedDistinct(s, queue, i, j); }
    forall i, j | 0 <= i < j < |rest| ensures Earlier(next, rest[i], rest[j]) {
      assert Earlier(s, queue[i + 1], queue[j + 1]);
    }
    forall q | q in rest ensures Confirmed(next, q) {
      var i :| 0 <= i < |rest| && rest[i] == q;
      assert q == queue[i + 1] && queue[0] != queue[i + 1];
    }
    RestAhead(s, next, note, queue);
  }

  lemma SortedDistinct(s: System, queue: seq<Note>, i: nat, j: nat)
    requires Sorted(s, queue) && i < j < |queue|
    ensures queue[i] != queue[j]
  {
    assert Earlier(s, queue[i], queue[j]);
  }

  lemma RestAhead(s: System, next: System, note: Note, queue: seq<Note>)
    requires Ahead(s, queue) && queue != [] && queue[0] == note && Shrinks(s, next) && !Confirmed(next, note)
    requires forall q | q in queue[1..] :: Confirmed(next, q)
    ensures Ahead(next, queue[1..])
  {
    forall q, m | q in queue[1..] && Confirmed(next, m) && m !in queue[1..] ensures Earlier(next, q, m) {
      assert queue == [note] + queue[1..];
      assert q in queue && m !in queue;
      assert Earlier(s, q, m);
    }
  }

  lemma {:induction false} ReconcileShrinks(s: System, notes: seq<Note>)
    ensures Shrinks(s, ReconcileAll(s, notes))
    decreases |notes|
  {
    if |notes| > 0 {
      if notes[0] !in s.markers {
        ReconcileShrinks(s, notes[1..]);
      } else if ApplyOperation(s.journal, notes[0], s.markers[notes[0]].shares).1.Ok? {
        AckShrinks(s, notes[0]);
        ReconcileShrinks(Ack(s, notes[0], s.markers[notes[0]].shares), notes[1..]);
      }
    }
  }

  lemma ReconcileInSequence(s: System, notes: seq<Note>)
    requires Ordered(s) && s.ram.None?
    ensures InSequence(ReconcileAll(s, notes))
  {
    ReconcileRam(s, notes);
    ReconcileShrinks(s, notes);
    DropInSequence(s, ReconcileAll(s, notes));
  }

  lemma StepInSequence(s: System, step: Step)
    requires RamOk(s) && MarkersOk(s.journal.ops, s.markers) && InSequence(s) && Appends(s, step)
    ensures InSequence(Next(s, step))
  {
    match step
    case Record(note, op, minimum) => RecordInSequence(s, note, op, minimum);
    case Begin(list) => BeginInSequence(s, list);
    case Apply(inverse, shares) => ApplyInSequence(s, inverse, shares);
    case Acknowledge => AcknowledgeInSequence(s);
    case Reconcile(list, upTo) =>
      if s.ram.None? && upTo <= |list| { ReconcileInSequence(s, list[..upTo]); }
    case _ => QuietInSequence(s, step);
  }

  lemma QuietInSequence(s: System, step: Step)
    requires InSequence(s)
    requires step.Trade? || step.Persist? || step.Reload? || step.AckLost? || step.Crash? || step.Start?
    ensures InSequence(Next(s, step))
  {
    var next := Next(s, step);
    if next != s {
      if next.ram.Some? && s.ram.Some? && !step.AckLost? { SameRamInSequence(s, next); } else { DropInSequence(s, next); }
    }
  }

  ghost predicate AppendsThroughout(s: System, steps: seq<Step>)
    decreases |steps|
  {
    steps == [] || (Appends(s, steps[0]) && AppendsThroughout(Next(s, steps[0]), steps[1..]))
  }

  lemma {:induction false} RunInSequence(s: System, steps: seq<Step>)
    requires Inv(s) && InSequence(s) && AppendsThroughout(s, steps)
    ensures InSequence(Run(s, steps))
    decreases |steps|
  {
    if steps != [] {
      StepInSequence(s, steps[0]);
      StepKeeps(s, steps[0]);
      RunInSequence(Next(s, steps[0]), steps[1..]);
    }
  }

  /** Two outstanding notes would each come before the other. */
  lemma InSequenceSole(s: System)
    requires Ordered(s)
    ensures AtMostOne(s)
  {
    forall n, m | Outstanding(s, n) && Outstanding(s, m) ensures n == m {
      assert Confirmed(s, n) && Confirmed(s, m);
      EarlierAsymmetric(s, n, m);
    }
  }

  lemma EarlierAsymmetric(s: System, n: Note, m: Note)
    ensures !(Earlier(s, n, m) && Earlier(s, m, n))
  {
  }

  // ---- Startup succeeds ----

  /** A run that loses no acknowledgement while the process lives, or journals notes in order. */
  ghost predicate Disciplined(start: System, steps: seq<Step>) { AckLost !in steps || AppendsThroughout(start, steps) }

  lemma DisciplinedSole(start: System, steps: seq<Step>)
    requires Seeded(start) && Disciplined(start, steps)
    ensures Inv(Run(start, steps)) && AtMostOne(Run(start, steps))
  {
    SeededInv(start);
    RunKeeps(start, steps);
    if AckLost !in steps {
      RunSolo(start, steps);
    } else {
      RunInSequence(start, steps);
      InSequenceSole(Run(start, steps));
    }
  }

  /** However the process crashes, every outstanding acknowledgement succeeds. */
  lemma OutstandingAckSucceeds(start: System, steps: seq<Step>, note: Note)
    requires Seeded(start) && Disciplined(start, steps) && Outstanding(Run(start, steps), note)
    ensures var end := Run(start, steps); ApplyOperation(end.journal, note, end.markers[note].shares).1 == Ok(true)
  {
    DisciplinedSole(start, steps);
    SoleAck(Run(start, steps), note);
  }

  lemma {:induction false} AckAllUnmarked(j: Journal, markers: map<Note, Marker>, notes: seq<Note>)
    requires forall n | n in notes :: n !in markers
    ensures AckAll(j, markers, notes) == (j, None)
    decreases |notes|
  {
    if |notes| > 0 { AckAllUnmarked(j, markers, notes[1..]); }
  }

  lemma {:induction false} AckAllSole(s: System, notes: seq<Note>)
    requires Inv(s) && AtMostOne(s)
    requires forall i, j | 0 <= i < j < |notes| :: notes[i] != notes[j]
    requires forall n | n in notes :: Confirmed(s, n)
    ensures AckAll(s.journal, s.markers, notes).1.None?
    decreases |notes|
  {
    if |notes| > 0 {
      var n := notes[0];
      assert n in notes && Confirmed(s, n);
      if n in s.markers {
        assert Outstanding(s, n);
        SoleAck(s, n);
        forall m | m in notes[1..] ensures m !in s.markers {
          var i :| 0 <= i < |notes[1..]| && notes[1..][i] == m;
          assert notes[i + 1] == m && m in notes && notes[0] != m;
          assert Confirmed(s, m) && (m in s.markers ==> Outstanding(s, m));
        }
        AckAllUnmarked(ApplyOperation(s.journal, n, s.markers[n].shares).0, s.markers, notes[1..]);
      } else {
        AckAllSole(s, notes[1..]);
      }
    }
  }

  /** Startup never fails: acknowledging the marked notes in journal order meets no error. */
  lemma StartupSucceeds(start: System, steps: seq<Step>, list: seq<Note>)
    requires Seeded(start) && Disciplined(start, steps) && JournalOrder(Run(start, steps).journal.ops, list)
    ensures AckAll(Run(start, steps).journal, Run(start, steps).markers, list).1.None?
  {
    DisciplinedSole(start, steps);
    AckAllSole(Run(start, steps), list);
  }
}
