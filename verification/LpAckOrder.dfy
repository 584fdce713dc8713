/**
 Acknowledging several outstanding notes in one go. In any order it succeeds exactly when each note,
 in turn, leaves its position in range; in the order of the commits it succeeds unless some note was
 acknowledged ahead of an earlier commit on its position.
 */
module LpAckOrder {
  import opened Basics
  import opened Pool
  import opened LpProtocol
  import opened LpRecovery

  // ---- Signed sums over a list of notes ----

  /** What a marked note adds to the positions selected by `sel`. */
  function Part(ops: map<Note, Operation>, markers: map<Note, Marker>, sel: Operation -> bool, n: Note): int {
    if n in markers && n in ops && sel(ops[n]) then Signed(ops[n].kind, markers[n].shares) else 0
  }

  function Moved(ops: map<Note, Operation>, markers: map<Note, Marker>, sel: Operation -> bool, notes: seq<Note>): int
    decreases |notes|
  {
    if |notes| == 0 then 0 else Part(ops, markers, sel, notes[0]) + Moved(ops, markers, sel, notes[1..])
  }

  /** The operations on a position that are still to be acknowledged, and those that were. */
  function DueOn(k: Key): Operation -> bool { (op: Operation) => op.status.Confirmed? && KeyOf(op) == k }

  function DoneOn(k: Key): Operation -> bool { (op: Operation) => op.status.Applied? && KeyOf(op) == k }

  lemma {:induction false} MovedSame(ops: map<Note, Operation>, markers: map<Note, Marker>,
                                     ops': map<Note, Operation>, markers': map<Note, Marker>,
                                     sel: Operation -> bool, notes: seq<Note>)
    requires forall n | n in notes :: Part(ops, markers, sel, n) == Part(ops', markers', sel, n)
    ensures Moved(ops, markers, sel, notes) == Moved(ops', markers', sel, notes)
    decreases |notes|
  {
    if |notes| > 0 { MovedSame(ops, markers, ops', markers', sel, notes[1..]); }
  }

  lemma {:induction false} MovedConcat(ops: map<Note, Operation>, markers: map<Note, Marker>, sel: Operation -> bool,
                                       a: seq<Note>, b: seq<Note>)
    ensures Moved(ops, markers, sel, a + b) == Moved(ops, markers, sel, a) + Moved(ops, markers, sel, b)
    decreases |a|
  {
    if |a| == 0 {
      assert a + b == b;
    } else {
      assert (a + b)[1..] == a[1..] + b;
      MovedConcat(ops, markers, sel, a[1..], b);
    }
  }

  lemma {:induction false} MovedZero(ops: map<Note, Operation>, markers: map<Note, Marker>, sel: Operation -> bool, notes: seq<Note>)
    requires forall n | n in notes :: Part(ops, markers, sel, n) == 0
    ensures Moved(ops, markers, sel, notes) == 0
    decreases |notes|
  {
    if |notes| > 0 { MovedZero(ops, markers, sel, notes[1..]); }
  }

  /** Every note on a position is due or done. */
  lemma {:induction false} MovedSplit(ops: map<Note, Operation>, markers: map<Note, Marker>, k: Key, notes: seq<Note>)
    requires forall n | n in notes && n in ops :: !ops[n].status.Rejected?
    ensures Moved(ops, markers, ByKey(k), notes) == Moved(ops, markers, DueOn(k), notes) + Moved(ops, markers, DoneOn(k), notes)
    decreases |notes|
  {
    if |notes| > 0 {
      assert notes[0] in notes;
      MovedSplit(ops, markers, k, notes[1..]);
    }
  }

  /** One note of the list changes. */
  lemma {:induction false} MovedChange(ops: map<Note, Operation>, markers: map<Note, Marker>, ops': map<Note, Operation>,
                                       sel: Operation -> bool, notes: seq<Note>, note: Note)
    requires note in notes && forall i, j | 0 <= i < j < |notes| :: notes[i] != notes[j]
    requires forall n | n in notes && n != note :: Part(ops', markers, sel, n) == Part(ops, markers, sel, n)
    ensures Moved(ops', markers, sel, notes)
            == Moved(ops, markers, sel, notes) + Part(ops', markers, sel, note) - Part(ops, markers, sel, note)
    decreases |notes|
  {
    var rest := notes[1..];
    if notes[0] == note {
      forall n | n in rest ensures Part(ops, markers, sel, n) == Part(ops', markers, sel, n) {
        var i :| 0 <= i < |rest| && rest[i] == n;
        assert notes[i + 1] == n && notes[0] != n;
      }
      MovedSame(ops, markers, ops', markers, sel, rest);
    } else {
      assert notes == [notes[0]] + rest;
      MovedChange(ops, markers, ops', sel, rest, note);
    }
  }

  // ---- Any order ----

  /** The due notes up to and including note `i` leave its position in range. */
  predicate Fits(j: Journal, markers: map<Note, Marker>, notes: seq<Note>, i: nat)
    requires i < |notes|
  {
    notes[i] in j.ops && notes[i] in markers && j.ops[notes[i]].status.Confirmed? ==>
      var k := KeyOf(j.ops[notes[i]]);
      0 <= SharesOf(j.positions, k) + Moved(j.ops, markers, DueOn(k), notes[..i + 1]) <= I64_MAX
  }

  ghost predicate AllFit(j: Journal, markers: map<Note, Marker>, notes: seq<Note>) { forall i | 0 <= i < |notes| :: Fits(j, markers, notes, i) }

  ghost predicate Ackable(j: Journal, markers: map<Note, Marker>, notes: seq<Note>) {
    && (forall i, j | 0 <= i < j < |notes| :: notes[i] != notes[j])
    && (forall n | n in notes :: n in j.ops && !j.ops[n].status.Rejected?)
    && (forall n | n in markers :: markers[n].shares <= I64_MAX)
  }

  /** `next` is `j` after its note was acknowledged, or skipped. */
  ghost predicate Acked(j: Journal, next: Journal, markers: map<Note, Marker>, note: Note) {
    && next.ops.Keys == j.ops.Keys
    && (forall n | n in j.ops && n != note :: next.ops[n] == j.ops[n])
    && (forall k :: SharesOf(next.positions, k) == SharesOf(j.positions, k) + Part(j.ops, markers, DueOn(k), note))
  }

  /** A due note can be acknowledged exactly when its position stays in range. */
  lemma AckOne(j: Journal, markers: map<Note, Marker>, note: Note)
    requires note in j.ops && !j.ops[note].status.Rejected? && note in markers && markers[note].shares <= I64_MAX
    ensures var op, (next, r) := j.ops[note], ApplyOperation(j, note, markers[note].shares);
            && (r.Ok? <==> op.status.Confirmed? ==>
                  0 <= SharesOf(j.positions, KeyOf(op)) + Part(j.ops, markers, DueOn(KeyOf(op)), note) <= I64_MAX)
            && (r.Ok? ==> Acked(j, next, markers, note))
  {
  }

  lemma FitsHead(j: Journal, markers: map<Note, Marker>, notes: seq<Note>)
    requires Ackable(j, markers, notes) && |notes| > 0 && notes[0] in markers
    ensures Fits(j, markers, notes, 0) <==> ApplyOperation(j, notes[0], markers[notes[0]].shares).1.Ok?
  {
    var k := KeyOf(j.ops[notes[0]]);
    AckOne(j, markers, notes[0]);
    assert notes[..1][1..] == [] && notes[..1][0] == notes[0];
    assert Moved(j.ops, markers, DueOn(k), notes[..1]) == Part(j.ops, markers, DueOn(k), notes[0]);
  }

  /** After the head, the rest fits exactly when it fitted before. */
  lemma FitsTail(j: Journal, next: Journal, markers: map<Note, Marker>, notes: seq<Note>, i: nat)
    requires Ackable(j, markers, notes) && 0 < i < |notes| && Acked(j, next, markers, notes[0])
    ensures Fits(j, markers, notes, i) <==> Fits(next, markers, notes[1..], i - 1)
  {
    assert notes[i] != notes[0] && notes[1..][i - 1] == notes[i] && notes[i] in notes;
    var k, head, rest := KeyOf(j.ops[notes[i]]), notes[..i + 1], notes[1..][..i];
    assert head[1..] == rest && head[0] == notes[0];
    forall n | n in rest ensures Part(j.ops, markers, DueOn(k), n) == Part(next.ops, markers, DueOn(k), n) {
      var x :| 0 <= x < |rest| && rest[x] == n;
      assert notes[x + 1] == n && notes[0] != n;
    }
    MovedSame(j.ops, markers, next.ops, markers, DueOn(k), rest);
    assert Moved(j.ops, markers, DueOn(k), head) == Part(j.ops, markers, DueOn(k), notes[0]) + Moved(j.ops, markers, DueOn(k), rest);
  }

  lemma FitsTails(j: Journal, next: Journal, markers: map<Note, Marker>, notes: seq<Note>)
    requires Ackable(j, markers, notes) && |notes| > 0 && Fits(j, markers, notes, 0) && Acked(j, next, markers, notes[0])
    ensures AllFit(j, markers, notes) <==> AllFit(next, markers, notes[1..])
  {
    forall i | 0 < i < |notes| ensures Fits(j, markers, notes, i) <==> Fits(next, markers, notes[1..], i - 1) {
      FitsTail(j, next, markers, notes, i);
    }
    if AllFit(j, markers, notes) {
      forall i | 0 <= i < |notes[1..]| ensures Fits(next, markers, notes[1..], i) { assert Fits(j, markers, notes, i + 1); }
    }
  }

  lemma AckedAckable(j: Journal, next: Journal, markers: map<Note, Marker>, notes: seq<Note>)
    requires Ackable(j, markers, notes) && |notes| > 0 && Acked(j, next, markers, notes[0])
    ensures Ackable(next, markers, notes[1..])
  {
    forall n | n in notes[1..] ensures n in next.ops && !next.ops[n].status.Rejected? {
      var i :| 0 <= i < |notes[1..]| && notes[1..][i] == n;
      assert notes[i + 1] == n && notes[0] != n && n in notes;
    }
  }

  /** Acknowledging notes in a given order meets no error exactly when each fits in turn. */
  lemma {:induction false} AckAllExact(j: Journal, markers: map<Note, Marker>, notes: seq<Note>)
    requires Ackable(j, markers, notes)
    ensures AckAll(j, markers, notes).1.None? <==> AllFit(j, markers, notes)
    decreases |notes|
  {
    if |notes| > 0 {
      assert notes[0] in notes;
      if notes[0] !in markers {
        AckedAckable(j, j, markers, notes);
        AckAllExact(j, markers, notes[1..]);
        FitsTails(j, j, markers, notes);
      } else {
        FitsHead(j, markers, notes);
        AckOne(j, markers, notes[0]);
        var (next, r) := ApplyOperation(j, notes[0], markers[notes[0]].shares);
        if r.Ok? {
          AckedAckable(j, next, markers, notes);
          AckAllExact(next, markers, notes[1..]);
          FitsTails(j, next, markers, notes);
        }
      }
    }
  }

  /** When startup meets no error, for any run: every note of the journal order leaves its position in
      range. */
  lemma StartupExact(start: System, steps: seq<Step>, list: seq<Note>)
    requires Seeded(start) && JournalOrder(Run(start, steps).journal.ops, list)
    ensures var end := Run(start, steps); AckAll(end.journal, end.markers, list).1.None? <==> AllFit(end.journal, end.markers, list)
  {
    SeededInv(start);
    RunKeeps(start, steps);
    AckAllExact(Run(start, steps).journal, Run(start, steps).markers, list);
  }

  // ---- The order of the commits ----

  function NotesOf(entries: seq<Entry>): (notes: seq<Note>)
    ensures |notes| == |entries| && forall i | 0 <= i < |entries| :: notes[i] == entries[i].note
  {
    seq(|entries|, (i: nat) requires i < |entries| => entries[i].note)
  }

  /** A position holds the seeded shares and what the acknowledged notes moved. */
  ghost predicate Held(seeded: map<Key, nat>, s: System, k: Key) {
    SharesOf(s.journal.positions, k) == SharesOf(seeded, k) + Moved(s.journal.ops, s.markers, DoneOn(k), NotesOf(s.commits))
  }

  /** Once everything is acknowledged it will hold what all the commits moved. */
  ghost predicate Foreseen(seeded: map<Key, nat>, s: System, k: Key) {
    Virtual(s, k) == SharesOf(seeded, k) + Moved(s.journal.ops, s.markers, ByKey(k), NotesOf(s.commits))
  }

  /** The first `i` commits together keep it in range. */
  ghost predicate PrefixFits(seeded: map<Key, nat>, s: System, k: Key, i: nat)
    requires i <= |s.commits|
  {
    0 <= SharesOf(seeded, k) + Moved(s.journal.ops, s.markers, ByKey(k), NotesOf(s.commits)[..i]) <= I64_MAX
  }

  ghost predicate Tracked(seeded: map<Key, nat>, s: System) {
    && (forall n | n in s.markers :: n in NotesOf(s.commits))
    && (forall k :: Held(seeded, s, k) && Foreseen(seeded, s, k))
    && (forall k, i | 0 <= i <= |s.commits| :: PrefixFits(seeded, s, k, i))
  }

  lemma SeededTracked(s: System)
    requires Seeded(s)
    ensures Tracked(s.journal.positions, s)
  {
    SeededInv(s);
    forall k ensures Held(s.journal.positions, s, k) && Foreseen(s.journal.positions, s, k) { }
    forall k, i | 0 <= i <= |s.commits| ensures PrefixFits(s.journal.positions, s, k, i) { assert 0 <= Virtual(s, k) <= I64_MAX; }
  }

  lemma CommitTracked(seeded: map<Key, nat>, s: System, next: System, note: Note, used: nat, pool: PoolState, ledger: map<Key, nat>)
    requires MarkersOk(s.journal.ops, s.markers) && HistoryOk(s) && VirtualOk(next) && Tracked(seeded, s)
    requires CommitsNote(s, next, note, used, pool, ledger)
    ensures Tracked(seeded, next)
  {
    assert note !in NotesOf(s.commits);
    assert NotesOf(next.commits) == NotesOf(s.commits) + [note];
    forall k ensures Held(seeded, next, k) && Foreseen(seeded, next, k) {
      assert Held(seeded, s, k) && Foreseen(seeded, s, k);
      CommitHeld(seeded, s, next, note, used, pool, ledger, k);
    }
    CommitPrefixes(seeded, s, next, note);
  }

  lemma CommitPrefixes(seeded: map<Key, nat>, s: System, next: System, note: Note)
    requires forall k, i | 0 <= i <= |s.commits| :: PrefixFits(seeded, s, k, i)
    requires VirtualOk(next) && forall k :: Foreseen(seeded, next, k)
    requires next.journal == s.journal && note in next.markers && next.markers == s.markers[note := next.markers[note]]
    requires note !in NotesOf(s.commits) && |next.commits| == |s.commits| + 1 && NotesOf(next.commits) == NotesOf(s.commits) + [note]
    ensures forall k, i | 0 <= i <= |next.commits| :: PrefixFits(seeded, next, k, i)
  {
    forall k, i | 0 <= i <= |next.commits| ensures PrefixFits(seeded, next, k, i) {
      if i == |next.commits| {
        assert NotesOf(next.commits)[..i] == NotesOf(next.commits) && Foreseen(seeded, next, k);
        assert 0 <= Virtual(next, k) <= I64_MAX;
      } else {
        assert PrefixFits(seeded, s, k, i);
        EarlierPrefix(seeded, s, next, note, k, i);
      }
    }
  }

  lemma CommitHeld(seeded: map<Key, nat>, s: System, next: System, note: Note, used: nat, pool: PoolState, ledger: map<Key, nat>, k: Key)
    requires CommitsNote(s, next, note, used, pool, ledger) && note !in NotesOf(s.commits)
    requires Held(seeded, s, k) && Foreseen(seeded, s, k)
    ensures Held(seeded, next, k) && Foreseen(seeded, next, k)
  {
    var notes := NotesOf(s.commits);
    assert NotesOf(next.commits) == notes + [note];
    CommitPending(s, next, note, used, pool, ledger);
    CommitMoved(s, next, note, DoneOn(k), notes);
    CommitMoved(s, next, note, ByKey(k), notes);
  }

  lemma EarlierPrefix(seeded: map<Key, nat>, s: System, next: System, note: Note, k: Key, i: nat)
    requires i <= |s.commits| && PrefixFits(seeded, s, k, i) && note !in NotesOf(s.commits)
    requires next.journal == s.journal && note in next.markers && next.markers == s.markers[note := next.markers[note]]
    requires |next.commits| == |s.commits| + 1 && NotesOf(next.commits) == NotesOf(s.commits) + [note]
    ensures PrefixFits(seeded, next, k, i)
  {
    assert NotesOf(next.commits)[..i] == NotesOf(s.commits)[..i];
    MovedSame(s.journal.ops, s.markers, next.journal.ops, next.markers, ByKey(k), NotesOf(s.commits)[..i]);
  }

  lemma CommitMoved(s: System, next: System, note: Note, sel: Operation -> bool, notes: seq<Note>)
    requires note !in notes && next.journal == s.journal && note in next.markers && next.markers == s.markers[note := next.markers[note]]
    ensures Moved(next.journal.ops, next.markers, sel, notes + [note])
            == Moved(s.journal.ops, s.markers, sel, notes) + Part(next.journal.ops, next.markers, sel, note)
  {
    MovedConcat(next.journal.ops, next.markers, sel, notes, [note]);
    MovedSame(s.journal.ops, s.markers, next.journal.ops, next.markers, sel, notes);
  }

  lemma AckTracked(seeded: map<Key, nat>, s: System, note: Note)
    requires Inv(s) && Tracked(seeded, s) && note in s.markers
    ensures Tracked(seeded, Ack(s, note, s.markers[note].shares))
  {
    var next := Ack(s, note, s.markers[note].shares);
    if ApplyOperation(s.journal, note, s.markers[note].shares).1 == Ok(true) {
      AckMoves(s, note);
      forall k ensures Held(seeded, next, k) && Foreseen(seeded, next, k) {
        assert Held(seeded, s, k) && Foreseen(seeded, s, k);
        AckHeld(seeded, s, note, k);
        AckMoved(s, note, k, NotesOf(s.commits));
      }
      forall k, i | 0 <= i <= |next.commits| ensures PrefixFits(seeded, next, k, i) {
        assert PrefixFits(seeded, s, k, i);
        AckMoved(s, note, k, NotesOf(s.commits)[..i]);
      }
    }
  }

  /** An acknowledgement turns a due note into a done one. */
  lemma AckHeld(seeded: map<Key, nat>, s: System, note: Note, k: Key)
    requires MarkersOk(s.journal.ops, s.markers) && HistoryOk(s) && note in s.markers && note in NotesOf(s.commits)
    requires ApplyOperation(s.journal, note, s.markers[note].shares).1 == Ok(true) && Held(seeded, s, k)
    ensures Held(seeded, Ack(s, note, s.markers[note].shares), k)
  {
    var next := Ack(s, note, s.markers[note].shares);
    AckOne(s.journal, s.markers, note);
    AckParts(s, note, k);
    MovedChange(s.journal.ops, s.markers, next.journal.ops, DoneOn(k), NotesOf(s.commits), note);
  }

  lemma AckParts(s: System, note: Note, k: Key)
    requires note in s.markers && ApplyOperation(s.journal, note, s.markers[note].shares).1 == Ok(true)
    ensures var ops := Ack(s, note, s.markers[note].shares).journal.ops;
            && (forall n | n != note :: Part(ops, s.markers, DoneOn(k), n) == Part(s.journal.ops, s.markers, DoneOn(k), n))
            && Part(ops, s.markers, DoneOn(k), note) == Part(s.journal.ops, s.markers, DueOn(k), note)
            && Part(s.journal.ops, s.markers, DoneOn(k), note) == 0
  {
  }

  lemma AckMoved(s: System, note: Note, k: Key, notes: seq<Note>)
    requires note in s.markers && ApplyOperation(s.journal, note, s.markers[note].shares).1 == Ok(true)
    ensures var next := Ack(s, note, s.markers[note].shares);
            Moved(next.journal.ops, next.markers, ByKey(k), notes) == Moved(s.journal.ops, s.markers, ByKey(k), notes)
  {
    var next := Ack(s, note, s.markers[note].shares);
    MovedSame(s.journal.ops, s.markers, next.journal.ops, next.markers, ByKey(k), notes);
  }

  /** Steps that leave positions, markers, commits and the marked notes alone. */
  lemma QuietTracked(seeded: map<Key, nat>, s: System, next: System)
    requires MarkersOk(s.journal.ops, s.markers) && HistoryOk(s) && Tracked(seeded, s)
    requires next.journal.positions == s.journal.positions && next.markers == s.markers && next.commits == s.commits
    requires forall n | n in s.markers :: n in next.journal.ops && next.journal.ops[n] == s.journal.ops[n]
    ensures Tracked(seeded, next)
  {
    var notes := NotesOf(s.commits);
    PendingUnmoved(s, next);
    forall k ensures Held(seeded, next, k) && Foreseen(seeded, next, k) {
      assert Held(seeded, s, k) && Foreseen(seeded, s, k);
      MovedSame(s.journal.ops, s.markers, next.journal.ops, next.markers, DoneOn(k), notes);
      MovedSame(s.journal.ops, s.markers, next.journal.ops, next.markers, ByKey(k), notes);
    }
    forall k, i | 0 <= i <= |next.commits| ensures PrefixFits(seeded, next, k, i) {
      assert PrefixFits(seeded, s, k, i);
      MovedSame(s.journal.ops, s.markers, next.journal.ops, next.markers, ByKey(k), notes[..i]);
    }
  }

  lemma {:induction false} ReconcileTracked(seeded: map<Key, nat>, s: System, notes: seq<Note>)
    requires Inv(s) && Tracked(seeded, s)
    ensures Tracked(seeded, ReconcileAll(s, notes))
    decreases |notes|
  {
    if |notes| > 0 {
      if notes[0] !in s.markers {
        ReconcileTracked(seeded, s, notes[1..]);
      } else if ApplyOperation(s.journal, notes[0], s.markers[notes[0]].shares).1.Ok? {
        AckKeeps(s, notes[0]);
        AckTracked(seeded, s, notes[0]);
        ReconcileTracked(seeded, Ack(s, notes[0], s.markers[notes[0]].shares), notes[1..]);
      }
    }
  }

  lemma ApplyTracked(seeded: map<Key, nat>, s: System, inverse: nat, shares: nat)
    requires Inv(s) && Tracked(seeded, s)
    ensures Tracked(seeded, Next(s, Apply(inverse, shares)))
  {
    var next := Next(s, Apply(inverse, shares));
    if next.markers != s.markers {
      var used, pool, ledger := ApplyCommits(s, inverse, shares);
      CommitVirtual(s, next, s.ram.value.queue[0], used, pool, ledger);
      CommitTracked(seeded, s, next, s.ram.value.queue[0], used, pool, ledger);
    } else {
      QuietTracked(seeded, s, next);
    }
  }

  lemma AcknowledgeTracked(seeded: map<Key, nat>, s: System)
    requires Inv(s) && Tracked(seeded, s)
    ensures Tracked(seeded, Next(s, Acknowledge))
  {
    if s.ram.Some? && s.ram.value.acking.Some? {
      var (note, shares) := s.ram.value.acking.value;
      var acked := Ack(s, note, shares);
      AckKeeps(s, note);
      AckTracked(seeded, s, note);
      QuietTracked(seeded, acked, Next(s, Acknowledge));
    }
  }

  lemma StepTracked(seeded: map<Key, nat>, s: System, step: Step)
    requires Inv(s) && Tracked(seeded, s)
    ensures Tracked(seeded, Next(s, step))
  {
    match step
    case Apply(inverse, shares) => ApplyTracked(seeded, s, inverse, shares);
    case Acknowledge => AcknowledgeTracked(seeded, s);
    case Reconcile(list, upTo) =>
      if upTo <= |list| { ReconcileTracked(seeded, s, list[..upTo]); }
    case Record(note, op, minimum) => QuietTracked(seeded, s, Next(s, step));
    case _ => MemoryTracked(seeded, s, step);
  }

  lemma MemoryTracked(seeded: map<Key, nat>, s: System, step: Step)
    requires MarkersOk(s.journal.ops, s.markers) && HistoryOk(s) && Tracked(seeded, s)
    requires step.Trade? || step.Persist? || step.Reload? || step.Begin? || step.AckLost? || step.Crash? || step.Start?
    ensures Tracked(seeded, Next(s, step))
  {
    DurableSame(s, step);
    QuietTracked(seeded, s, Next(s, step));
  }

  lemma DurableSame(s: System, step: Step)
    requires step.Trade? || step.Persist? || step.Reload? || step.Begin? || step.AckLost? || step.Crash? || step.Start?
    ensures var next := Next(s, step); next.journal == s.journal && next.markers == s.markers && next.commits == s.commits
  {
  }

  lemma {:induction false} RunTracked(seeded: map<Key, nat>, s: System, steps: seq<Step>)
    requires Inv(s) && Tracked(seeded, s)
    ensures Inv(Run(s, steps)) && Tracked(seeded, Run(s, steps))
    decreases |steps|
  {
    if steps != [] {
      StepKeeps(s, steps[0]);
      StepTracked(seeded, s, steps[0]);
      RunTracked(seeded, Next(s, steps[0]), steps[1..]);
    }
  }

  /** No note was acknowledged ahead of an earlier commit on its position. */
  ghost predicate InOrder(s: System) {
    var notes, ops := NotesOf(s.commits), s.journal.ops;
    forall i, j | 0 <= i < j < |notes| && notes[i] in ops && notes[j] in ops && KeyOf(ops[notes[i]]) == KeyOf(ops[notes[j]]) ::
      ops[notes[i]].status.Confirmed? ==> ops[notes[j]].status.Confirmed?
  }

  /** What is done on a position is done within the commits up to its first due one. */
  lemma DoneWithin(s: System, i: nat)
    requires InOrder(s) && i < |s.commits|
    requires s.commits[i].note in s.journal.ops && s.journal.ops[s.commits[i].note].status.Confirmed?
    ensures var k, notes := KeyOf(s.journal.ops[s.commits[i].note]), NotesOf(s.commits);
            Moved(s.journal.ops, s.markers, DoneOn(k), notes) == Moved(s.journal.ops, s.markers, DoneOn(k), notes[..i + 1])
  {
    var notes := NotesOf(s.commits);
    var k, late := KeyOf(s.journal.ops[notes[i]]), notes[i + 1..];
    assert notes == notes[..i + 1] + late;
    MovedConcat(s.journal.ops, s.markers, DoneOn(k), notes[..i + 1], late);
    forall n | n in late ensures Part(s.journal.ops, s.markers, DoneOn(k), n) == 0 {
      var x :| 0 <= x < |late| && late[x] == n;
      assert notes[i + 1 + x] == n;
    }
    MovedZero(s.journal.ops, s.markers, DoneOn(k), late);
  }

  lemma InOrderFits(seeded: map<Key, nat>, s: System, i: nat)
    requires MarkersOk(s.journal.ops, s.markers) && HistoryOk(s) && Tracked(seeded, s) && InOrder(s) && i < |s.commits|
    ensures Fits(s.journal, s.markers, NotesOf(s.commits), i)
  {
    var notes, ops := NotesOf(s.commits), s.journal.ops;
    if notes[i] in ops && ops[notes[i]].status.Confirmed? {
      var k := KeyOf(ops[notes[i]]);
      DoneWithin(s, i);
      assert Held(seeded, s, k) && PrefixFits(seeded, s, k, i + 1);
      forall n | n in notes[..i + 1] && n in ops ensures !ops[n].status.Rejected? { assert n in notes; }
      MovedSplit(ops, s.markers, k, notes[..i + 1]);
    }
  }

  /** In any run, acknowledging the committed notes in the order of their commits meets no error,
      unless some note was acknowledged ahead of an earlier commit on its position. */
  lemma CommitOrderSucceeds(start: System, steps: seq<Step>)
    requires Seeded(start) && InOrder(Run(start, steps))
    ensures var end := Run(start, steps); AckAll(end.journal, end.markers, NotesOf(end.commits)).1.None?
  {
    var end := Run(start, steps);
    SeededInv(start);
    SeededTracked(start);
    RunTracked(start.journal.positions, start, steps);
    var notes := NotesOf(end.commits);
    forall i | 0 <= i < |notes| ensures Fits(end.journal, end.markers, notes, i) { InOrderFits(start.journal.positions, end, i); }
    AckAllExact(end.journal, end.markers, notes);
  }
}
