/**
 Packing a shard's orders into transactions (src/miden_execution.rs): each chunk should stay within
 an order budget and within 48 distinct (asset, user) pairs. The pair test is computed before a flush
 and used after it, so a flushed pair is not counted in the new chunk; the pair budget holds for all
 inputs exactly when the order budget is at most 48.
 */
module FpiChunks {
  import opened Basics

  const MAX_PAIRS: nat := 48

  type Pair = (nat, nat)

  datatype Order = Order(id: nat, pair: Pair)

  datatype State = State(chunks: seq<seq<Order>>, current: seq<Order>, pairs: seq<Pair>)

  const START := State([], [], [])

  predicate Flushes(s: State, o: Order, maxOrders: nat) {
    s.current != [] && ((o.pair !in s.pairs && |s.pairs| >= MAX_PAIRS) || |s.current| >= maxOrders)
  }

  function Take(s: State, o: Order, maxOrders: nat): State {
    var flushed := if Flushes(s, o, maxOrders) then State(s.chunks + [s.current], [], []) else s;
    State(flushed.chunks, flushed.current + [o], if o.pair in s.pairs then flushed.pairs else flushed.pairs + [o.pair])
  }

  function TakeAll(s: State, orders: seq<Order>, maxOrders: nat): State
    decreases |orders|
  {
    if |orders| == 0 then s else Take(TakeAll(s, orders[..|orders| - 1], maxOrders), orders[|orders| - 1], maxOrders)
  }

  function Chunks(orders: seq<Order>, maxOrders: nat): seq<seq<Order>> {
    var s := TakeAll(START, orders, maxOrders);
    if s.current == [] then s.chunks else s.chunks + [s.current]
  }

  method ChunkOrders(orders: seq<Order>, maxOrders: nat) returns (chunks: seq<seq<Order>>)
    ensures chunks == Chunks(orders, maxOrders)
  {
    if orders == [] { return []; }
    chunks := [];
    var current, pairs := [], [];
    for i := 0 to |orders|
      invariant State(chunks, current, pairs) == TakeAll(START, orders[..i], maxOrders)
    {
      var pair := orders[i].pair;
      assert orders[..i + 1][..i] == orders[..i];
      var wouldAdd := pair !in pairs;
      if current != [] && ((wouldAdd && |pairs| >= MAX_PAIRS) || |current| >= maxOrders) {
        chunks := chunks + [current];
        current, pairs := [], [];
      }
      if wouldAdd { pairs := pairs + [pair]; }
      current := current + [orders[i]];
    }
    assert orders[..|orders|] == orders;
    if current != [] { chunks := chunks + [current]; }
  }

  function Concat(chunks: seq<seq<Order>>): seq<Order>
  {
    if |chunks| == 0 then [] else Concat(chunks[..|chunks| - 1]) + chunks[|chunks| - 1]
  }

  function PairsOf(chunk: seq<Order>): set<Pair> { set i | 0 <= i < |chunk| :: chunk[i].pair }

  // ---- Nothing is lost, reordered or oversized ----

  ghost predicate SizedState(s: State, maxOrders: nat) {
    && (forall i | 0 <= i < |s.chunks| :: 0 < |s.chunks[i]| <= Max(1, maxOrders))
    && |s.current| <= Max(1, maxOrders)
  }

  /** Everything taken so far. */
  function All(s: State): seq<Order> { Concat(s.chunks) + s.current }

  lemma TakeAppends(s: State, o: Order, maxOrders: nat)
    ensures All(Take(s, o, maxOrders)) == All(s) + [o]
  {
    assert (s.chunks + [s.current])[..|s.chunks|] == s.chunks;
    assert Concat(s.chunks) + (s.current + [o]) == Concat(s.chunks) + s.current + [o];
  }

  lemma TakeSized(s: State, o: Order, maxOrders: nat)
    requires SizedState(s, maxOrders)
    ensures SizedState(Take(s, o, maxOrders), maxOrders)
  {
  }

  lemma {:induction false} TakeAllKeeps(orders: seq<Order>, maxOrders: nat)
    ensures All(TakeAll(START, orders, maxOrders)) == orders
    ensures SizedState(TakeAll(START, orders, maxOrders), maxOrders)
  {
    if |orders| > 0 {
      var front, o := orders[..|orders| - 1], orders[|orders| - 1];
      var s := TakeAll(START, front, maxOrders);
      TakeAllKeeps(front, maxOrders);
      assert front + [o] == orders;
      TakeLast(front, o, maxOrders);
      TakeAppends(s, o, maxOrders);
      TakeSized(s, o, maxOrders);
    }
  }

  /** The chunks concatenate to the orders, none is empty, none exceeds the order budget. */
  lemma ChunksPartition(orders: seq<Order>, maxOrders: nat)
    ensures var chunks := Chunks(orders, maxOrders);
            && Concat(chunks) == orders
            && forall i | 0 <= i < |chunks| :: 0 < |chunks[i]| <= Max(1, maxOrders)
  {
    var s := TakeAll(START, orders, maxOrders);
    TakeAllKeeps(orders, maxOrders);
    if s.current != [] {
      assert (s.chunks + [s.current])[..|s.chunks|] == s.chunks;
    } else {
      assert Concat(s.chunks) + [] == Concat(s.chunks);
    }
  }

  // ---- The pair budget ----

  ghost predicate WithinPairs(chunks: seq<seq<Order>>) {
    forall i | 0 <= i < |chunks| :: |PairsOf(chunks[i])| <= MAX_PAIRS
  }

  lemma {:induction false} PairsAtMostOrders(chunk: seq<Order>)
    ensures |PairsOf(chunk)| <= |chunk|
  {
    if |chunk| > 0 {
      var n := |chunk| - 1;
      PairsAtMostOrders(chunk[..n]);
      assert PairsOf(chunk) == PairsOf(chunk[..n]) + {chunk[n].pair};
    } else {
      assert PairsOf(chunk) == {};
    }
  }

  /** An input that breaks the budget: one pair repeated until the order budget flushes it, once
      more, then 48 other pairs. */
  function Same(n: nat): (orders: seq<Order>)
    ensures |orders| == n
  {
    if n == 0 then [] else Same(n - 1) + [Order(0, (0, 0))]
  }

  function Others(n: nat): (orders: seq<Order>)
    ensures |orders| == n
  {
    if n == 0 then [] else Others(n - 1) + [Order(0, (0, n))]
  }

  function OtherPairs(n: nat): (pairs: seq<Pair>)
    ensures |pairs| == n && forall i | 0 <= i < n :: pairs[i] == (0, i + 1)
  {
    if n == 0 then [] else OtherPairs(n - 1) + [(0, n)]
  }

  lemma {:induction false} TakeSame(n: nat, maxOrders: nat)
    requires 0 < n <= maxOrders
    ensures TakeAll(START, Same(n), maxOrders) == State([], Same(n), [(0, 0)])
  {
    assert Same(n)[..n - 1] == Same(n - 1);
    if n > 1 { TakeSame(n - 1, maxOrders); }
  }

  /** Once the budget is reached, the same pair flushes and is not counted again. */
  lemma TakeFlush(maxOrders: nat)
    requires maxOrders > 0
    ensures TakeAll(START, Same(maxOrders + 1), maxOrders) == State([Same(maxOrders)], [Order(0, (0, 0))], [])
  {
    var o := Order(0, (0, 0));
    TakeSame(maxOrders, maxOrders);
    TakeLast(Same(maxOrders), o, maxOrders);
    FlushSame(Same(maxOrders), o, maxOrders);
  }

  lemma TakeLast(orders: seq<Order>, o: Order, maxOrders: nat)
    ensures TakeAll(START, orders + [o], maxOrders) == Take(TakeAll(START, orders, maxOrders), o, maxOrders)
  {
    assert (orders + [o])[..|orders|] == orders;
  }

  lemma FlushSame(current: seq<Order>, o: Order, maxOrders: nat)
    requires current != [] && |current| >= maxOrders
    ensures Take(State([], current, [o.pair]), o, maxOrders) == State([current], [o], [])
  {
  }

  lemma {:induction false} TakeOthers(n: nat, maxOrders: nat)
    requires 48 < maxOrders && n <= MAX_PAIRS
    ensures TakeAll(START, Same(maxOrders + 1) + Others(n), maxOrders)
            == State([Same(maxOrders)], [Order(0, (0, 0))] + Others(n), OtherPairs(n))
  {
    var first := Same(maxOrders + 1);
    if n == 0 {
      TakeFlush(maxOrders);
      assert first + Others(0) == first && [Order(0, (0, 0))] + Others(0) == [Order(0, (0, 0))];
    } else {
      var o := Order(0, (0, n));
      TakeOthers(n - 1, maxOrders);
      OneMore(first, n);
      TakeLast(first + Others(n - 1), o, maxOrders);
      TakeOther(Same(maxOrders), n, maxOrders);
    }
  }

  lemma OneMore(first: seq<Order>, n: nat)
    requires n > 0
    ensures first + Others(n) == (first + Others(n - 1)) + [Order(0, (0, n))]
  {
  }

  /** While the budgets last, another pair joins the chunk. */
  lemma TakeOther(full: seq<Order>, n: nat, maxOrders: nat)
    requires 48 < maxOrders && 0 < n <= MAX_PAIRS
    ensures Take(State([full], [Order(0, (0, 0))] + Others(n - 1), OtherPairs(n - 1)), Order(0, (0, n)), maxOrders)
            == State([full], [Order(0, (0, 0))] + Others(n), OtherPairs(n))
  {
    assert [Order(0, (0, 0))] + Others(n - 1) + [Order(0, (0, n))] == [Order(0, (0, 0))] + Others(n);
  }

  lemma PairsMore(chunk: seq<Order>, o: Order)
    ensures PairsOf(chunk + [o]) == PairsOf(chunk) + {o.pair}
  {
    var more := chunk + [o];
    assert forall i | 0 <= i < |chunk| :: more[i] == chunk[i];
    assert more[|chunk|] == o;
    forall p | p in PairsOf(chunk) ensures p in PairsOf(more) {
      var i :| 0 <= i < |chunk| && chunk[i].pair == p;
      assert more[i].pair == p;
    }
  }

  lemma {:induction false} OthersDistinct(n: nat)
    ensures |PairsOf([Order(0, (0, 0))] + Others(n))| == n + 1
    ensures forall p | p in PairsOf([Order(0, (0, 0))] + Others(n)) :: p.1 <= n
  {
    var front := [Order(0, (0, 0))];
    if n == 0 {
      PairsMore([], Order(0, (0, 0)));
      assert PairsOf([]) == {} && front + Others(0) == [] + front;
    } else {
      OthersDistinct(n - 1);
      assert front + Others(n) == (front + Others(n - 1)) + [Order(0, (0, n))];
      PairsMore(front + Others(n - 1), Order(0, (0, n)));
    }
  }

  lemma BudgetBroken(maxOrders: nat)
    requires maxOrders > MAX_PAIRS
    ensures !WithinPairs(Chunks(Same(maxOrders + 1) + Others(MAX_PAIRS), maxOrders))
  {
    TakeOthers(MAX_PAIRS, maxOrders);
    OthersDistinct(MAX_PAIRS);
    assert Chunks(Same(maxOrders + 1) + Others(MAX_PAIRS), maxOrders)[1] == [Order(0, (0, 0))] + Others(MAX_PAIRS);
  }

  /** Every chunk of every input respects the pair budget exactly when the order budget is at most
      the pair budget. */
  lemma PairBudgetExactly(maxOrders: nat)
    ensures (forall orders: seq<Order> :: WithinPairs(Chunks(orders, maxOrders))) <==> maxOrders <= MAX_PAIRS
  {
    if maxOrders > MAX_PAIRS {
      BudgetBroken(maxOrders);
    } else {
      forall orders: seq<Order> ensures WithinPairs(Chunks(orders, maxOrders)) {
        ChunksPartition(orders, maxOrders);
        forall i | 0 <= i < |Chunks(orders, maxOrders)| ensures |PairsOf(Chunks(orders, maxOrders)[i])| <= MAX_PAIRS {
          PairsAtMostOrders(Chunks(orders, maxOrders)[i]);
        }
      }
    }
  }

  // ---- No chunk is closed early ----

  /** The chunk could not take the order: it has as many orders as allowed, or as many pairs, none of
      them, after its first order's, the order's own. */
  ghost predicate Closed(chunk: seq<Order>, o: Order, maxOrders: nat) {
    || |chunk| >= maxOrders
    || (|PairsOf(chunk)| >= MAX_PAIRS && forall j | 1 <= j < |chunk| :: chunk[j].pair != o.pair)
  }

  /** The pairs counted are distinct pairs of the current chunk, all but perhaps its first order's. */
  ghost predicate Counted(s: State) {
    && (forall i, j | 0 <= i < j < |s.pairs| :: s.pairs[i] != s.pairs[j])
    && (forall p | p in s.pairs :: p in PairsOf(s.current))
    && (forall j | 1 <= j < |s.current| :: s.current[j].pair in s.pairs)
  }

  /** Every chunk was closed by the order that follows it. */
  ghost predicate ClosedBefore(chunks: seq<seq<Order>>, maxOrders: nat) {
    forall i | 0 <= i < |chunks| - 1 :: ClosedAt(chunks, i, maxOrders)
  }

  ghost predicate ClosedAt(chunks: seq<seq<Order>>, i: nat, maxOrders: nat)
    requires i + 1 < |chunks|
  {
    chunks[i + 1] != [] && Closed(chunks[i], chunks[i + 1][0], maxOrders)
  }

  lemma {:induction false} DistinctSize(pairs: seq<Pair>, s: set<Pair>)
    requires forall i, j | 0 <= i < j < |pairs| :: pairs[i] != pairs[j]
    requires forall p | p in pairs :: p in s
    ensures |pairs| <= |s|
    decreases |pairs|
  {
    if |pairs| > 0 {
      var p, rest := pairs[0], pairs[1..];
      forall q | q in rest ensures q in s - {p} {
        var i :| 0 <= i < |rest| && rest[i] == q;
        assert pairs[i + 1] == q && pairs[0] != pairs[i + 1];
      }
      DistinctSize(rest, s - {p});
    }
  }

  lemma FlushCloses(s: State, o: Order, maxOrders: nat)
    requires Counted(s) && Flushes(s, o, maxOrders)
    ensures Closed(s.current, o, maxOrders)
  {
    DistinctSize(s.pairs, PairsOf(s.current));
  }

  lemma TakeCounts(s: State, o: Order, maxOrders: nat)
    requires Counted(s)
    ensures Counted(Take(s, o, maxOrders))
  {
    var flushed := if Flushes(s, o, maxOrders) then State(s.chunks + [s.current], [], []) else s;
    PairsMore(flushed.current, o);
    var next := Take(s, o, maxOrders);
    forall j | 1 <= j < |next.current| ensures next.current[j].pair in next.pairs {
      if j < |flushed.current| { assert next.current[j] == flushed.current[j]; }
    }
  }

  lemma {:induction false} TakeAllCloses(orders: seq<Order>, maxOrders: nat)
    ensures var s := TakeAll(START, orders, maxOrders);
            && Counted(s) && (s.current == [] ==> s.chunks == []) && ClosedBefore(s.chunks + [s.current], maxOrders)
  {
    if |orders| > 0 {
      var front, o := orders[..|orders| - 1], orders[|orders| - 1];
      var s := TakeAll(START, front, maxOrders);
      TakeAllCloses(front, maxOrders);
      TakeCounts(s, o, maxOrders);
      if Flushes(s, o, maxOrders) {
        FlushCloses(s, o, maxOrders);
        assert (s.chunks + [s.current])[|s.chunks|] == s.current && [] + [o] == [o];
        ClosedMore(s.chunks + [s.current], [o], maxOrders);
      } else {
        ClosedSame(s.chunks, s.current, o, maxOrders);
      }
    }
  }

  lemma ClosedMore(chunks: seq<seq<Order>>, current: seq<Order>, maxOrders: nat)
    requires ClosedBefore(chunks, maxOrders) && chunks != [] && current != [] && Closed(chunks[|chunks| - 1], current[0], maxOrders)
    ensures ClosedBefore(chunks + [current], maxOrders)
  {
    forall i | 0 <= i < |chunks| ensures ClosedAt(chunks + [current], i, maxOrders) {
      if i < |chunks| - 1 { assert ClosedAt(chunks, i, maxOrders); }
    }
  }

  lemma ClosedSame(chunks: seq<seq<Order>>, current: seq<Order>, o: Order, maxOrders: nat)
    requires ClosedBefore(chunks + [current], maxOrders) && (current == [] ==> chunks == [])
    ensures ClosedBefore(chunks + [current + [o]], maxOrders)
  {
    var before, after := chunks + [current], chunks + [current + [o]];
    forall i | 0 <= i < |after| - 1 ensures ClosedAt(after, i, maxOrders) {
      assert ClosedAt(before, i, maxOrders) && before[i] == after[i] && before[i + 1][0] == after[i + 1][0];
    }
  }

  /** Packing is greedy: a chunk ends only where the next order did not fit. */
  lemma ChunksGreedy(orders: seq<Order>, maxOrders: nat)
    ensures ClosedBefore(Chunks(orders, maxOrders), maxOrders)
  {
    var s := TakeAll(START, orders, maxOrders);
    TakeAllCloses(orders, maxOrders);
    forall i | 0 <= i < |Chunks(orders, maxOrders)| - 1 ensures ClosedAt(Chunks(orders, maxOrders), i, maxOrders) {
      assert ClosedAt(s.chunks + [s.current], i, maxOrders);
    }
  }
}
