/**
 Undoing pending swaps (src/processing.rs). A failed order's swap is reverted component by component
 with saturating arithmetic; a confirmed one stays. The pools always hold the base plus the deltas of
 the swaps still pending, whatever the order in which swaps fail or are confirmed.
 */
module Rollback {
  import opened Basics
  import opened Words
  import opened Sums
  import opened Pool
  import opened Quote
  import opened Processing

  // ---- One word ----

  /** Reverting is subtracting the delta, exactly when it does not saturate. */
  lemma RevertExact(current: nat, before: nat, after: nat)
    requires current < U256_LIMIT
    ensures RevertWord(current, before, after) == current - (after - before)
            <==> 0 <= current - (after - before) < U256_LIMIT
  {
  }

  /** Applying undoes reverting, exactly when the revert did not saturate. */
  lemma ApplyInvertsRevert(current: nat, before: nat, after: nat)
    requires current < U256_LIMIT && before < U256_LIMIT && after < U256_LIMIT
    ensures RevertWord(RevertWord(current, before, after), after, before) == current
            <==> 0 <= current - (after - before) < U256_LIMIT
  {
  }

  // ---- Components and deltas ----

  datatype Part = Reserve | Slippage | Liabilities

  function Get(b: Balances, part: Part): nat {
    match part
    case Reserve => b.reserve
    case Slippage => b.slippage
    case Liabilities => b.liabilities
  }

  /** What a pending swap did to one component of one pool. */
  function Delta(p: Pending, a: Asset, part: Part): int {
    if a == p.sell then Get(p.sellAfter, part) - Get(p.sellBefore, part)
    else if a == p.buy then Get(p.buyAfter, part) - Get(p.buyBefore, part)
    else 0
  }

  function PartOf(book: Book, a: Asset, part: Part): nat
    requires a in book.pools
  {
    Get(book.pools[a].balances, part)
  }

  ghost function Deltas(pending: map<OrderId, Pending>, a: Asset, part: Part): int {
    SumOver(pending.Keys, (id: OrderId) => if id in pending then Delta(pending[id], a, part) else 0)
  }

  type Base = (Asset, Part) -> int

  /** Every pool's component is the base plus the deltas of the swaps still pending. */
  ghost predicate Balanced(book: Book, base: Base, part: Part) {
    forall a | a in book.pools :: PartBalanced(book, base, part, a)
  }

  ghost predicate PartBalanced(book: Book, base: Base, part: Part, a: Asset)
    requires a in book.pools
  {
    PartOf(book, a, part) == base(a, part) + Deltas(book.pending, a, part)
  }

  /** The base owes nothing negative to LPs. */
  ghost predicate BaseOk(book: Book, base: Base) { forall a | a in book.pools :: base(a, Liabilities) >= 0 }

  /** Pending swaps trade two different pools, and no swap lowers liabilities. */
  ghost predicate PendingOk(book: Book) {
    && (forall id | id in book.pending ::
          var p := book.pending[id];
          && p.sell != p.buy && p.sell in book.pools && p.buy in book.pools
          && Delta(p, p.sell, Liabilities) >= 0 && Delta(p, p.buy, Liabilities) >= 0)
    && (forall a, part | a in book.pools :: PartOf(book, a, part) < U256_LIMIT)
  }

  /** Rolling back does not saturate this component. */
  predicate Fits(book: Book, p: Pending, part: Part)
    requires p.sell in book.pools && p.buy in book.pools
  {
    && 0 <= PartOf(book, p.sell, part) - Delta(p, p.sell, part) < U256_LIMIT
    && 0 <= PartOf(book, p.buy, part) - Delta(p, p.buy, part) < U256_LIMIT
  }

  lemma DeltasRemove(pending: map<OrderId, Pending>, id: OrderId, a: Asset, part: Part)
    requires id in pending
    ensures Deltas(pending, a, part) == Deltas(pending - {id}, a, part) + Delta(pending[id], a, part)
  {
    var f := (i: OrderId) => if i in pending then Delta(pending[i], a, part) else 0;
    var rest := pending - {id};
    SumRemove(pending.Keys, f, id);
    assert pending.Keys - {id} == rest.Keys;
    SumSame(rest.Keys, f, (i: OrderId) => if i in rest then Delta(rest[i], a, part) else 0);
  }

  lemma DeltasAdd(pending: map<OrderId, Pending>, id: OrderId, p: Pending, a: Asset, part: Part)
    requires id !in pending
    ensures Deltas(pending[id := p], a, part) == Deltas(pending, a, part) + Delta(p, a, part)
  {
    DeltasRemove(pending[id := p], id, a, part);
    assert pending[id := p] - {id} == pending;
  }

  // ---- Steps ----

  lemma PartAfterFail(book: Book, id: OrderId, a: Asset, part: Part)
    requires id in book.pending && PendingOk(book) && Fits(book, book.pending[id], part) && a in book.pools
    ensures a in Fail(book, id).pools
    ensures PartOf(Fail(book, id), a, part) == PartOf(book, a, part) - Delta(book.pending[id], a, part)
  {
  }

  /** A failure that does not saturate keeps the books balanced on the same base. */
  lemma FailBalanced(book: Book, base: Base, id: OrderId, part: Part)
    requires id in book.pending && PendingOk(book) && Balanced(book, base, part) && Fits(book, book.pending[id], part)
    ensures Balanced(Fail(book, id), base, part)
  {
    var next := Fail(book, id);
    forall a | a in next.pools ensures PartBalanced(next, base, part, a) {
      FailShape(book, id);
      assert PartBalanced(book, base, part, a);
      PartAfterFail(book, id, a, part);
      DeltasRemove(book.pending, id, a, part);
    }
  }

  function Absorb(base: Base, p: Pending): Base { (a: Asset, part: Part) => base(a, part) + Delta(p, a, part) }

  /** A confirmation moves the swap's delta into the base. */
  lemma ConfirmBalanced(book: Book, base: Base, id: OrderId, part: Part)
    requires id in book.pending && Balanced(book, base, part)
    ensures Balanced(Confirm(book, id), Absorb(base, book.pending[id]), part)
  {
    var next := Confirm(book, id);
    forall a | a in next.pools ensures PartBalanced(next, Absorb(base, book.pending[id]), part, a) {
      assert PartBalanced(book, base, part, a);
      DeltasRemove(book.pending, id, a, part);
    }
  }

  /** The swap was quoted on these pools and written into them. */
  ghost predicate Commits(book: Book, next: Book, id: OrderId, p: Pending) {
    && next.pending == book.pending[id := p]
    && p.sell != p.buy && p.sell in book.pools && p.buy in book.pools
    && p.sellBefore == book.pools[p.sell].balances && p.buyBefore == book.pools[p.buy].balances
    && next.pools == book.pools[p.sell := book.pools[p.sell].(balances := p.sellAfter)]
                               [p.buy := book.pools[p.buy].(balances := p.buyAfter)]
  }

  lemma ProcessCommits(book: Book, w: World, o: Order)
    requires OrderDefined(book, w, o)
    ensures var (next, r) := ProcessOne(book, w, o);
            if r.Err? then next.pools == book.pools && next.pending == book.pending
            else && Tradable(book, w, o) && Priced(book, w, o).Some? && o.id in next.pending
                 && Commits(book, next, o.id, next.pending[o.id])
                 && next.pending[o.id].sell == o.sell && next.pending[o.id].buy == o.buy && next.pending[o.id].user == o.user
                 && next.pending[o.id].amountIn == o.amountIn && next.pending[o.id].amountOut == r.value
                 && next.pending[o.id].sellAfter == Priced(book, w, o).value.base
                 && next.pending[o.id].buyAfter == Priced(book, w, o).value.quote
  {
  }

  /** The swap that a processed order overwrites, if its id is still pending. */
  function Overwritten(book: Book, w: World, o: Order): Option<Pending>
    requires OrderDefined(book, w, o)
  {
    if o.id in book.pending && ProcessOne(book, w, o).1.Ok? then Some(book.pending[o.id]) else None
  }

  /** Processing an order keeps the books balanced; a swap it overwrites is never rolled back again,
      so its delta becomes part of the base. */
  lemma ProcessBalanced(book: Book, w: World, o: Order, base: Base, part: Part)
    requires OrderDefined(book, w, o) && Balanced(book, base, part)
    ensures Balanced(ProcessOne(book, w, o).0, Moved(base, Overwritten(book, w, o)), part)
  {
    var (next, r) := ProcessOne(book, w, o);
    ProcessCommits(book, w, o);
    if r.Ok? {
      if o.id in book.pending {
        ReplaceBalanced(book, next, next.pending[o.id], o.id, base, part);
      } else {
        CommitBalanced(book, next, next.pending[o.id], o.id, base, part);
      }
    }
  }

  /** The base after a swap stops being pending without being rolled back. */
  function Moved(base: Base, p: Option<Pending>): Base { if p.Some? then Absorb(base, p.value) else base }

  lemma CommitBalanced(book: Book, next: Book, p: Pending, id: OrderId, base: Base, part: Part)
    requires Balanced(book, base, part) && id !in book.pending && Commits(book, next, id, p)
    ensures Balanced(next, base, part)
  {
    forall a | a in next.pools ensures PartBalanced(next, base, part, a) {
      assert a in book.pools && PartBalanced(book, base, part, a);
      DeltasAdd(book.pending, id, p, a, part);
    }
  }

  lemma ReplaceBalanced(book: Book, next: Book, p: Pending, id: OrderId, base: Base, part: Part)
    requires Balanced(book, base, part) && id in book.pending && Commits(book, next, id, p)
    ensures Balanced(next, Absorb(base, book.pending[id]), part)
  {
    forall a | a in next.pools ensures PartBalanced(next, Absorb(base, book.pending[id]), part, a) {
      PartReplaced(book, next, p, id, base, part, a);
    }
  }

  lemma PartReplaced(book: Book, next: Book, p: Pending, id: OrderId, base: Base, part: Part, a: Asset)
    requires a in book.pools && PartBalanced(book, base, part, a) && id in book.pending && Commits(book, next, id, p)
    ensures a in next.pools && PartBalanced(next, Absorb(base, book.pending[id]), part, a)
    ensures PartBalanced(next, base, part, a) <==> Delta(book.pending[id], a, part) == 0
  {
    DeltasReplace(book.pending, id, p, a, part);
  }

  lemma DeltasReplace(pending: map<OrderId, Pending>, id: OrderId, p: Pending, a: Asset, part: Part)
    requires id in pending
    ensures Deltas(pending[id := p], a, part) == Deltas(pending, a, part) - Delta(pending[id], a, part) + Delta(p, a, part)
  {
    DeltasRemove(pending, id, a, part);
    DeltasRemove(pending[id := p], id, a, part);
    assert pending[id := p] - {id} == pending - {id};
  }

  /** Processing an order whose id is still pending keeps the books balanced on the old base exactly
      when the overwritten swap had changed nothing. */
  lemma ReprocessBalancedExactly(book: Book, w: World, o: Order, base: Base, part: Part)
    requires OrderDefined(book, w, o) && Balanced(book, base, part) && Overwritten(book, w, o).Some?
    ensures Balanced(ProcessOne(book, w, o).0, base, part)
            <==> forall a | a in book.pools :: Delta(book.pending[o.id], a, part) == 0
  {
    var next := ProcessOne(book, w, o).0;
    ProcessCommits(book, w, o);
    ReplaceBalancedExactly(book, next, next.pending[o.id], o.id, base, part);
  }

  lemma ReplaceBalancedExactly(book: Book, next: Book, p: Pending, id: OrderId, base: Base, part: Part)
    requires Balanced(book, base, part) && id in book.pending && Commits(book, next, id, p)
    ensures Balanced(next, base, part) <==> forall a | a in book.pools :: Delta(book.pending[id], a, part) == 0
  {
    assert next.pools.Keys == book.pools.Keys;
    forall a | a in book.pools
      ensures a in next.pools && (PartBalanced(next, base, part, a) <==> Delta(book.pending[id], a, part) == 0)
    {
      PartReplaced(book, next, p, id, base, part, a);
    }
  }

  /** Rolling back liabilities never saturates: they are the base plus non-negative deltas. */
  lemma LiabilitiesFit(book: Book, base: Base, id: OrderId)
    requires id in book.pending && PendingOk(book) && Balanced(book, base, Liabilities)
    requires BaseOk(book, base)
    ensures Fits(book, book.pending[id], Liabilities)
  {
    var p := book.pending[id];
    DeltaWithin(book, base, id, p.sell);
    DeltaWithin(book, base, id, p.buy);
  }

  lemma DeltaWithin(book: Book, base: Base, id: OrderId, a: Asset)
    requires id in book.pending && PendingOk(book) && Balanced(book, base, Liabilities)
    requires a in book.pools && base(a, Liabilities) >= 0
    ensures PartOf(book, a, Liabilities) >= Delta(book.pending[id], a, Liabilities) >= 0
  {
    var f := (i: OrderId) => if i in book.pending then Delta(book.pending[i], a, Liabilities) else 0;
    assert PartBalanced(book, base, Liabilities, a);
    forall i | i in book.pending.Keys ensures f(i) >= 0 { LiabilitiesRise(book, i); }
    SumAtLeast(book.pending.Keys, f);
    assert f(id) == Delta(book.pending[id], a, Liabilities);
  }

  lemma FailShape(book: Book, id: OrderId)
    ensures Fail(book, id).pools.Keys == book.pools.Keys && Fail(book, id).pending == book.pending - {id}
  {
  }

  /** A failure keeps pending swaps well formed. */
  lemma FailPendingOk(book: Book, id: OrderId)
    requires PendingOk(book) && id in book.pending
    ensures PendingOk(Fail(book, id))
  {
    var next := Fail(book, id);
    forall a, part | a in next.pools ensures PartOf(next, a, part) < U256_LIMIT {
      assert PartOf(book, a, part) < U256_LIMIT;
    }
  }

  // ---- Any order ----

  function IdSet(ids: seq<OrderId>): set<OrderId> { set id | id in ids }

  function FailAll(book: Book, ids: seq<OrderId>): Book
    decreases |ids|
  {
    if ids == [] then book else FailAll(Fail(book, ids[0]), ids[1..])
  }

  /** Each id is pending when its turn comes, and its rollback does not saturate this component;
      liabilities need no such proviso. */
  ghost predicate Clean(book: Book, ids: seq<OrderId>, part: Part)
    decreases |ids|
  {
    ids == []
    || (&& ids[0] in book.pending
        && book.pending[ids[0]].sell in book.pools && book.pending[ids[0]].buy in book.pools
        && (part.Liabilities? || Fits(book, book.pending[ids[0]], part))
        && Clean(Fail(book, ids[0]), ids[1..], part))
  }

  lemma {:induction false} FailAllShape(book: Book, ids: seq<OrderId>)
    ensures FailAll(book, ids).pools.Keys == book.pools.Keys
    ensures FailAll(book, ids).pending == book.pending - IdSet(ids)
    decreases |ids|
  {
    if ids != [] {
      FailShape(book, ids[0]);
      FailAllShape(Fail(book, ids[0]), ids[1..]);
      assert IdSet(ids) == {ids[0]} + IdSet(ids[1..]);
    }
  }

  /** After rolling back any swaps in any order, every component is the base plus the deltas of the
      swaps that remain. */
  lemma {:induction false} FailAllBalanced(book: Book, base: Base, ids: seq<OrderId>, part: Part)
    requires Sound(book, base, part) && Clean(book, ids, part)
    ensures Balanced(FailAll(book, ids), base, part)
    decreases |ids|
  {
    if ids != [] {
      FailSound(book, base, ids[0], part);
      FailAllBalanced(Fail(book, ids[0]), base, ids[1..], part);
    }
  }

  /** The components after rolling back `ids`, in whatever order. */
  lemma Remaining(book: Book, base: Base, ids: seq<OrderId>, part: Part, a: Asset)
    requires Sound(book, base, part) && Clean(book, ids, part)
    requires a in book.pools
    ensures a in FailAll(book, ids).pools
    ensures PartOf(FailAll(book, ids), a, part) == base(a, part) + Deltas(book.pending - IdSet(ids), a, part)
  {
    FailAllShape(book, ids);
    FailAllBalanced(book, base, ids, part);
    assert PartBalanced(FailAll(book, ids), base, part, a);
  }

  /** Rolling back the same swaps in two different orders gives the same pools. */
  lemma OrderIndependent(book: Book, base: Base, ids: seq<OrderId>, ids': seq<OrderId>, part: Part, a: Asset)
    requires Sound(book, base, part) && Clean(book, ids, part) && Clean(book, ids', part)
    requires IdSet(ids) == IdSet(ids') && a in book.pools
    ensures a in FailAll(book, ids).pools && a in FailAll(book, ids').pools
    ensures PartOf(FailAll(book, ids), a, part) == PartOf(FailAll(book, ids'), a, part)
  {
    Remaining(book, base, ids, part, a);
    Remaining(book, base, ids', part, a);
  }

  /** Rolling back everything restores the base. */
  lemma AllRolledBack(book: Book, base: Base, ids: seq<OrderId>, part: Part, a: Asset)
    requires Sound(book, base, part) && Clean(book, ids, part)
    requires IdSet(ids) == book.pending.Keys && a in book.pools
    ensures a in FailAll(book, ids).pools && PartOf(FailAll(book, ids), a, part) == base(a, part)
  {
    Remaining(book, base, ids, part, a);
    assert book.pending - book.pending.Keys == map[];
  }

  /** Re-applying a rolled-back swap restores the pools, when the rollback did not saturate. */
  lemma ApplyInvertsRollback(book: Book, p: Pending)
    requires p.sell != p.buy && p.sell in book.pools && p.buy in book.pools
    requires forall a, part | a in book.pools :: PartOf(book, a, part) < U256_LIMIT
    requires Fits(book, p, Reserve) && Fits(book, p, Slippage) && Fits(book, p, Liabilities)
    ensures ApplySwap(RollbackSwap(book, p), p).pools == book.pools
  {
    assert PartOf(book, p.sell, Reserve) < U256_LIMIT && PartOf(book, p.buy, Reserve) < U256_LIMIT;
    assert PartOf(book, p.sell, Slippage) < U256_LIMIT && PartOf(book, p.buy, Slippage) < U256_LIMIT;
    assert PartOf(book, p.sell, Liabilities) < U256_LIMIT && PartOf(book, p.buy, Liabilities) < U256_LIMIT;
  }

  // ---- Whole runs ----

  datatype Step = Processed(order: Order) | Failed(id: OrderId) | Confirmed(id: OrderId)

  /** The liabilities of the output pool have room for the LP fee. */
  predicate FeeFits(book: Book, w: World, o: Order)
    requires OrderDefined(book, w, o)
  {
    Tradable(book, w, o) ==>
      var q := QuoteSwap(book.pools[o.sell], book.pools[o.buy], o.amountIn, o.market.value);
      q.Some? ==> book.pools[o.buy].balances.liabilities + q.value.fees.lp < U256_LIMIT
  }

  lemma ProcessPendingOk(book: Book, w: World, o: Order)
    requires OrderDefined(book, w, o) && PendingOk(book) && FeeFits(book, w, o)
    ensures PendingOk(ProcessOne(book, w, o).0)
  {
    var (next, r) := ProcessOne(book, w, o);
    ProcessCommits(book, w, o);
    if r.Err? {
      SamePendingOk(book, next);
    } else {
      PoolsWordSized(book, o.sell);
      PoolsWordSized(book, o.buy);
      QuoteFits(book.pools[o.sell], book.pools[o.buy], o.amountIn, o.market.value, o.minOut);
      CommitPendingOk(book, next, next.pending[o.id], o.id);
    }
  }

  lemma SamePendingOk(book: Book, next: Book)
    requires PendingOk(book) && next.pools == book.pools && next.pending == book.pending
    ensures PendingOk(next)
  {
    forall a, part | a in next.pools ensures PartOf(next, a, part) < U256_LIMIT {
      assert PartOf(book, a, part) < U256_LIMIT;
    }
  }

  lemma PoolsWordSized(book: Book, a: Asset)
    requires PendingOk(book) && a in book.pools
    ensures WordSized(book.pools[a].balances)
  {
    forall part ensures Get(book.pools[a].balances, part) < U256_LIMIT { assert PartOf(book, a, part) < U256_LIMIT; }
  }

  ghost predicate WordSized(b: Balances) { forall part :: Get(b, part) < U256_LIMIT }

  /** A credited quote holds 256-bit words and lowers no liabilities. */
  lemma QuoteFits(base: PoolState, quote: PoolState, amountIn: nat, market: Market, amount: nat)
    requires QuoteDefined(base, quote, market) && QuoteSwap(base, quote, amountIn, market).Some?
    requires WordSized(base.balances) && WordSized(quote.balances)
    requires quote.balances.liabilities + QuoteSwap(base, quote, amountIn, market).value.fees.lp < U256_LIMIT
    ensures var q := CreditTo(QuoteSwap(base, quote, amountIn, market).value, amount);
            && WordSized(q.base) && WordSized(q.quote)
            && q.base.liabilities == base.balances.liabilities && q.quote.liabilities >= quote.balances.liabilities
  {
    assert Get(base.balances, Reserve) < U256_LIMIT && Get(base.balances, Slippage) < U256_LIMIT;
    assert Get(quote.balances, Reserve) < U256_LIMIT && Get(quote.balances, Slippage) < U256_LIMIT;
    assert Get(base.balances, Liabilities) < U256_LIMIT && Get(quote.balances, Liabilities) < U256_LIMIT;
    var q := QuoteSwap(base, quote, amountIn, market).value;
    WrapSmall(quote.balances.liabilities + q.fees.lp);
  }

  lemma CommitPendingOk(book: Book, next: Book, p: Pending, id: OrderId)
    requires PendingOk(book) && Commits(book, next, id, p) && WordSized(p.sellAfter) && WordSized(p.buyAfter)
    requires Delta(p, p.sell, Liabilities) >= 0 && Delta(p, p.buy, Liabilities) >= 0
    ensures PendingOk(next)
  {
    forall a, part | a in next.pools ensures PartOf(next, a, part) < U256_LIMIT {
      assert a in book.pools && PartOf(book, a, part) < U256_LIMIT;
    }
  }

  predicate Defined(book: Book, w: World, step: Step) { step.Processed? ==> OrderDefined(book, w, step.order) }

  function Next(book: Book, w: World, step: Step): Book
    requires Defined(book, w, step)
  {
    match step
    case Processed(o) => ProcessOne(book, w, o).0
    case Failed(id) => Fail(book, id)
    case Confirmed(id) => Confirm(book, id)
  }

  /** A step a run may take: the output pool has room for the LP fee, and a failing order's rollback
      does not saturate this component (liabilities need no proviso). */
  ghost predicate Enabled(book: Book, w: World, step: Step, part: Part) {
    match step
    case Processed(o) => OrderDefined(book, w, o) && FeeFits(book, w, o)
    case Failed(id) =>
      id in book.pending ==>
        && book.pending[id].sell in book.pools && book.pending[id].buy in book.pools
        && (part.Liabilities? || Fits(book, book.pending[id], part))
    case Confirmed(id) => true
  }

  /** The swap whose delta a step makes permanent: a confirmed one, or one overwritten under its id. */
  function Settles(book: Book, w: World, step: Step): Option<Pending>
    requires Defined(book, w, step)
  {
    match step
    case Processed(o) => Overwritten(book, w, o)
    case Failed(_) => None
    case Confirmed(id) => if id in book.pending then Some(book.pending[id]) else None
  }

  ghost predicate RunEnabled(book: Book, w: World, steps: seq<Step>, part: Part)
    decreases |steps|
  {
    steps == [] || (Enabled(book, w, steps[0], part) && RunEnabled(Next(book, w, steps[0]), w, steps[1..], part))
  }

  ghost function RunBook(book: Book, w: World, steps: seq<Step>, part: Part): Book
    requires RunEnabled(book, w, steps, part)
    decreases |steps|
  {
    if steps == [] then book else RunBook(Next(book, w, steps[0]), w, steps[1..], part)
  }

  ghost function RunBase(book: Book, base: Base, w: World, steps: seq<Step>, part: Part): Base
    requires RunEnabled(book, w, steps, part)
    decreases |steps|
  {
    if steps == [] then base
    else RunBase(Next(book, w, steps[0]), Moved(base, Settles(book, w, steps[0])), w, steps[1..], part)
  }

  ghost predicate Sound(book: Book, base: Base, part: Part) {
    PendingOk(book) && Balanced(book, base, part) && BaseOk(book, base)
  }

  lemma StepBalanced(book: Book, base: Base, w: World, step: Step, part: Part)
    requires Sound(book, base, part) && Enabled(book, w, step, part)
    ensures Sound(Next(book, w, step), Moved(base, Settles(book, w, step)), part)
  {
    if step.Processed? {
      ProcessSound(book, base, w, step.order, part);
    } else if step.Failed? {
      FailSound(book, base, step.id, part);
    } else if step.id in book.pending {
      ConfirmSound(book, base, step.id, part);
    } else {
      ConfirmNothing(book, step.id);
    }
  }

  lemma ProcessSound(book: Book, base: Base, w: World, o: Order, part: Part)
    requires Sound(book, base, part) && OrderDefined(book, w, o) && FeeFits(book, w, o)
    ensures Sound(ProcessOne(book, w, o).0, Moved(base, Overwritten(book, w, o)), part)
  {
    ProcessBalanced(book, w, o, base, part);
    ProcessPendingOk(book, w, o);
    ProcessBase(book, base, w, o);
  }

  lemma ProcessBase(book: Book, base: Base, w: World, o: Order)
    requires PendingOk(book) && BaseOk(book, base) && OrderDefined(book, w, o)
    ensures BaseOk(ProcessOne(book, w, o).0, Moved(base, Overwritten(book, w, o)))
  {
    ProcessCommits(book, w, o);
    assert ProcessOne(book, w, o).0.pools.Keys == book.pools.Keys;
    if Overwritten(book, w, o).Some? { AbsorbRises(book, base, o.id); }
  }

  lemma AbsorbRises(book: Book, base: Base, id: OrderId)
    requires PendingOk(book) && id in book.pending && BaseOk(book, base)
    ensures BaseOk(book, Absorb(base, book.pending[id]))
  {
    LiabilitiesRise(book, id);
  }

  lemma FailSound(book: Book, base: Base, id: OrderId, part: Part)
    requires Sound(book, base, part) && (id in book.pending ==> part.Liabilities? || Fits(book, book.pending[id], part))
    ensures Sound(Fail(book, id), base, part)
  {
    if id in book.pending {
      if part.Liabilities? { LiabilitiesFit(book, base, id); }
      FailBalanced(book, base, id, part);
      FailPendingOk(book, id);
      FailShape(book, id);
    }
  }

  lemma ConfirmSound(book: Book, base: Base, id: OrderId, part: Part)
    requires Sound(book, base, part) && id in book.pending
    ensures Sound(Confirm(book, id), Absorb(base, book.pending[id]), part)
  {
    ConfirmBalanced(book, base, id, part);
    ConfirmPendingOk(book, id);
    AbsorbRises(book, base, id);
  }

  lemma ConfirmNothing(book: Book, id: OrderId)
    requires id !in book.pending
    ensures Confirm(book, id) == book
  {
    assert book.pending - {id} == book.pending;
  }

  lemma LiabilitiesRise(book: Book, id: OrderId)
    requires PendingOk(book) && id in book.pending
    ensures forall a :: Delta(book.pending[id], a, Liabilities) >= 0
  {
  }

  lemma ConfirmPendingOk(book: Book, id: OrderId)
    requires PendingOk(book)
    ensures PendingOk(Confirm(book, id))
  {
    var next := Confirm(book, id);
    forall a, part | a in next.pools ensures PartOf(next, a, part) < U256_LIMIT {
      assert PartOf(book, a, part) < U256_LIMIT;
    }
  }

  /** In every run of processed, failed and confirmed orders, every pool component is the base plus
      the deltas of the pending swaps, where only swaps that are confirmed or overwritten move the
      base. */
  lemma {:induction false} RunBalanced(book: Book, base: Base, w: World, steps: seq<Step>, part: Part)
    requires Sound(book, base, part) && RunEnabled(book, w, steps, part)
    ensures Balanced(RunBook(book, w, steps, part), RunBase(book, base, w, steps, part), part)
    decreases |steps|
  {
    if steps != [] {
      StepBalanced(book, base, w, steps[0], part);
      RunBalanced(Next(book, w, steps[0]), Moved(base, Settles(book, w, steps[0])), w, steps[1..], part);
    }
  }
}
