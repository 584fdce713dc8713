/**
 Token conservation through processing, failure and confirmation (src/processing.rs). A failed order
 is rolled back with saturating arithmetic on both sides: what the user gets back or gives up can
 differ from what the pool gives up or gets back. A run keeps the total of every asset exactly when
 no failure meets such a difference, and a short run meets one.
 */
module Conservation {
  import opened Basics
  import Arith
  import opened Words
  import opened Sums
  import opened Curve
  import opened Pool
  import opened Quote
  import opened Processing
  import opened Rollback

  // ---- One rollback ----

  /** The pending swap moved what it says: the input pool took the amount in, the output pool gave the
      amount out, and both of the user's balances are in the mirror. */
  ghost predicate Recorded(book: Book, p: Pending, users: set<User>) {
    && p.sell != p.buy && p.sell in book.pools && p.buy in book.pools && p.user in users
    && (p.user, p.sell) in book.balances && (p.user, p.buy) in book.balances
    && Delta(p, p.sell, Slippage) == p.amountIn && Delta(p, p.buy, Slippage) == 0 - p.amountOut
  }

  /** Balances are 64-bit and slippage reserves 256-bit words. */
  ghost predicate Sized(book: Book) {
    && (forall k | k in book.balances :: book.balances[k] <= U64_MAX)
    && (forall a | a in book.pools :: book.pools[a].balances.slippage < U256_LIMIT)
  }

  /** The user can be refunded as much of the amount in as the pool can give up. */
  predicate Refunds(book: Book, p: Pending)
    requires p.sell in book.pools && (p.user, p.sell) in book.balances
  {
    Min(p.amountIn, U64_MAX - book.balances[(p.user, p.sell)]) == Min(p.amountIn, book.pools[p.sell].balances.slippage)
  }

  /** The user still holds as much of the amount out as the pool can take back. */
  predicate Debits(book: Book, p: Pending)
    requires p.buy in book.pools && (p.user, p.buy) in book.balances
  {
    Min(p.amountOut, book.balances[(p.user, p.buy)]) == Min(p.amountOut, U256_LIMIT - 1 - book.pools[p.buy].balances.slippage)
  }

  /** A rollback keeps the total of the sold asset exactly when the refund matches, of the bought
      asset exactly when the debit matches, and of every other asset always. */
  lemma RollbackConservesExactly(book: Book, w: World, p: Pending, users: set<User>, a: Asset)
    requires Recorded(book, p, users) && Sized(book)
    ensures Total(RollbackSwap(book, p), w, users, a) == Total(book, w, users, a)
            <==> (a == p.sell ==> Refunds(book, p)) && (a == p.buy ==> Debits(book, p))
  {
    var next := RollbackSwap(book, p);
    if a == p.sell {
      var refund, given := Min(p.amountIn, U64_MAX - book.balances[(p.user, a)]), Min(p.amountIn, book.pools[a].balances.slippage);
      TotalChange(book, next, w, users, a, p.user, refund, 0 - given);
    } else if a == p.buy {
      var debit, taken := Min(p.amountOut, book.balances[(p.user, a)]), Min(p.amountOut, U256_LIMIT - 1 - book.pools[a].balances.slippage);
      TotalChange(book, next, w, users, a, p.user, 0 - debit, taken);
    } else {
      OtherAsset(book, next, w, users, a);
    }
  }

  /** When the pools do not saturate, that is: the refund fits 64 bits and the user has not spent what
      the swap credited. */
  lemma UnsaturatedCondition(book: Book, p: Pending, users: set<User>)
    requires Recorded(book, p, users) && Sized(book) && Fits(book, p, Slippage)
    ensures Refunds(book, p) <==> book.balances[(p.user, p.sell)] + p.amountIn <= U64_MAX
    ensures Debits(book, p) <==> book.balances[(p.user, p.buy)] >= p.amountOut
  {
  }

  // ---- Steps ----

  ghost predicate Ready(book: Book, users: set<User>) {
    Sized(book) && forall id | id in book.pending :: Recorded(book, book.pending[id], users)
  }

  ghost predicate SameTotals(book: Book, next: Book, w: World, users: set<User>) {
    forall a: Asset :: Total(next, w, users, a) == Total(book, w, users, a)
  }

  /** An order does not lose its input; a rollback gives back exactly what it takes. */
  predicate Returns(book: Book, w: World, step: Step) {
    && (step.Processed? ==> !LosesInput(book, w, step.order))
    && (step.Failed? && step.id in book.pending ==>
          var p := book.pending[step.id];
          && p.sell in book.pools && p.buy in book.pools && (p.user, p.sell) in book.balances && (p.user, p.buy) in book.balances
          && Refunds(book, p) && Debits(book, p))
  }

  /** Where a failure keeps a total. */
  lemma FailTotal(book: Book, w: World, id: OrderId, users: set<User>, a: Asset)
    requires Ready(book, users) && id in book.pending
    ensures var p := book.pending[id];
            Total(Fail(book, id), w, users, a) == Total(book, w, users, a)
            <==> (a == p.sell ==> Refunds(book, p)) && (a == p.buy ==> Debits(book, p))
  {
    RollbackConservesExactly(book, w, book.pending[id], users, a);
    SameBalances(RollbackSwap(book, book.pending[id]), Fail(book, id), w, users, a);
  }

  lemma FailConservesExactly(book: Book, w: World, id: OrderId, users: set<User>)
    requires Ready(book, users)
    ensures SameTotals(book, Fail(book, id), w, users) <==> Returns(book, w, Failed(id))
  {
    if id in book.pending {
      var p := book.pending[id];
      assert Recorded(book, p, users);
      FailTotal(book, w, id, users, p.sell);
      FailTotal(book, w, id, users, p.buy);
      if Refunds(book, p) && Debits(book, p) {
        forall a: Asset ensures Total(Fail(book, id), w, users, a) == Total(book, w, users, a) {
          FailTotal(book, w, id, users, a);
        }
      }
    }
  }

  /** Pending swaps are not part of a total. */
  lemma SameBalances(book: Book, next: Book, w: World, users: set<User>, a: Asset)
    requires next.balances == book.balances && next.pools == book.pools
    ensures Total(next, w, users, a) == Total(book, w, users, a)
  {
    OtherAsset(book, next, w, users, a);
  }

  /** Orders have a known user, and room when their turn comes. */
  ghost predicate OrderlyStep(book: Book, w: World, step: Step, users: set<User>) {
    step.Processed? ==> OrderDefined(book, w, step.order) && step.order.user in users && Roomy(book, w, step.order)
  }

  lemma StepConservesExactly(book: Book, w: World, step: Step, users: set<User>)
    requires Ready(book, users) && OrderlyStep(book, w, step, users)
    ensures SameTotals(book, Next(book, w, step), w, users) <==> Returns(book, w, step)
  {
    match step
    case Processed(o) => ProcessConservesExactly(book, w, o, users);
    case Failed(id) => FailConservesExactly(book, w, id, users);
    case Confirmed(id) =>
      forall a: Asset ensures Total(Confirm(book, id), w, users, a) == Total(book, w, users, a) {
        SameBalances(book, Confirm(book, id), w, users, a);
      }
  }

  lemma ProcessConservesExactly(book: Book, w: World, o: Order, users: set<User>)
    requires OrderlyStep(book, w, Processed(o), users)
    ensures SameTotals(book, ProcessOne(book, w, o).0, w, users) <==> !LosesInput(book, w, o)
  {
    OrderConservesExactly(book, w, o, users, o.sell);
    if !LosesInput(book, w, o) {
      forall a: Asset ensures Total(ProcessOne(book, w, o).0, w, users, a) == Total(book, w, users, a) {
        OrderConservesExactly(book, w, o, users, a);
      }
    }
  }

  // ---- The steps keep swaps recorded ----

  ghost predicate WorldSized(w: World) { forall k | k in w.chain :: w.chain[k] <= U64_MAX }

  lemma ProcessSized(book: Book, w: World, o: Order)
    requires Sized(book) && WorldSized(w) && OrderDefined(book, w, o) && Roomy(book, w, o)
    ensures Sized(ProcessOne(book, w, o).0) && book.balances.Keys <= ProcessOne(book, w, o).0.balances.Keys
  {
    ProcessBalances(book, w, o);
    ProcessSlippage(book, w, o);
  }

  lemma ProcessBalances(book: Book, w: World, o: Order)
    requires WorldSized(w) && OrderDefined(book, w, o) && forall k | k in book.balances :: book.balances[k] <= U64_MAX
    ensures var next := ProcessOne(book, w, o).0.balances;
            book.balances.Keys <= next.Keys && forall k | k in next :: next[k] <= U64_MAX
  {
  }

  lemma ProcessSlippage(book: Book, w: World, o: Order)
    requires OrderDefined(book, w, o) && Roomy(book, w, o)
    requires forall a | a in book.pools :: book.pools[a].balances.slippage < U256_LIMIT
    ensures var next := ProcessOne(book, w, o).0.pools; forall a | a in next :: next[a].balances.slippage < U256_LIMIT
  {
    if ProcessOne(book, w, o).1.Ok? {
      ProcessedEffects(book, w, o);
      SlippageMoves(book, ProcessOne(book, w, o).0, w, o, o.minOut);
    }
  }

  lemma SlippageMoves(book: Book, next: Book, w: World, o: Order, got: nat)
    requires Roomy(book, w, o) && forall a | a in book.pools :: book.pools[a].balances.slippage < U256_LIMIT
    requires exists kept: nat :: kept <= o.amountIn && Moves(book, next, w, o, kept, got)
    ensures forall a | a in next.pools :: next.pools[a].balances.slippage < U256_LIMIT
  {
    var kept: nat :| kept <= o.amountIn && Moves(book, next, w, o, kept, got);
    forall a | a in next.pools ensures next.pools[a].balances.slippage < U256_LIMIT { assert a in book.pools; }
  }

  lemma ProcessRecords(book: Book, w: World, o: Order, users: set<User>)
    requires OrderlyStep(book, w, Processed(o), users)
    ensures var (next, r) := ProcessOne(book, w, o);
            r.Ok? && !LosesInput(book, w, o) ==> o.id in next.pending && Recorded(next, next.pending[o.id], users)
  {
    var (next, r) := ProcessOne(book, w, o);
    if r.Ok? && !LosesInput(book, w, o) {
      ProcessCommits(book, w, o);
      ProcessedEffects(book, w, o);
      LosesInputProcessed(book, w, o);
      assert next.pools[o.sell].balances == next.pending[o.id].sellAfter && next.pools[o.buy].balances == next.pending[o.id].buyAfter;
    }
  }

  lemma StillRecorded(book: Book, next: Book, p: Pending, users: set<User>)
    requires Recorded(book, p, users) && book.balances.Keys <= next.balances.Keys && next.pools.Keys == book.pools.Keys
    ensures Recorded(next, p, users)
  {
    assert (p.user, p.sell) in book.balances.Keys && (p.user, p.buy) in book.balances.Keys;
  }

  lemma ProcessReady(book: Book, w: World, o: Order, users: set<User>)
    requires Ready(book, users) && WorldSized(w) && OrderlyStep(book, w, Processed(o), users) && !LosesInput(book, w, o)
    ensures Ready(ProcessOne(book, w, o).0, users)
  {
    var (next, r) := ProcessOne(book, w, o);
    ProcessSized(book, w, o);
    ProcessCommits(book, w, o);
    assert next.pools.Keys == book.pools.Keys;
    forall id | id in next.pending ensures Recorded(next, next.pending[id], users) {
      if r.Ok? && id == o.id {
        ProcessRecords(book, w, o, users);
      } else {
        StillRecorded(book, next, book.pending[id], users);
      }
    }
  }

  lemma FailReady(book: Book, id: OrderId, users: set<User>)
    requires Ready(book, users)
    ensures Ready(Fail(book, id), users)
  {
    var next := Fail(book, id);
    FailShape(book, id);
    FailSized(book, id);
    forall i | i in next.pending ensures Recorded(next, next.pending[i], users) {
      StillRecorded(book, next, book.pending[i], users);
    }
  }

  lemma FailSized(book: Book, id: OrderId)
    requires Sized(book)
    ensures Sized(Fail(book, id)) && Fail(book, id).balances.Keys == book.balances.Keys
  {
    var next := Fail(book, id);
    forall a | a in next.pools ensures next.pools[a].balances.slippage < U256_LIMIT {
      assert a in book.pools && book.pools[a].balances.slippage < U256_LIMIT;
    }
  }

  lemma ConfirmReady(book: Book, id: OrderId, users: set<User>)
    requires Ready(book, users)
    ensures Ready(Confirm(book, id), users)
  {
    var next := Confirm(book, id);
    forall i | i in next.pending ensures Recorded(next, next.pending[i], users) {
      StillRecorded(book, next, book.pending[i], users);
    }
  }

  lemma StepReady(book: Book, w: World, step: Step, users: set<User>)
    requires Ready(book, users) && WorldSized(w) && OrderlyStep(book, w, step, users) && Returns(book, w, step)
    ensures Ready(Next(book, w, step), users)
  {
    match step
    case Processed(o) => ProcessReady(book, w, o, users);
    case Failed(id) => FailReady(book, id, users);
    case Confirmed(id) => ConfirmReady(book, id, users);
  }

  // ---- Whole runs ----

  ghost predicate OrderlyRun(book: Book, w: World, steps: seq<Step>, users: set<User>)
    decreases |steps|
  {
    steps == []
    || (OrderlyStep(book, w, steps[0], users) && OrderlyRun(Next(book, w, steps[0]), w, steps[1..], users))
  }

  /** Every order and every rollback of the run gives what it takes. */
  ghost predicate ReturnsThroughout(book: Book, w: World, steps: seq<Step>, users: set<User>)
    requires OrderlyRun(book, w, steps, users)
    decreases |steps|
  {
    steps == [] || (Returns(book, w, steps[0]) && ReturnsThroughout(Next(book, w, steps[0]), w, steps[1..], users))
  }

  /** Every step of the run keeps the total of every asset. */
  ghost predicate ConservesThroughout(book: Book, w: World, steps: seq<Step>, users: set<User>)
    requires OrderlyRun(book, w, steps, users)
    decreases |steps|
  {
    steps == []
    || (SameTotals(book, Next(book, w, steps[0]), w, users) && ConservesThroughout(Next(book, w, steps[0]), w, steps[1..], users))
  }

  /** Over any run of processed, failed and confirmed orders, every step keeps the total of every
      asset exactly when no order loses its input and every rollback gives back what it takes. */
  lemma {:induction false} RunConservesExactly(book: Book, w: World, steps: seq<Step>, users: set<User>)
    requires Ready(book, users) && WorldSized(w) && OrderlyRun(book, w, steps, users)
    ensures ConservesThroughout(book, w, steps, users) <==> ReturnsThroughout(book, w, steps, users)
    decreases |steps|
  {
    if steps != [] {
      StepConservesExactly(book, w, steps[0], users);
      if Returns(book, w, steps[0]) {
        StepReady(book, w, steps[0], users);
        RunConservesExactly(Next(book, w, steps[0]), w, steps[1..], users);
      }
    }
  }

  ghost function End(book: Book, w: World, steps: seq<Step>, users: set<User>): Book
    requires OrderlyRun(book, w, steps, users)
    decreases |steps|
  {
    if steps == [] then book else End(Next(book, w, steps[0]), w, steps[1..], users)
  }

  /** Such a run ends with the totals it started with. */
  lemma {:induction false} RunConserves(book: Book, w: World, steps: seq<Step>, users: set<User>, a: Asset)
    requires Ready(book, users) && WorldSized(w) && OrderlyRun(book, w, steps, users)
    requires ReturnsThroughout(book, w, steps, users)
    ensures Total(End(book, w, steps, users), w, users, a) == Total(book, w, users, a)
    decreases |steps|
  {
    if steps != [] {
      StepConservesExactly(book, w, steps[0], users);
      StepReady(book, w, steps[0], users);
      RunConserves(Next(book, w, steps[0]), w, steps[1..], users, a);
    }
  }

  // ---- A run that breaks it ----

  const PLAIN := PoolState(DEFAULTS, FeeRates(200, 300, 0), Balances(100, 100, 100), 100, 18)
  const MARKET_WORLD := World(map[], {1, 2, 3})

  /** A user with five units of asset 1 sells them for three of asset 2, sells those for two of asset 3,
      and then the first order fails. */
  const SPENT := Book(map[(0, 1) := 5, (0, 2) := 0, (0, 3) := 0], map[1 := PLAIN, 2 := PLAIN, 3 := PLAIN], map[])
  const FIRST := Order(1, 0, 1, 2, 5, 3, false, false, Some(Market(PRICE_SCALE, 0, 5, 0)))
  const SECOND := Order(2, 0, 2, 3, 3, 2, false, false, Some(Market(PRICE_SCALE, 0, 3, 0)))

  /** A quote of a few units against balanced pools: no fees, and the output pool gives them up. */
  lemma SmallQuote(base: PoolState, quote: PoolState, x: nat)
    requires base.params == DEFAULTS && base.decimals == 18 && quote.params == DEFAULTS && quote.decimals == 18
    requires quote.fees == FeeRates(200, 300, 0) && 0 < x <= 10
    requires base.balances.reserve + x <= 2 * base.balances.liabilities <= 1000 && base.balances.slippage <= 1000
    requires x < quote.balances.reserve == quote.balances.slippage <= 1000 && quote.balances.liabilities <= 1000
    ensures var m := Market(PRICE_SCALE, 0, x, 0);
            && QuoteDefined(base, quote, m)
            && QuoteSwap(base, quote, x, m)
               == Some(SwapQuote(x, x, 0,
                                 Balances(base.balances.reserve + x, base.balances.slippage + x, base.balances.liabilities),
                                 Balances(quote.balances.reserve - x, quote.balances.slippage - x, quote.balances.liabilities),
                                 Fees(x, 0, 0, 0, 0, 0)))
  {
    var m, r := Market(PRICE_SCALE, 0, x, 0), quote.balances.reserve;
    assert Pow10(0) == 1 && Scaling(18, 18) == PRICE_SCALE;
    WrapSmall(base.balances.reserve + x);
    WrapSmall(2 * base.balances.liabilities);
    WrapSmall(base.balances.slippage + x);
    SmallFees(quote, x);
    WrapSmall(r - x);
    WrapSmall(quote.balances.liabilities);
    SmallPsi(r - x, quote.balances.liabilities);
  }

  lemma SmallFees(quote: PoolState, x: nat)
    requires quote.fees == FeeRates(200, 300, 0) && 0 < x <= 10
    ensures ComputeFees(quote, Market(PRICE_SCALE, 0, x, 0), PRICE_SCALE) == Fees(x, 0, 0, 0, 0, 0)
  {
    WrapSmall(x * PRICE_SCALE);
    Arith.DivUnique(x * PRICE_SCALE, PRICE_SCALE, x);
    SmallFee(x, 200);
    SmallFee(x, 300);
    SmallFee(x, 0);
  }

  lemma SmallFee(x: nat, rate: nat)
    requires x <= 10 && rate <= 300
    ensures Fee(x, rate) == 0
  {
    Arith.MulMono(x, rate, 300);
    WrapSmall(x * rate);
  }

  /** An order that is quoted well enough, by a user with warm and sufficient balances, is committed. */
  lemma Accepted(book: Book, w: World, o: Order, q: SwapQuote)
    requires Tradable(book, w, o) && OrderDefined(book, w, o)
    requires QuoteSwap(book.pools[o.sell], book.pools[o.buy], o.amountIn, o.market.value) == Some(q)
    requires o.minOut <= q.amountOut <= U64_MAX
    requires (o.user, o.sell) in book.balances && (o.user, o.buy) in book.balances && book.balances[(o.user, o.sell)] >= o.amountIn
    ensures ProcessOne(book, w, o) == (Commit(book, o, CreditTo(q, o.minOut)), Ok(o.minOut))
  {
    assert Hydrate(book, w, (o.user, o.sell)) == book && Hydrate(book, w, (o.user, o.buy)) == book;
  }

  const SOLD := PLAIN.(balances := Balances(105, 105, 100))
  const BOUGHT := PLAIN.(balances := Balances(97, 97, 100))
  const SWAPPED := Pending(0, 1, 2, 5, 3, PLAIN.balances, SOLD.balances, PLAIN.balances, BOUGHT.balances)
  const ONCE := Book(map[(0, 1) := 0, (0, 2) := 3, (0, 3) := 0], map[1 := SOLD, 2 := BOUGHT, 3 := PLAIN], map[1 := SWAPPED])

  const FIRST_QUOTE := SwapQuote(5, 5, 0, Balances(105, 105, 100), Balances(95, 95, 100), Fees(5, 0, 0, 0, 0, 0))
  const SECOND_QUOTE := SwapQuote(3, 3, 0, Balances(100, 100, 100), Balances(97, 97, 100), Fees(3, 0, 0, 0, 0, 0))

  lemma FirstCommit()
    ensures Commit(SPENT, FIRST, CreditTo(FIRST_QUOTE, 3)) == ONCE
  {
    assert CreditTo(FIRST_QUOTE, 3).quote == Balances(97, 97, 100);
  }

  lemma FirstProcessed()
    ensures OrderDefined(SPENT, MARKET_WORLD, FIRST) && ProcessOne(SPENT, MARKET_WORLD, FIRST).0 == ONCE
  {
    SmallQuote(PLAIN, PLAIN, 5);
    Accepted(SPENT, MARKET_WORLD, FIRST, FIRST_QUOTE);
    FirstCommit();
  }

  /** After both orders: the credit of the first is spent, its swap still pending. */
  ghost predicate CreditSpent(book: Book) {
    && book.balances == map[(0, 1) := 0, (0, 2) := 0, (0, 3) := 2]
    && book.pools == map[1 := SOLD, 2 := PLAIN, 3 := PLAIN.(balances := Balances(98, 98, 100))]
    && 1 in book.pending && book.pending[1] == SWAPPED
  }

  lemma SecondCommit()
    ensures CreditSpent(Commit(ONCE, SECOND, CreditTo(SECOND_QUOTE, 2)))
  {
    assert CreditTo(SECOND_QUOTE, 2).quote == Balances(98, 98, 100);
  }

  lemma SecondProcessed()
    ensures OrderDefined(ONCE, MARKET_WORLD, SECOND) && CreditSpent(ProcessOne(ONCE, MARKET_WORLD, SECOND).0)
  {
    SmallQuote(BOUGHT, PLAIN, 3);
    Accepted(ONCE, MARKET_WORLD, SECOND, SECOND_QUOTE);
    SecondCommit();
  }

  lemma ThenFails(book: Book)
    requires CreditSpent(book)
    ensures Total(Fail(book, 1), MARKET_WORLD, {0}, 2) == Total(book, MARKET_WORLD, {0}, 2) + 3
  {
    TotalChange(book, Fail(book, 1), MARKET_WORLD, {0}, 2, 0, 0, 3);
  }

  /** The user spends what the first order credited; its failure then returns three units to the pool
      that nobody gives up. */
  lemma SpentCreditBreaksConservation()
    ensures OrderDefined(SPENT, MARKET_WORLD, FIRST)
    ensures var once := Next(SPENT, MARKET_WORLD, Processed(FIRST));
            && OrderDefined(once, MARKET_WORLD, SECOND)
            && var twice := Next(once, MARKET_WORLD, Processed(SECOND));
               Total(Next(twice, MARKET_WORLD, Failed(1)), MARKET_WORLD, {0}, 2) == Total(twice, MARKET_WORLD, {0}, 2) + 3
  {
    FirstProcessed();
    SecondProcessed();
    ThenFails(ProcessOne(ONCE, MARKET_WORLD, SECOND).0);
  }
}
