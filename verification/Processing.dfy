/**
 Quoting a batch against the balance mirror and the pools (src/processing.rs), with the pending swaps
 that a later failure rolls back. Opening balances on the chain are a parameter: a cold miss loads
 one into the mirror.
 */
module Processing {
  import opened Basics
  import opened Words
  import opened Sums
  import opened Curve
  import opened Pool
  import opened Quote

  type User = nat
  type Asset = nat
  type OrderId = nat
  type Key = (User, Asset)

  datatype Order = Order(
    id: OrderId, user: User, sell: Asset, buy: Asset, amountIn: nat, minOut: nat,
    stale: bool, expired: bool, market: Option<Market>)

  datatype Pending = Pending(
    user: User, sell: Asset, buy: Asset, amountIn: nat, amountOut: nat,
    sellBefore: Balances, sellAfter: Balances, buyBefore: Balances, buyAfter: Balances)

  datatype Book = Book(balances: map<Key, nat>, pools: map<Asset, PoolState>, pending: map<OrderId, Pending>)

  datatype Failure = StaleQueue | Expired | ExecutionError | MinOutNotMet | InsufficientBalance

  /** The chain's opening balances, and which assets are listed. A missing entry is a failed fetch. */
  datatype World = World(chain: map<Key, nat>, listed: set<Asset>)

  // ---- Balances ----

  predicate Known(book: Book, w: World, key: Key) {
    key in book.balances || (key.1 in w.listed && key in w.chain)
  }

  function BalanceOf(book: Book, w: World, key: Key): nat
    requires Known(book, w, key)
  {
    if key in book.balances then book.balances[key] else w.chain[key]
  }

  /** A warm entry is left alone; a cold miss loads the chain's balance. */
  function Hydrate(book: Book, w: World, key: Key): Book
    requires Known(book, w, key)
  {
    book.(balances := book.balances[key := BalanceOf(book, w, key)])
  }

  // ---- One order ----

  predicate Tradable(book: Book, w: World, o: Order) {
    && !o.stale && !o.expired
    && o.sell != o.buy && o.sell in w.listed && o.buy in w.listed
    && o.sell in book.pools && o.buy in book.pools && o.market.Some?
  }

  predicate OrderDefined(book: Book, w: World, o: Order) {
    Tradable(book, w, o) ==> QuoteDefined(book.pools[o.sell], book.pools[o.buy], o.market.value)
  }

  /** The quote credited to the signed minimum. */
  function Priced(book: Book, w: World, o: Order): Option<SwapQuote>
    requires Tradable(book, w, o) && OrderDefined(book, w, o)
  {
    var q := QuoteSwap(book.pools[o.sell], book.pools[o.buy], o.amountIn, o.market.value);
    if q.None? then None else Some(CreditTo(q.value, o.minOut))
  }

  function Commit(book: Book, o: Order, q: SwapQuote): Book
    requires o.sell in book.pools && o.buy in book.pools
    requires (o.user, o.sell) in book.balances && (o.user, o.buy) in book.balances
    requires book.balances[(o.user, o.sell)] >= o.amountIn
  {
    var sellPool, buyPool := book.pools[o.sell], book.pools[o.buy];
    var out := ToU64(q.credited);
    var balances := book.balances[(o.user, o.sell) := book.balances[(o.user, o.sell)] - o.amountIn];
    Book(balances[(o.user, o.buy) := ToU64(book.balances[(o.user, o.buy)] + out)],
         book.pools[o.sell := sellPool.(balances := q.base)][o.buy := buyPool.(balances := q.quote)],
         book.pending[o.id := Pending(o.user, o.sell, o.buy, o.amountIn, out,
                                      sellPool.balances, q.base, buyPool.balances, q.quote)])
  }

  function ProcessOne(book: Book, w: World, o: Order): (Book, Result<nat, Failure>)
    requires OrderDefined(book, w, o)
  {
    if o.stale then (book, Err(StaleQueue))
    else if o.expired then (book, Err(Expired))
    else if !Tradable(book, w, o) then (book, Err(ExecutionError))
    else
      var q := Priced(book, w, o);
      if q.None? then (book, Err(ExecutionError))
      else if ToU64(q.value.amountOut) < o.minOut then (book, Err(MinOutNotMet))
      else if !Known(book, w, (o.user, o.sell)) then (book, Err(ExecutionError))
      else
        var sold := Hydrate(book, w, (o.user, o.sell));
        if sold.balances[(o.user, o.sell)] < o.amountIn then (sold, Err(InsufficientBalance))
        else if !Known(sold, w, (o.user, o.buy)) then (sold, Err(ExecutionError))
        else (Commit(Hydrate(sold, w, (o.user, o.buy)), o, q.value), Ok(ToU64(q.value.credited)))
  }

  // ---- Batches ----

  predicate BatchDefined(book: Book, w: World, orders: seq<Order>)
    decreases |orders|, 0
  {
    |orders| == 0
    || (var n := |orders| - 1;
        BatchDefined(book, w, orders[..n]) && OrderDefined(ProcessAll(book, w, orders[..n]), w, orders[n]))
  }

  function ProcessAll(book: Book, w: World, orders: seq<Order>): Book
    requires BatchDefined(book, w, orders)
    decreases |orders|, 1
  {
    if |orders| == 0 then book
    else
      var n := |orders| - 1;
      ProcessOne(ProcessAll(book, w, orders[..n]), w, orders[n]).0
  }

  // ---- Conservation ----

  /** A user's balance as the program would see it: the mirror, else the chain, else nothing. */
  function Effective(book: Book, w: World, key: Key): nat {
    if Known(book, w, key) then BalanceOf(book, w, key) else 0
  }

  /** All of one asset: what the users hold and what the pool holds for them. */
  ghost function Total(book: Book, w: World, users: set<User>, a: Asset): int {
    SumOver(users, (u: User) => Effective(book, w, (u, a)))
    + (if a in book.pools then book.pools[a].balances.slippage else 0)
  }

  /** Nothing saturates when the order is committed. */
  predicate Roomy(book: Book, w: World, o: Order) {
    && (o.sell in book.pools ==> book.pools[o.sell].balances.slippage + o.amountIn < U256_LIMIT)
    && (o.buy in book.pools ==> book.pools[o.buy].balances.slippage < U256_LIMIT)
    && o.minOut <= U64_MAX
    && Effective(book, w, (o.user, o.buy)) + o.minOut <= U64_MAX
  }

  lemma TotalSame(book: Book, next: Book, w: World, users: set<User>, a: Asset)
    requires forall u | u in users :: Effective(next, w, (u, a)) == Effective(book, w, (u, a))
    requires next.pools == book.pools
    ensures Total(next, w, users, a) == Total(book, w, users, a)
  {
    SumSame(users, (u: User) => Effective(book, w, (u, a)), (u: User) => Effective(next, w, (u, a)));
  }

  /** A user's balance of one asset changes by `paid`, the pool's by `kept`. */
  lemma TotalChange(book: Book, next: Book, w: World, users: set<User>, a: Asset, user: User, paid: int, kept: int)
    requires user in users && a in book.pools && a in next.pools
    requires forall u | u in users && u != user :: Effective(next, w, (u, a)) == Effective(book, w, (u, a))
    requires Effective(next, w, (user, a)) == Effective(book, w, (user, a)) + paid
    requires next.pools[a].balances.slippage == book.pools[a].balances.slippage + kept
    ensures Total(next, w, users, a) == Total(book, w, users, a) + paid + kept
  {
    SumChange(users, (u: User) => Effective(book, w, (u, a)), (u: User) => Effective(next, w, (u, a)), user);
  }

  /** The user pays the amount in, of which the input pool keeps `kept`, and gets `got` of the
      bought asset from its pool; nothing else moves. */
  ghost predicate Moves(book: Book, next: Book, w: World, o: Order, kept: nat, got: nat) {
    && o.sell != o.buy && o.sell in book.pools && o.buy in book.pools && next.pools.Keys == book.pools.Keys
    && Effective(next, w, (o.user, o.sell)) == Effective(book, w, (o.user, o.sell)) - o.amountIn
    && Effective(next, w, (o.user, o.buy)) == Effective(book, w, (o.user, o.buy)) + got
    && (forall key | key != (o.user, o.sell) && key != (o.user, o.buy) ::
          Effective(next, w, key) == Effective(book, w, key))
    && next.pools[o.sell].balances.slippage == book.pools[o.sell].balances.slippage + kept
    && next.pools[o.buy].balances.slippage == book.pools[o.buy].balances.slippage - got
    && (forall a | a in book.pools && a != o.sell && a != o.buy :: next.pools[a] == book.pools[a])
  }

  /** The order is not stale or expired, trades two different listed assets that have pools, and the market
      quotes it. */
  predicate Quotable(book: Book, w: World, o: Order) {
    !o.stale && !o.expired && o.sell != o.buy && {o.sell, o.buy} <= w.listed * book.pools.Keys && o.market != None
  }

  /** A quotable order is processed exactly when its quote pays the minimum and its user has the
      balance; each refusal has its one cause. A balance once looked at is in the mirror, so that the
      chain is not asked again. */
  lemma AcceptedExactly(book: Book, w: World, o: Order)
    requires OrderDefined(book, w, o) && Quotable(book, w, o) && book.pools[o.buy].balances.slippage <= U64_MAX
    ensures var q, r := QuoteSwap(book.pools[o.sell], book.pools[o.buy], o.amountIn, o.market.value), ProcessOne(book, w, o).1;
            var payable := q.Some? && q.value.amountOut >= o.minOut && Known(book, w, (o.user, o.sell));
            && (r == Err(MinOutNotMet) <==> q.Some? && q.value.amountOut < o.minOut)
            && (r == Err(InsufficientBalance) <==> payable && BalanceOf(book, w, (o.user, o.sell)) < o.amountIn)
            && (r.Ok? <==> payable && BalanceOf(book, w, (o.user, o.sell)) >= o.amountIn && Known(book, w, (o.user, o.buy)))
            && r != Err(StaleQueue) && r != Err(Expired)
            && (payable ==> (o.user, o.sell) in ProcessOne(book, w, o).0.balances)
  {
    AmountWithin(book.pools[o.sell], book.pools[o.buy], o.amountIn, o.market.value);
  }

  /** Any other order is refused before it is priced, a stale one first. */
  lemma RefusedUnpriced(book: Book, w: World, o: Order)
    requires OrderDefined(book, w, o) && !Quotable(book, w, o)
    ensures ProcessOne(book, w, o) == (book, Err(if o.stale then StaleQueue else if o.expired then Expired else ExecutionError))
  {
  }

  lemma AmountWithin(base: PoolState, quote: PoolState, amountIn: nat, market: Market)
    requires QuoteDefined(base, quote, market)
    ensures var q := QuoteSwap(base, quote, amountIn, market); q.Some? ==> q.value.amountOut <= quote.balances.slippage
  {
  }

  /** A processed order gives the user exactly the signed minimum; the input pool keeps all the user
      pays unless it is overfull, and the output pool is not emptied. */
  lemma ProcessedEffects(book: Book, w: World, o: Order)
    requires OrderDefined(book, w, o) && Roomy(book, w, o) && ProcessOne(book, w, o).1.Ok?
    ensures Tradable(book, w, o) && ProcessOne(book, w, o).1.value == o.minOut
    ensures var next := ProcessOne(book, w, o).0; var full := Overfull(book.pools[o.sell], o.market.value);
            && Moves(book, next, w, o, if full then 0 else o.amountIn, o.minOut)
            && (full ==> o.minOut == 0) && (!full ==> next.pools[o.buy].balances.slippage > 0)
  {
    CreditedQuoteBalances(book.pools[o.sell], book.pools[o.buy], o.amountIn, o.market.value, o.minOut);
    CommitMoves(book, w, o, Priced(book, w, o).value, if Overfull(book.pools[o.sell], o.market.value) then 0 else o.amountIn);
  }

  /** Committing a quote that credits the minimum moves what it says. */
  lemma CommitMoves(book: Book, w: World, o: Order, q: SwapQuote, kept: nat)
    requires o.sell in book.pools && o.buy in book.pools && o.sell != o.buy
    requires Known(book, w, (o.user, o.sell)) && Known(book, w, (o.user, o.buy))
    requires BalanceOf(book, w, (o.user, o.sell)) >= o.amountIn && BalanceOf(book, w, (o.user, o.buy)) + o.minOut <= U64_MAX
    requires q.credited == o.minOut && q.base.slippage == book.pools[o.sell].balances.slippage + kept
    requires q.quote.slippage + o.minOut == book.pools[o.buy].balances.slippage
    ensures var warm := Hydrate(Hydrate(book, w, (o.user, o.sell)), w, (o.user, o.buy));
            Moves(book, Commit(warm, o, q), w, o, kept, o.minOut)
  {
  }

  /** Only the part of the payment that the input pool does not keep is missing from a total. */
  lemma MovesTotals(book: Book, next: Book, w: World, o: Order, kept: nat, got: nat, users: set<User>, a: Asset)
    requires Moves(book, next, w, o, kept, got) && o.user in users
    ensures Total(next, w, users, a) == Total(book, w, users, a) + if a == o.sell then kept - o.amountIn else 0
  {
    if a == o.sell {
      TotalChange(book, next, w, users, a, o.user, 0 - o.amountIn, kept);
    } else if a == o.buy {
      TotalChange(book, next, w, users, a, o.user, got, 0 - got);
    } else {
      OtherAsset(book, next, w, users, a);
    }
  }

  /** The one way tokens are lost: an overfull input pool keeps nothing of what the user pays, and a
      zero minimum lets the order through. */
  predicate LosesInput(book: Book, w: World, o: Order) {
    && Tradable(book, w, o) && Overfull(book.pools[o.sell], o.market.value) && o.minOut == 0 && o.amountIn > 0
    && Known(book, w, (o.user, o.sell)) && BalanceOf(book, w, (o.user, o.sell)) >= o.amountIn
    && Known(book, w, (o.user, o.buy))
  }

  /** Such an order is processed, and no other order into an overfull pool is that pays anything. */
  lemma LosesInputProcessed(book: Book, w: World, o: Order)
    requires OrderDefined(book, w, o)
    ensures LosesInput(book, w, o)
            <==> ProcessOne(book, w, o).1.Ok? && Overfull(book.pools[o.sell], o.market.value) && o.amountIn > 0
  {
  }

  /** An order keeps the total of every asset, exactly unless it loses its input. */
  lemma OrderConservesExactly(book: Book, w: World, o: Order, users: set<User>, a: Asset)
    requires OrderDefined(book, w, o) && Roomy(book, w, o) && o.user in users
    ensures Total(ProcessOne(book, w, o).0, w, users, a) == Total(book, w, users, a)
            <==> !(LosesInput(book, w, o) && a == o.sell)
  {
    var (next, r) := ProcessOne(book, w, o);
    LosesInputProcessed(book, w, o);
    if r.Err? {
      RejectedUnchanged(book, w, o, users, a);
    } else {
      ProcessedEffects(book, w, o);
      MovesTotals(book, next, w, o, if Overfull(book.pools[o.sell], o.market.value) then 0 else o.amountIn, o.minOut, users, a);
    }
  }

  const OVERFULL_POOL := PoolState(DEFAULTS, FeeRates(200, 300, 0), Balances(10, 10, 1), 1, 18)
  const OVERFULL_BOOK := Book(map[(0, 1) := 5, (0, 2) := 0], map[1 := OVERFULL_POOL, 2 := OVERFULL_POOL], map[])
  const OVERFULL_ORDER := Order(9, 0, 1, 2, 5, 0, false, false, Some(Market(PRICE_SCALE, 0, 5, 0)))

  const OVERFULL_WORLD := World(map[], {1, 2})

  lemma OverfullProcessed()
    ensures OrderDefined(OVERFULL_BOOK, OVERFULL_WORLD, OVERFULL_ORDER) && Roomy(OVERFULL_BOOK, OVERFULL_WORLD, OVERFULL_ORDER)
    ensures LosesInput(OVERFULL_BOOK, OVERFULL_WORLD, OVERFULL_ORDER)
  {
    assert Wrap(10 + 5) > Wrap(2 * 1);
  }

  /** A user pays five units into an overfull pool and nobody receives them. */
  lemma OverfullLosesInput()
    ensures OrderDefined(OVERFULL_BOOK, OVERFULL_WORLD, OVERFULL_ORDER) && Roomy(OVERFULL_BOOK, OVERFULL_WORLD, OVERFULL_ORDER)
    ensures Total(ProcessOne(OVERFULL_BOOK, OVERFULL_WORLD, OVERFULL_ORDER).0, OVERFULL_WORLD, {0}, 1)
            == Total(OVERFULL_BOOK, OVERFULL_WORLD, {0}, 1) - 5
  {
    OverfullProcessed();
    LossIsTotal(OVERFULL_BOOK, OVERFULL_WORLD, OVERFULL_ORDER, {0});
  }

  /** What is lost is all that the user pays. */
  lemma LossIsTotal(book: Book, w: World, o: Order, users: set<User>)
    requires OrderDefined(book, w, o) && Roomy(book, w, o) && o.user in users && LosesInput(book, w, o)
    ensures Total(ProcessOne(book, w, o).0, w, users, o.sell) == Total(book, w, users, o.sell) - o.amountIn
  {
    LosesInputProcessed(book, w, o);
    ProcessedEffects(book, w, o);
    MovesTotals(book, ProcessOne(book, w, o).0, w, o, 0, o.minOut, users, o.sell);
  }

  lemma OtherAsset(book: Book, next: Book, w: World, users: set<User>, a: Asset)
    requires forall u | u in users :: Effective(next, w, (u, a)) == Effective(book, w, (u, a))
    requires a in next.pools <==> a in book.pools
    requires a in book.pools ==> next.pools[a] == book.pools[a]
    ensures Total(next, w, users, a) == Total(book, w, users, a)
  {
    SumSame(users, (u: User) => Effective(book, w, (u, a)), (u: User) => Effective(next, w, (u, a)));
  }

  /** A rejected order changes nothing but the warmth of the mirror. */
  lemma RejectedUnchanged(book: Book, w: World, o: Order, users: set<User>, a: Asset)
    requires OrderDefined(book, w, o) && ProcessOne(book, w, o).1.Err?
    ensures var next := ProcessOne(book, w, o).0;
            && next.pools == book.pools && next.pending == book.pending
            && (forall key :: Effective(next, w, key) == Effective(book, w, key))
            && Total(next, w, users, a) == Total(book, w, users, a)
  {
    var next := ProcessOne(book, w, o).0;
    TotalSame(book, next, w, users, a);
  }

  /** Every order has a positive minimum, a user in `users`, and room when its turn comes. */
  ghost predicate Orderly(book: Book, w: World, orders: seq<Order>, users: set<User>)
    requires BatchDefined(book, w, orders)
    decreases |orders|
  {
    |orders| == 0
    || (var n := |orders| - 1;
        && Orderly(book, w, orders[..n], users)
        && orders[n].minOut > 0 && orders[n].user in users && Roomy(ProcessAll(book, w, orders[..n]), w, orders[n]))
  }

  /** A whole batch keeps the total of every asset. */
  lemma {:induction false} BatchConserves(book: Book, w: World, orders: seq<Order>, users: set<User>, a: Asset)
    requires BatchDefined(book, w, orders) && Orderly(book, w, orders, users)
    ensures Total(ProcessAll(book, w, orders), w, users, a) == Total(book, w, users, a)
    decreases |orders|
  {
    if |orders| > 0 {
      var n := |orders| - 1;
      BatchConserves(book, w, orders[..n], users, a);
      OrderConservesExactly(ProcessAll(book, w, orders[..n]), w, orders[n], users, a);
    }
  }

  // ---- Undoing and re-applying a swap ----

  function RevertWord(current: nat, before: nat, after: nat): nat {
    if after >= before then SatSub(current, after - before) else SatAdd(current, before - after)
  }

  function RevertBalances(current: Balances, before: Balances, after: Balances): Balances {
    Balances(RevertWord(current.reserve, before.reserve, after.reserve),
             RevertWord(current.slippage, before.slippage, after.slippage),
             RevertWord(current.liabilities, before.liabilities, after.liabilities))
  }

  function RevertPool(pools: map<Asset, PoolState>, a: Asset, before: Balances, after: Balances): map<Asset, PoolState> {
    if a in pools then pools[a := pools[a].(balances := RevertBalances(pools[a].balances, before, after))] else pools
  }

  function RollbackSwap(book: Book, p: Pending): Book {
    var pools := RevertPool(RevertPool(book.pools, p.sell, p.sellBefore, p.sellAfter), p.buy, p.buyBefore, p.buyAfter);
    var refunded := if (p.user, p.sell) in book.balances
                    then book.balances[(p.user, p.sell) := ToU64(book.balances[(p.user, p.sell)] + p.amountIn)]
                    else book.balances;
    var debited := if (p.user, p.buy) in refunded
                   then refunded[(p.user, p.buy) := SatSub(refunded[(p.user, p.buy)], p.amountOut)]
                   else refunded;
    book.(pools := pools, balances := debited)
  }

  /** Re-applies a stored swap's pool balances; user balances are left alone. */
  function ApplySwap(book: Book, p: Pending): Book {
    book.(pools := RevertPool(RevertPool(book.pools, p.sell, p.sellAfter, p.sellBefore), p.buy, p.buyAfter, p.buyBefore))
  }

  /** What the processor does when it hears that an order failed. */
  function Fail(book: Book, id: OrderId): Book {
    if id in book.pending then RollbackSwap(book.(pending := book.pending - {id}), book.pending[id]) else book
  }

  /** What the processor does when it hears that an order was confirmed. */
  function Confirm(book: Book, id: OrderId): Book { book.(pending := book.pending - {id}) }

  // ---- The processor as an object ----

  class Processor {
    var balances: map<Key, nat>
    var pools: map<Asset, PoolState>
    var pending: map<OrderId, Pending>

    function Value(): Book
      reads this
    {
      Book(balances, pools, pending)
    }

    method Balance(w: World, key: Key) returns (balance: Option<nat>)
      modifies this`balances
      ensures balance.Some? <==> key in old(balances) || (key.1 in w.listed && key in w.chain)
      ensures balance.Some? ==> balance.value == BalanceOf(old(Value()), w, key) && Value() == Hydrate(old(Value()), w, key)
      ensures balance.None? ==> Value() == old(Value())
    {
      if key in balances {
        assert balances == balances[key := balances[key]];
        return Some(balances[key]);
      }
      if key.1 !in w.listed || key !in w.chain { return None; }
      balances := balances[key := w.chain[key]];
      balance := Some(w.chain[key]);
    }

    method ProcessOrder(w: World, o: Order) returns (r: Result<nat, Failure>)
      requires OrderDefined(Value(), w, o)
      modifies this
      ensures (Value(), r) == ProcessOne(old(Value()), w, o)
    {
      if o.stale { return Err(StaleQueue); }
      if o.expired { return Err(Expired); }
      if o.sell == o.buy || o.sell !in w.listed || o.buy !in w.listed { return Err(ExecutionError); }
      if o.sell !in pools || o.buy !in pools || o.market.None? { return Err(ExecutionError); }
      var quoted := QuoteSwap(pools[o.sell], pools[o.buy], o.amountIn, o.market.value);
      if quoted.None? { return Err(ExecutionError); }
      if ToU64(quoted.value.amountOut) < o.minOut { return Err(MinOutNotMet); }
      var q := CreditTo(quoted.value, o.minOut);
      var sellBalance := Balance(w, (o.user, o.sell));
      if sellBalance.None? { return Err(ExecutionError); }
      if sellBalance.value < o.amountIn { return Err(InsufficientBalance); }
      var buyBalance := Balance(w, (o.user, o.buy));
      if buyBalance.None? { return Err(ExecutionError); }
      CommitSwap(o, q);
      r := Ok(ToU64(q.credited));
    }

    method CommitSwap(o: Order, q: SwapQuote)
      requires o.sell in pools && o.buy in pools && o.sell != o.buy
      requires (o.user, o.sell) in balances && (o.user, o.buy) in balances && balances[(o.user, o.sell)] >= o.amountIn
      modifies this
      ensures Value() == Commit(old(Value()), o, q)
    {
      var sellBefore, buyBefore := pools[o.sell].balances, pools[o.buy].balances;
      var out := ToU64(q.credited);
      balances := balances[(o.user, o.sell) := balances[(o.user, o.sell)] - o.amountIn];
      balances := balances[(o.user, o.buy) := ToU64(balances[(o.user, o.buy)] + out)];
      pools := pools[o.sell := pools[o.sell].(balances := q.base)];
      pools := pools[o.buy := pools[o.buy].(balances := q.quote)];
      pending := pending[o.id := Pending(o.user, o.sell, o.buy, o.amountIn, out, sellBefore, q.base, buyBefore, q.quote)];
    }

    method ProcessOrders(w: World, orders: seq<Order>)
      requires BatchDefined(Value(), w, orders)
      modifies this
      ensures Value() == ProcessAll(old(Value()), w, orders)
    {
      ghost var start := Value();
      for i := 0 to |orders|
        invariant BatchDefined(start, w, orders[..i]) && Value() == ProcessAll(start, w, orders[..i])
      {
        PrefixDefined(start, w, orders, i + 1);
        assert orders[..i + 1][..i] == orders[..i];
        var _ := ProcessOrder(w, orders[i]);
      }
      assert orders[..|orders|] == orders;
    }

    method RevertPoolBalances(a: Asset, before: Balances, after: Balances)
      modifies this`pools
      ensures pools == RevertPool(old(pools), a, before, after)
    {
      if a in pools {
        pools := pools[a := pools[a].(balances := RevertBalances(pools[a].balances, before, after))];
      }
    }

    /** The swap row of a rolled-back order is then marked failed in the execution store. */
    method OnFailed(id: OrderId) returns (failSwap: bool)
      modifies this
      ensures Value() == Fail(old(Value()), id)
      ensures failSwap <==> id in old(pending)
    {
      failSwap := id in pending;
      if !failSwap { return; }
      var p := pending[id];
      pending := pending - {id};
      RevertPoolBalances(p.sell, p.sellBefore, p.sellAfter);
      RevertPoolBalances(p.buy, p.buyBefore, p.buyAfter);
      if (p.user, p.sell) in balances {
        balances := balances[(p.user, p.sell) := ToU64(balances[(p.user, p.sell)] + p.amountIn)];
      }
      if (p.user, p.buy) in balances {
        balances := balances[(p.user, p.buy) := SatSub(balances[(p.user, p.buy)], p.amountOut)];
      }
    }

    /** A confirmed order leaves the pools as they are; one whose swap is no longer in memory has its
        stored swap applied again. */
    method OnConfirmed(id: OrderId, stored: Option<Pending>)
      modifies this
      ensures id in old(pending) ==> Value() == Confirm(old(Value()), id)
      ensures id !in old(pending) ==>
                Value() == if stored.Some? then ApplySwap(old(Value()), stored.value) else old(Value())
    {
      if id in pending {
        pending := pending - {id};
      } else if stored.Some? {
        var p := stored.value;
        RevertPoolBalances(p.sell, p.sellAfter, p.sellBefore);
        RevertPoolBalances(p.buy, p.buyAfter, p.buyBefore);
      }
    }
  }

  lemma {:induction false} PrefixDefined(book: Book, w: World, orders: seq<Order>, i: nat)
    requires BatchDefined(book, w, orders) && i <= |orders|
    ensures BatchDefined(book, w, orders[..i])
    decreases |orders|
  {
    if i < |orders| {
      var n := |orders| - 1;
      PrefixDefined(book, w, orders[..n], i);
      assert orders[..n][..i] == orders[..i];
    } else {
      assert orders[..i] == orders;
    }
  }
}
