/**
 Balance bookkeeping of a swap quote (src/curve.rs). The two curve inverses are arbitrary numbers
 supplied with the quote; everything the quote does with them is modelled, in 256-bit arithmetic.
 */
module Quote {
  import opened Basics
  import opened Arith
  import opened Words
  import opened Curve
  import opened Pool

  const FEE_PRECISION: nat := 1_000_000
  const PRICE_SCALE: nat := 1_000_000_000_000

  /** What the market supplies to one quote: the price, the volatility fee, and the two inverses. */
  datatype Market = Market(price: nat, volatilityFee: nat, effectiveIn: nat, inverseDiagonal: nat)

  datatype Fees = Fees(raw: nat, backstop: nat, protocol: nat, volatility: nat, lp: nat, maxLp: nat)

  datatype SwapQuote = SwapQuote(
    amountOut: nat, credited: nat, surplus: nat, base: Balances, quote: Balances, fees: Fees)

  /** The input pool would hold more than twice its liabilities. */
  predicate Overfull(base: PoolState, market: Market) {
    Wrap(base.balances.reserve + market.effectiveIn) > Wrap(2 * base.balances.liabilities)
  }

  function Scaling(decimalsIn: nat, decimalsOut: nat): nat {
    if decimalsIn > decimalsOut then Wrap(PRICE_SCALE * Pow10(decimalsIn - decimalsOut))
    else Quotient(PRICE_SCALE, Pow10(decimalsOut - decimalsIn))
  }

  function Fee(raw: nat, rate: nat): nat { Wrap(raw * rate) / FEE_PRECISION }

  function ComputeFees(quote: PoolState, market: Market, scaling: nat): Fees
    requires scaling > 0
  {
    var raw := Quotient(Wrap(market.effectiveIn * market.price), scaling);
    var maxLp := Fee(raw, quote.fees.swap);
    Fees(raw, Fee(raw, quote.fees.backstop), Fee(raw, quote.fees.protocol), Fee(raw, market.volatilityFee),
         Min(market.inverseDiagonal, maxLp), maxLp)
  }

  /** Reserve and liabilities of the output pool after the raw amount, the fees and the LP fee. */
  function ReducedReserve(quote: PoolState, f: Fees): nat {
    Wrap(quote.balances.reserve - f.raw + f.backstop + f.protocol + f.volatility + f.lp)
  }

  function RaisedLiabilities(quote: PoolState, f: Fees): nat { Wrap(quote.balances.liabilities + f.lp) }

  /** Every division in the quote has a positive divisor. */
  predicate QuoteDefined(base: PoolState, quote: PoolState, market: Market) {
    Overfull(base, market)
    || (var scaling := Scaling(base.decimals, quote.decimals);
        scaling > 0
        && var f := ComputeFees(quote, market, scaling);
           PsiDefined(quote.params, ReducedReserve(quote, f), RaisedLiabilities(quote, f), quote.decimals))
  }

  /** `None` is the error that the amount out exceeds the reserve. */
  function QuoteSwap(base: PoolState, quote: PoolState, amountIn: nat, market: Market): Option<SwapQuote>
    requires QuoteDefined(base, quote, market)
  {
    if Overfull(base, market) then
      Some(SwapQuote(0, 0, 0, base.balances, quote.balances, Fees(0, 0, 0, 0, 0, 0)))
    else
      var f := ComputeFees(quote, market, Scaling(base.decimals, quote.decimals));
      var reserve, liabilities := ReducedReserve(quote, f), RaisedLiabilities(quote, f);
      var after := Min(Psi(quote.params, reserve, liabilities, quote.decimals), quote.balances.slippage);
      if after <= 0 then None
      else
        var out := quote.balances.slippage - after;
        Some(SwapQuote(out, out, 0,
                       Balances(Wrap(base.balances.reserve + market.effectiveIn),
                                Wrap(base.balances.slippage + amountIn), base.balances.liabilities),
                       Balances(reserve, after, liabilities), f))
  }

  /** Credits at most the signed minimum; the output pool keeps the rest. */
  function CreditTo(q: SwapQuote, amount: nat): SwapQuote
  {
    var credited := Min(amount, q.amountOut);
    var surplus := q.amountOut - credited;
    q.(credited := credited, surplus := surplus,
       quote := q.quote.(reserve := SatAdd(q.quote.reserve, surplus), slippage := SatAdd(q.quote.slippage, surplus)))
  }

  /** A fee is its rate's share of the raw amount, rounded down. */
  lemma FeeIsFloor(raw: nat, rate: nat)
    requires raw * rate < U256_LIMIT
    ensures FEE_PRECISION * Fee(raw, rate) <= raw * rate < FEE_PRECISION * (Fee(raw, rate) + 1)
  {
    WrapSmall(raw * rate);
    DivGe(raw * rate, FEE_PRECISION, Fee(raw, rate));
    DivGe(raw * rate, FEE_PRECISION, Fee(raw, rate) + 1);
  }

  // ---- The price ----

  /** The raw amount out is the effective amount in at the price, carried from the input's decimals to
      the output's and rounded down. */
  lemma RawAmountAtPrice(base: PoolState, quote: PoolState, amountIn: nat, market: Market)
    requires QuoteDefined(base, quote, market) && !Overfull(base, market) && QuoteSwap(base, quote, amountIn, market).Some?
    requires market.effectiveIn * market.price < U256_LIMIT
    requires base.decimals > quote.decimals ==> PRICE_SCALE * Pow10(base.decimals - quote.decimals) < U256_LIMIT
    ensures var raw := QuoteSwap(base, quote, amountIn, market).value.fees.raw;
            raw * (PRICE_SCALE * Pow10(base.decimals)) <= (market.effectiveIn * market.price) * Pow10(quote.decimals)
            < (raw + 1) * (PRICE_SCALE * Pow10(base.decimals))
  {
    var scaling := Scaling(base.decimals, quote.decimals);
    var x := market.effectiveIn * market.price;
    WrapSmall(x);
    DivBounds(x, scaling);
    if base.decimals > quote.decimals {
      WrapSmall(PRICE_SCALE * Pow10(base.decimals - quote.decimals));
      Pow10Add(base.decimals - quote.decimals, quote.decimals);
      MulAssoc(PRICE_SCALE, Pow10(base.decimals - quote.decimals), Pow10(quote.decimals));
      FloorScales(x, scaling, x / scaling, Pow10(quote.decimals));
    } else {
      var k := quote.decimals - base.decimals;
      ScalingDown(k);
      Pow10Add(k, base.decimals);
      MulAssoc(scaling, Pow10(k), Pow10(base.decimals));
      FloorScales(x, scaling, x / scaling, Pow10(quote.decimals));
    }
  }

  lemma FloorScales(x: nat, p: nat, q: nat, f: nat)
    requires p * q <= x < p * q + p && f > 0
    ensures q * (p * f) <= x * f < (q + 1) * (p * f)
  {
    MulMono(f, p * q, x);
    MulMono(f, x + 1, p * q + p);
    assert q * (p * f) == f * (p * q);
    assert (q + 1) * (p * f) == f * (p * q + p);
    assert f * (x + 1) == x * f + f;
  }

  /** With more decimals on the output side the scaling is the exact quotient of the price scale: past
      twelve more it would be zero, and the quote not defined. */
  lemma ScalingDown(k: nat)
    requires Quotient(PRICE_SCALE, Pow10(k)) > 0
    ensures k <= 12 && Quotient(PRICE_SCALE, Pow10(k)) * Pow10(k) == PRICE_SCALE
  {
    assert Pow10(6) == 1_000_000;
    Pow10Add(6, 6);
    if k > 12 {
      Pow10Mono(13, k);
      DivBounds(PRICE_SCALE, Pow10(k));
      MulMono(Pow10(k), 1, Quotient(PRICE_SCALE, Pow10(k)));
    } else {
      Pow10Add(k, 12 - k);
      DivUnique(PRICE_SCALE, Pow10(k), Pow10(12 - k));
    }
  }

  /** Before crediting, the output pool is left with what the curve asks for on its new reserve and
      liabilities, or with what it had if that is less, and pays the difference. */
  lemma QuoteLeavesCurve(base: PoolState, quote: PoolState, amountIn: nat, market: Market)
    requires QuoteDefined(base, quote, market) && !Overfull(base, market)
    ensures var q := QuoteSwap(base, quote, amountIn, market);
            q.Some? ==>
              && PsiDefined(quote.params, q.value.quote.reserve, q.value.quote.liabilities, quote.decimals)
              && q.value.quote.slippage
                 == Min(Psi(quote.params, q.value.quote.reserve, q.value.quote.liabilities, quote.decimals), quote.balances.slippage)
              && 0 < q.value.quote.slippage == quote.balances.slippage - q.value.amountOut
              && q.value.credited == q.value.amountOut && q.value.surplus == 0
  {
  }

  /** Where the raw amount goes when nothing wraps: the reserve gives it up, less the three fees at
      their own rates and the LP fee, which is the curve's inverse capped at the swap rate's share and
      is also owed to LPs. */
  lemma RawAmountSplits(base: PoolState, quote: PoolState, amountIn: nat, market: Market)
    requires QuoteDefined(base, quote, market) && !Overfull(base, market) && QuoteSwap(base, quote, amountIn, market).Some?
    requires var f := QuoteSwap(base, quote, amountIn, market).value.fees;
             && f.raw * quote.fees.backstop < U256_LIMIT && f.raw * quote.fees.protocol < U256_LIMIT
             && f.raw * market.volatilityFee < U256_LIMIT && f.raw * quote.fees.swap < U256_LIMIT
             && f.raw <= quote.balances.reserve
             && quote.balances.reserve + f.backstop + f.protocol + f.volatility + f.lp < U256_LIMIT
    ensures var q := QuoteSwap(base, quote, amountIn, market).value; var f := q.fees;
            && q.quote.reserve + f.raw == quote.balances.reserve + f.backstop + f.protocol + f.volatility + f.lp
            && FEE_PRECISION * f.backstop <= f.raw * quote.fees.backstop < FEE_PRECISION * (f.backstop + 1)
            && FEE_PRECISION * f.protocol <= f.raw * quote.fees.protocol < FEE_PRECISION * (f.protocol + 1)
            && FEE_PRECISION * f.volatility <= f.raw * market.volatilityFee < FEE_PRECISION * (f.volatility + 1)
            && FEE_PRECISION * f.lp <= f.raw * quote.fees.swap && f.lp <= market.inverseDiagonal
            && (f.lp == market.inverseDiagonal || f.raw * quote.fees.swap < FEE_PRECISION * (f.lp + 1))
  {
    var f := QuoteSwap(base, quote, amountIn, market).value.fees;
    FeeIsFloor(f.raw, quote.fees.backstop);
    FeeIsFloor(f.raw, quote.fees.protocol);
    FeeIsFloor(f.raw, market.volatilityFee);
    FeeIsFloor(f.raw, quote.fees.swap);
    WrapSmall(quote.balances.reserve - f.raw + f.backstop + f.protocol + f.volatility + f.lp);
  }

  /** What a credited quote moves: the input pool takes exactly what the user pays and its reserve the
      effective amount, unless it was overfull and takes nothing; the output pool gives exactly what the
      user gets, at most the minimum, stays positive, and never loses liabilities. */
  lemma CreditedQuoteBalances(base: PoolState, quote: PoolState, amountIn: nat, market: Market, amount: nat)
    requires QuoteDefined(base, quote, market) && QuoteSwap(base, quote, amountIn, market).Some?
    requires base.balances.slippage + amountIn < U256_LIMIT && quote.balances.slippage < U256_LIMIT
    ensures var q := CreditTo(QuoteSwap(base, quote, amountIn, market).value, amount);
            && q.credited == Min(amount, q.amountOut) && q.credited + q.surplus == q.amountOut <= quote.balances.slippage
            && (Overfull(base, market) ==> q.base == base.balances && q.amountOut == 0)
            && (!Overfull(base, market) && base.balances.reserve + market.effectiveIn < U256_LIMIT ==>
                  q.base.reserve == base.balances.reserve + market.effectiveIn)
            && (var raw := QuoteSwap(base, quote, amountIn, market).value.quote.reserve;
                raw + q.surplus < U256_LIMIT ==> q.quote.reserve == raw + q.surplus)
            && q.quote.slippage + q.credited == quote.balances.slippage
            && q.base.slippage == base.balances.slippage + (if Overfull(base, market) then 0 else amountIn)
            && q.base.liabilities == base.balances.liabilities
            && (!Overfull(base, market) ==> q.quote.slippage > 0)
            && (quote.balances.liabilities + q.fees.lp < U256_LIMIT ==>
                  q.quote.liabilities == quote.balances.liabilities + q.fees.lp)
  {
    WrapSmall(base.balances.slippage + amountIn);
    if base.balances.reserve + market.effectiveIn < U256_LIMIT { WrapSmall(base.balances.reserve + market.effectiveIn); }
    var q := QuoteSwap(base, quote, amountIn, market).value;
    if quote.balances.liabilities + q.fees.lp < U256_LIMIT { WrapSmall(quote.balances.liabilities + q.fees.lp); }
  }

  /** The input pool takes the effective amount in exactly while that leaves it at most twice its
      liabilities; otherwise nothing is quoted and both pools stay as they are. */
  lemma InputPoolCapped(base: PoolState, quote: PoolState, amountIn: nat, market: Market)
    requires QuoteDefined(base, quote, market) && QuoteSwap(base, quote, amountIn, market).Some?
    requires base.balances.reserve + market.effectiveIn < U256_LIMIT && 2 * base.balances.liabilities < U256_LIMIT
    ensures var q, taken := QuoteSwap(base, quote, amountIn, market).value, base.balances.reserve + market.effectiveIn;
            if taken <= 2 * base.balances.liabilities then q.base.reserve == taken
            else q.amountOut == 0 && q.base == base.balances && q.quote == quote.balances
  {
    WrapSmall(base.balances.reserve + market.effectiveIn);
    WrapSmall(2 * base.balances.liabilities);
  }

  /** Committing a quote is a swap event for both pools: the input pool's carries no LP fee, the
      output pool's carries the quote's. */
  lemma CommittedSwapIsEvent(base: PoolState, quote: PoolState, amountIn: nat, market: Market, amount: nat)
    requires QuoteDefined(base, quote, market) && QuoteSwap(base, quote, amountIn, market).Some?
    requires base.balances.liabilities < U256_LIMIT
    requires quote.balances.liabilities + QuoteSwap(base, quote, amountIn, market).value.fees.lp < U256_LIMIT
    ensures var q := CreditTo(QuoteSwap(base, quote, amountIn, market).value, amount);
            var sold, bought := SwapOf(q.base.reserve, q.base.slippage, 0), SwapOf(q.quote.reserve, q.quote.slippage, q.fees.lp);
            && Admissible(base, sold) && After(base, sold) == base.(balances := q.base)
            && Admissible(quote, bought) && After(quote, bought) == quote.(balances := q.quote)
  {
    WrapSmall(base.balances.liabilities);
    WrapSmall(quote.balances.liabilities + QuoteSwap(base, quote, amountIn, market).value.fees.lp);
  }

  /** So a committed swap lowers liabilities per share of neither pool. */
  lemma CommittedSwapNotDiluting(base: PoolState, quote: PoolState, amountIn: nat, market: Market, amount: nat)
    requires QuoteDefined(base, quote, market) && QuoteSwap(base, quote, amountIn, market).Some?
    requires base.balances.liabilities < U256_LIMIT
    requires quote.balances.liabilities + QuoteSwap(base, quote, amountIn, market).value.fees.lp < U256_LIMIT
    ensures var q := CreditTo(QuoteSwap(base, quote, amountIn, market).value, amount);
            && NotDiluted(base.balances.liabilities, base.supply, q.base.liabilities, base.supply)
            && NotDiluted(quote.balances.liabilities, quote.supply, q.quote.liabilities, quote.supply)
  {
    var q := CreditTo(QuoteSwap(base, quote, amountIn, market).value, amount);
    CommittedSwapIsEvent(base, quote, amountIn, market, amount);
    EventNotDiluting(base, SwapOf(q.base.reserve, q.base.slippage, 0));
    EventNotDiluting(quote, SwapOf(q.quote.reserve, q.quote.slippage, q.fees.lp));
  }
}
