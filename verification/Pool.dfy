/**
 Liquidity-pool shares (src/pool.rs): what a deposit mints, what a withdrawal pays, and the search
 for the shares a confirmed withdrawal costs (src/processing.rs). The exact value of the curve's
 inverse is a parameter: nothing here depends on it.
 */
module Pool {
  import opened Basics
  import opened Arith
  import opened Words
  import opened Curve

  datatype Balances = Balances(reserve: nat, slippage: nat, liabilities: nat)

  /** Fee rates in parts per million. */
  datatype FeeRates = FeeRates(swap: nat, backstop: nat, protocol: nat)

  datatype PoolState = PoolState(params: Params, fees: FeeRates, balances: Balances, supply: nat, decimals: nat)

  // ---- Deposits ----

  /** The value the reserve grows by: the curve's inverse, but never less than the deposit. */
  function Increment(inverse: nat, deposit: nat): nat { Max(inverse, deposit) }

  function MintedShares(pool: PoolState, inverse: nat, deposit: nat): nat {
    var increment, b := Increment(inverse, deposit), pool.balances;
    if b.liabilities > 0 then Quotient(Wrap(increment * pool.supply), b.liabilities) else increment
  }

  function Deposit(pool: PoolState, inverse: nat, deposit: nat): (nat, nat, Balances) {
    var increment, b, minted := Increment(inverse, deposit), pool.balances, MintedShares(pool, inverse, deposit);
    (minted,
     ToU64(SatAdd(pool.supply, minted)),
     Balances(Wrap(b.reserve + increment), Wrap(b.slippage + deposit), Wrap(b.liabilities + increment)))
  }

  // ---- Withdrawals ----

  function Decrement(pool: PoolState, shares: nat): nat {
    if pool.supply == 0 then 0 else Quotient(Wrap(shares * pool.balances.liabilities), pool.supply)
  }

  predicate WithdrawDefined(pool: PoolState, shares: nat) {
    var d, b := Decrement(pool, shares), pool.balances;
    PsiDefined(pool.params, Wrap(b.reserve - d), Wrap(b.liabilities - d), pool.decimals)
  }

  /** The slippage reserve the curve asks for after the withdrawal. */
  function PsiAfter(pool: PoolState, shares: nat): nat
    requires WithdrawDefined(pool, shares)
  {
    var d, b := Decrement(pool, shares), pool.balances;
    Psi(pool.params, Wrap(b.reserve - d), Wrap(b.liabilities - d), pool.decimals)
  }

  /** What the slippage reserve gives up, but never more than the decrement. */
  function NetPayout(slippage: nat, psi: nat, d: nat): nat { Min(slippage - Min(psi, slippage), d) }

  /** Payout, supply and balances after `shares` are burned for a decrement `d`. */
  function Redeem(pool: PoolState, shares: nat, d: nat, psi: nat): (nat, nat, Balances) {
    var b := pool.balances;
    var payout := NetPayout(b.slippage, psi, d);
    (payout,
     ToU64(SatSub(pool.supply, shares)),
     Balances(Wrap(b.reserve - d), b.slippage - payout, Wrap(b.liabilities - d)))
  }

  function Withdraw(pool: PoolState, shares: nat): (nat, nat, Balances)
    requires WithdrawDefined(pool, shares)
  {
    Redeem(pool, shares, Decrement(pool, shares), PsiAfter(pool, shares))
  }

  // ---- The shares a withdrawal costs ----

  /** Binary search over any payout function: it fails only if the whole position is too small, and
      finds a sufficient count whose predecessor is not sufficient. */
  method SearchShares(payout: nat --> nat, amount: nat, owned: nat) returns (r: Option<nat>)
    requires forall s | 1 <= s <= owned :: payout.requires(s)
    ensures r.None? ==> owned == 0 || payout(owned) < amount
    ensures r.Some? ==> 1 <= r.value <= owned && payout(r.value) >= amount
    ensures r.Some? && r.value > 1 ==> payout(r.value - 1) < amount
  {
    if owned == 0 { return None; }
    var low, high := 1, owned;
    while low < high
      invariant 1 <= low <= high <= owned
      invariant high == owned || payout(high) >= amount
      invariant low == 1 || payout(low - 1) < amount
    {
      var middle := low + (high - low) / 2;
      if payout(middle) >= amount { high := middle; } else { low := middle + 1; }
    }
    if payout(low) < amount { return None; }
    r := Some(low);
  }

  /** What the curve guarantees needs: default parameters, 64-bit balances, at most 18 decimals, and
      a reserve and supply that cover the whole position. */
  predicate Covers(pool: PoolState, owned: nat) {
    && pool.params == DEFAULTS && pool.decimals <= DECIMALS
    && pool.balances.reserve <= U64_MAX && pool.balances.liabilities <= U64_MAX
    && owned <= pool.supply <= U64_MAX
    && Decrement(pool, owned) <= pool.balances.reserve
  }

  lemma DecrementMono(pool: PoolState, s: nat, t: nat)
    requires s <= t <= pool.supply <= U64_MAX && pool.balances.liabilities <= U64_MAX
    ensures Decrement(pool, s) <= Decrement(pool, t) <= pool.balances.liabilities
  {
    if pool.supply > 0 {
      var l := pool.balances.liabilities;
      DecrementExact(pool, s);
      DecrementExact(pool, t);
      MulMono(l, s, t);
      DivMono(s * l, t * l, pool.supply);
      MulMono(l, t, pool.supply);
      DivMono(t * l, pool.supply * l, pool.supply);
      DivUnique(pool.supply * l, pool.supply, l);
    }
  }

  lemma DecrementExact(pool: PoolState, s: nat)
    requires 0 < pool.supply && s <= pool.supply <= U64_MAX && pool.balances.liabilities <= U64_MAX
    ensures Decrement(pool, s) == s * pool.balances.liabilities / pool.supply
  {
    var l := pool.balances.liabilities;
    MulMono(s, l, U64_MAX);
    MulMono(U64_MAX, s, U64_MAX);
    WrapSmall(s * l);
  }

  /** Burning more shares never raises what the curve asks for. */
  lemma PsiAfterFalls(pool: PoolState, owned: nat, s: nat, t: nat)
    requires Covers(pool, owned) && s <= t <= owned
    ensures WithdrawDefined(pool, s) && WithdrawDefined(pool, t)
    ensures PsiAfter(pool, t) <= PsiAfter(pool, s)
  {
    DecrementMono(pool, s, t);
    DecrementMono(pool, t, owned);
    PsiAfterOrder(pool, s, t);
  }

  lemma PsiAfterOrder(pool: PoolState, s: nat, t: nat)
    requires pool.params == DEFAULTS && pool.decimals <= DECIMALS && Decrement(pool, s) <= Decrement(pool, t)
    requires Decrement(pool, t) <= pool.balances.reserve <= U64_MAX && Decrement(pool, t) <= pool.balances.liabilities <= U64_MAX
    ensures WithdrawDefined(pool, s) && WithdrawDefined(pool, t)
    ensures PsiAfter(pool, t) <= PsiAfter(pool, s)
  {
    PsiOrder(pool.balances.reserve, pool.balances.liabilities, pool.decimals, Decrement(pool, s), Decrement(pool, t));
  }

  /** Where the decrements are covered no subtraction wraps. */
  lemma PsiOrder(r: nat, l: nat, decimals: nat, d: nat, d': nat)
    requires d <= d' <= r <= U64_MAX && d' <= l <= U64_MAX && decimals <= DECIMALS
    ensures PsiDefined(DEFAULTS, Wrap(r - d), Wrap(l - d), decimals) && PsiDefined(DEFAULTS, Wrap(r - d'), Wrap(l - d'), decimals)
    ensures Psi(DEFAULTS, Wrap(r - d'), Wrap(l - d'), decimals) <= Psi(DEFAULTS, Wrap(r - d), Wrap(l - d), decimals)
  {
    NoWrap(r, l, d);
    NoWrap(r, l, d');
    PsiFalls(r, l, decimals, d, d');
  }

  lemma NoWrap(r: nat, l: nat, d: nat)
    requires d <= r <= U64_MAX && d <= l <= U64_MAX
    ensures Wrap(r - d) == r - d && Wrap(l - d) == l - d
  {
    WrapSmall(r - d);
    WrapSmall(l - d);
  }

  /** More shares never pay less. */
  lemma PayoutMonotone(pool: PoolState, owned: nat, s: nat, t: nat)
    requires Covers(pool, owned) && s <= t <= owned
    ensures WithdrawDefined(pool, s) && WithdrawDefined(pool, t)
    ensures Withdraw(pool, s).0 <= Withdraw(pool, t).0
  {
    PsiAfterFalls(pool, owned, s, t);
    DecrementMono(pool, s, t);
    NetPayoutMonotone(pool.balances.slippage, PsiAfter(pool, s), PsiAfter(pool, t), Decrement(pool, s), Decrement(pool, t));
  }

  lemma NetPayoutMonotone(slippage: nat, psi: nat, psi': nat, d: nat, d': nat)
    requires psi' <= psi && d <= d'
    ensures NetPayout(slippage, psi, d) <= NetPayout(slippage, psi', d')
  {
  }

  /** No smaller share count suffices, and a sufficient position has a sufficient count. */
  lemma LeastShares(pool: PoolState, owned: nat, amount: nat, r: nat)
    requires Covers(pool, owned) && 1 <= r <= owned
    requires forall s | 1 <= s <= owned :: WithdrawDefined(pool, s)
    requires Withdraw(pool, r).0 >= amount && (r > 1 ==> Withdraw(pool, r - 1).0 < amount)
    ensures Withdraw(pool, owned).0 >= amount
    ensures forall s | 1 <= s < r :: Withdraw(pool, s).0 < amount
  {
    PayoutMonotone(pool, owned, r, owned);
    forall s | 1 <= s < r ensures Withdraw(pool, s).0 < amount {
      PayoutMonotone(pool, owned, s, r - 1);
    }
  }

  /** The least share count that pays the confirmed amount; fails exactly when none does. */
  method SharesForWithdrawal(pool: PoolState, amount: nat, owned: nat) returns (r: Option<nat>)
    requires forall s | 1 <= s <= owned :: WithdrawDefined(pool, s)
    ensures r.None? ==> owned == 0 || Withdraw(pool, owned).0 < amount
    ensures r.Some? ==> 1 <= r.value <= owned && Withdraw(pool, r.value).0 >= amount
    ensures Covers(pool, owned) ==> (r.Some? <==> owned > 0 && Withdraw(pool, owned).0 >= amount)
    ensures Covers(pool, owned) && r.Some? ==> forall s | 1 <= s < r.value :: Withdraw(pool, s).0 < amount
  {
    r := SearchShares(s requires WithdrawDefined(pool, s) => Withdraw(pool, s).0, amount, owned);
    if Covers(pool, owned) && r.Some? { LeastShares(pool, owned, amount, r.value); }
  }

  // ---- Liabilities per share ----

  /** What LPs own per share did not fall: l' / s' >= l / s. */
  ghost predicate NotDiluted(liabilities: nat, supply: nat, liabilities': nat, supply': nat) {
    liabilities' * supply >= liabilities * supply'
  }

  lemma DepositNotDiluting(pool: PoolState, inverse: nat, deposit: nat)
    requires pool.balances.liabilities + Increment(inverse, deposit) < U256_LIMIT
    ensures var (_, supply, b) := Deposit(pool, inverse, deposit);
            NotDiluted(pool.balances.liabilities, pool.supply, b.liabilities, supply)
  {
    MintedBound(pool, inverse, deposit);
    DepositShares(pool, inverse, deposit);
    ProportionalGrowth(pool.balances.liabilities, pool.supply, Increment(inverse, deposit), MintedShares(pool, inverse, deposit),
                       Deposit(pool, inverse, deposit).1);
  }

  lemma DepositShares(pool: PoolState, inverse: nat, deposit: nat)
    requires pool.balances.liabilities + Increment(inverse, deposit) < U256_LIMIT
    ensures Deposit(pool, inverse, deposit).2.liabilities == pool.balances.liabilities + Increment(inverse, deposit)
    ensures Deposit(pool, inverse, deposit).1 <= pool.supply + MintedShares(pool, inverse, deposit)
  {
    WrapSmall(pool.balances.liabilities + Increment(inverse, deposit));
  }

  lemma ProportionalGrowth(l: nat, s: nat, inc: nat, minted: nat, s': nat)
    requires l * minted <= inc * s && s' <= s + minted
    ensures NotDiluted(l, s, l + inc, s')
  {
    assert (l + inc) * s == l * s + inc * s;
    assert l * (s + minted) == l * s + l * minted;
    MulMono(l, s', s + minted);
  }

  /** Minting rounds in favour of the existing shares. */
  lemma MintedBound(pool: PoolState, inverse: nat, deposit: nat)
    ensures pool.balances.liabilities * MintedShares(pool, inverse, deposit) <= Increment(inverse, deposit) * pool.supply
  {
    var l, product := pool.balances.liabilities, Increment(inverse, deposit) * pool.supply;
    if l > 0 {
      WrapBelow(product);
      DivGe(Wrap(product), l, MintedShares(pool, inverse, deposit));
    }
  }

  /** Minted shares are the exact share of the increment, rounded down. */
  lemma MintedExact(pool: PoolState, inverse: nat, deposit: nat)
    requires pool.balances.liabilities > 0 && Increment(inverse, deposit) * pool.supply < U256_LIMIT
    ensures var l, minted := pool.balances.liabilities, MintedShares(pool, inverse, deposit);
            l * minted <= Increment(inverse, deposit) * pool.supply < l * (minted + 1)
  {
    var l, product := pool.balances.liabilities, Increment(inverse, deposit) * pool.supply;
    WrapSmall(product);
    DivGe(product, l, MintedShares(pool, inverse, deposit));
    DivGe(product, l, MintedShares(pool, inverse, deposit) + 1);
  }

  /** With nothing owed to anyone, a deposit mints one share for every unit it adds to the liabilities. */
  lemma FirstDeposit(pool: PoolState, inverse: nat, deposit: nat)
    requires pool.balances.liabilities == 0 && inverse < U256_LIMIT && deposit < U256_LIMIT
    ensures var (minted, _, after) := Deposit(pool, inverse, deposit); minted == after.liabilities == Max(inverse, deposit)
  {
    WrapSmall(Increment(inverse, deposit));
  }

  /** A deposit raises reserve and liabilities by the curve's inverse, or by the deposit if that is
      more, and the slippage reserve by the deposit. */
  lemma DepositMoves(pool: PoolState, inverse: nat, deposit: nat)
    requires pool.balances.reserve + Increment(inverse, deposit) < U256_LIMIT
    requires pool.balances.liabilities + Increment(inverse, deposit) < U256_LIMIT
    requires pool.balances.slippage + deposit < U256_LIMIT
    ensures var before, after := pool.balances, Deposit(pool, inverse, deposit).2;
            && after.reserve - before.reserve == after.liabilities - before.liabilities == Max(inverse, deposit)
            && after.slippage - before.slippage == deposit
  {
    WrapSmall(pool.balances.reserve + Increment(inverse, deposit));
    WrapSmall(pool.balances.liabilities + Increment(inverse, deposit));
    WrapSmall(pool.balances.slippage + deposit);
  }

  /** A withdrawal lowers reserve and liabilities by the shares' part of the liabilities, rounded down,
      and pays out of the slippage reserve no more than that, and exactly what it says. */
  lemma WithdrawMoves(pool: PoolState, owned: nat, shares: nat)
    requires Covers(pool, owned) && shares <= owned
    ensures WithdrawDefined(pool, shares)
    ensures var before := pool.balances; var (payout, supply, after) := Withdraw(pool, shares);
            var d := before.liabilities - after.liabilities;
            && before.reserve - after.reserve == d
            && before.slippage - after.slippage == payout <= d
            && supply == pool.supply - shares
            && (pool.supply > 0 ==> pool.supply * d <= shares * before.liabilities < pool.supply * (d + 1))
            && (pool.supply == 0 ==> d == 0)
  {
    assert WithdrawDefined(pool, shares) by { PsiAfterFalls(pool, owned, shares, shares); }
    DecrementMono(pool, shares, owned);
    if pool.supply > 0 { DecrementFloor(pool, shares); }
    RedeemMoves(pool, shares, Decrement(pool, shares), PsiAfter(pool, shares));
  }

  lemma DecrementFloor(pool: PoolState, shares: nat)
    requires 0 < pool.supply && shares <= pool.supply <= U64_MAX && pool.balances.liabilities <= U64_MAX
    ensures pool.supply * Decrement(pool, shares) <= shares * pool.balances.liabilities < pool.supply * (Decrement(pool, shares) + 1)
  {
    DecrementExact(pool, shares);
    DivBounds(shares * pool.balances.liabilities, pool.supply);
  }

  /** After a withdrawal the slippage reserve is at least what the curve asks for on the new balances,
      or else what it was; the payout falls short of the liabilities it removes only where the reserve
      is left at exactly that. */
  lemma WithdrawPaysCurve(pool: PoolState, shares: nat)
    requires shares <= pool.supply <= U64_MAX && pool.balances.liabilities < U256_LIMIT && WithdrawDefined(pool, shares)
    ensures var before := pool.balances; var (payout, _, after) := Withdraw(pool, shares);
            && PsiDefined(pool.params, after.reserve, after.liabilities, pool.decimals)
            && var kept := Min(Psi(pool.params, after.reserve, after.liabilities, pool.decimals), before.slippage);
               && after.slippage == before.slippage - payout >= kept
               && (after.slippage == kept || payout == before.liabilities - after.liabilities)
  {
    var d := Decrement(pool, shares);
    if pool.supply > 0 { DecrementBound(pool, shares); }
    WrapSmall(pool.balances.liabilities - d);
  }

  lemma RedeemMoves(pool: PoolState, shares: nat, d: nat, psi: nat)
    requires shares <= pool.supply <= U64_MAX && d <= pool.balances.reserve < U256_LIMIT && d <= pool.balances.liabilities < U256_LIMIT
    ensures var before := pool.balances; var (payout, supply, after) := Redeem(pool, shares, d, psi);
            && before.reserve - after.reserve == before.liabilities - after.liabilities == d
            && before.slippage - after.slippage == payout <= d
            && supply == pool.supply - shares
  {
    WrapSmall(pool.balances.reserve - d);
    WrapSmall(pool.balances.liabilities - d);
  }

  lemma WrapBelow(x: nat)
    ensures Wrap(x) <= x
  {
  }

  lemma WithdrawNotDiluting(pool: PoolState, shares: nat)
    requires shares <= pool.supply <= U64_MAX && pool.balances.liabilities < U256_LIMIT && WithdrawDefined(pool, shares)
    ensures var (_, supply, b) := Withdraw(pool, shares);
            NotDiluted(pool.balances.liabilities, pool.supply, b.liabilities, supply)
  {
    var l, s, d := pool.balances.liabilities, pool.supply, Decrement(pool, shares);
    if s > 0 {
      DecrementBound(pool, shares);
      WrapSmall(l - d);
      ProportionalRest(l, s, shares, d);
    }
  }

  lemma ProportionalRest(l: nat, s: nat, shares: nat, d: nat)
    requires d <= l && shares <= s && s * d <= shares * l
    ensures NotDiluted(l, s, l - d, s - shares)
  {
    assert (l - d) * s == l * s - s * d;
    assert l * (s - shares) == l * s - shares * l;
  }

  /** A withdrawal takes no more than its share of the liabilities. */
  lemma DecrementBound(pool: PoolState, shares: nat)
    requires shares <= pool.supply && pool.supply > 0
    ensures pool.supply * Decrement(pool, shares) <= shares * pool.balances.liabilities
    ensures Decrement(pool, shares) <= pool.balances.liabilities
  {
    var l, s, d := pool.balances.liabilities, pool.supply, Decrement(pool, shares);
    WrapBelow(shares * l);
    DivGe(Wrap(shares * l), s, d);
    MulMono(l, shares, s);
    MulCancel(s, d, l);
  }

  lemma NotDilutedTransitive(l0: nat, s0: nat, l1: nat, s1: nat, l2: nat, s2: nat)
    requires s1 > 0 && NotDiluted(l0, s0, l1, s1) && NotDiluted(l1, s1, l2, s2)
    ensures NotDiluted(l0, s0, l2, s2)
  {
    MulMono(s0, l1 * s2, l2 * s1);
    MulMono(s2, l0 * s1, l1 * s0);
    assert s0 * (l1 * s2) == s2 * (l1 * s0);
    assert s0 * (l2 * s1) == s1 * (l2 * s0);
    assert s2 * (l0 * s1) == s1 * (l0 * s2);
    MulCancel(s1, l0 * s2, l2 * s0);
  }

  // ---- Whole sequences ----

  /** What can happen to a pool: deposits, withdrawals, and committed swaps, which pay their LP fee
      into the liabilities of the output pool and leave those of the input pool alone. */
  datatype Event =
    | DepositOf(inverse: nat, deposit: nat)
    | WithdrawalOf(shares: nat)
    | SwapOf(reserve: nat, slippage: nat, lpFee: nat)

  predicate Admissible(pool: PoolState, e: Event) {
    match e
    case DepositOf(inverse, deposit) => pool.balances.liabilities + Increment(inverse, deposit) < U256_LIMIT
    case WithdrawalOf(shares) =>
      shares <= pool.supply <= U64_MAX && pool.balances.liabilities < U256_LIMIT && WithdrawDefined(pool, shares)
    case SwapOf(_, _, lpFee) => pool.balances.liabilities + lpFee < U256_LIMIT
  }

  function After(pool: PoolState, e: Event): PoolState
    requires Admissible(pool, e)
  {
    match e
    case DepositOf(inverse, deposit) =>
      var (_, supply, b) := Deposit(pool, inverse, deposit); pool.(balances := b, supply := supply)
    case WithdrawalOf(shares) =>
      var (_, supply, b) := Withdraw(pool, shares); pool.(balances := b, supply := supply)
    case SwapOf(reserve, slippage, lpFee) =>
      pool.(balances := Balances(reserve, slippage, Wrap(pool.balances.liabilities + lpFee)))
  }

  /** Every event is admissible and the supply stays positive until the last one. */
  predicate Runs(pool: PoolState, events: seq<Event>)
    decreases |events|
  {
    events == [] || (pool.supply > 0 && Admissible(pool, events[0]) && Runs(After(pool, events[0]), events[1..]))
  }

  function Final(pool: PoolState, events: seq<Event>): PoolState
    requires Runs(pool, events)
    decreases |events|
  {
    if events == [] then pool else Final(After(pool, events[0]), events[1..])
  }

  lemma EventNotDiluting(pool: PoolState, e: Event)
    requires Admissible(pool, e)
    ensures NotDiluted(pool.balances.liabilities, pool.supply, After(pool, e).balances.liabilities, After(pool, e).supply)
  {
    match e
    case DepositOf(inverse, deposit) => DepositNotDiluting(pool, inverse, deposit);
    case WithdrawalOf(shares) => WithdrawNotDiluting(pool, shares);
    case SwapOf(_, _, lpFee) =>
      WrapSmall(pool.balances.liabilities + lpFee);
      MulMono(pool.supply, pool.balances.liabilities, pool.balances.liabilities + lpFee);
  }

  /** Over any sequence of deposits, withdrawals and swaps, liabilities per share never fall. */
  lemma {:induction false} NeverDiluted(pool: PoolState, events: seq<Event>)
    requires Runs(pool, events)
    ensures var end := Final(pool, events);
            NotDiluted(pool.balances.liabilities, pool.supply, end.balances.liabilities, end.supply)
    decreases |events|
  {
    if events != [] {
      var next := After(pool, events[0]);
      EventNotDiluting(pool, events[0]);
      if |events| > 1 {
        NeverDiluted(next, events[1..]);
        var end := Final(next, events[1..]);
        NotDilutedTransitive(pool.balances.liabilities, pool.supply, next.balances.liabilities, next.supply,
                             end.balances.liabilities, end.supply);
      }
    }
  }

  // ---- Round trips ----

  /** Withdrawing exactly the shares a deposit minted removes no more liabilities than it added,
      as long as the supply did not saturate. */
  lemma DepositThenWithdraw(pool: PoolState, inverse: nat, deposit: nat)
    requires pool.balances.liabilities + Increment(inverse, deposit) < U256_LIMIT
    requires pool.supply + MintedShares(pool, inverse, deposit) <= U64_MAX
    ensures var (minted, supply, b) := Deposit(pool, inverse, deposit);
            var after := pool.(balances := b, supply := supply);
            Decrement(after, minted) <= Increment(inverse, deposit)
  {
    var l, s, inc, n := pool.balances.liabilities, pool.supply, Increment(inverse, deposit), MintedShares(pool, inverse, deposit);
    var (minted, supply, b) := Deposit(pool, inverse, deposit);
    var after := pool.(balances := b, supply := supply);
    WrapSmall(l + inc);
    assert supply == s + n;
    if supply > 0 {
      MintedBound(pool, inverse, deposit);
      DecrementBound(after, n);
      RoundTripBound(l, s, inc, n, Decrement(after, n));
    }
  }

  lemma RoundTripBound(l: nat, s: nat, inc: nat, n: nat, d: nat)
    requires s + n > 0 && l * n <= inc * s && (s + n) * d <= n * (l + inc)
    ensures d <= inc
  {
    assert n * (l + inc) == l * n + inc * n;
    assert (s + n) * inc == inc * s + inc * n;
    MulCancel(s + n, d, inc);
  }

  /** Exactly when that holds: the supply does not saturate, or the minted shares are still worth
      less than one unit above the increment at the saturated supply. */
  lemma DepositThenWithdrawExactly(pool: PoolState, inverse: nat, deposit: nat)
    requires pool.balances.liabilities + Increment(inverse, deposit) < U256_LIMIT
    requires MintedShares(pool, inverse, deposit) * (pool.balances.liabilities + Increment(inverse, deposit)) < U256_LIMIT
    ensures var (minted, supply, b) := Deposit(pool, inverse, deposit);
            var l, inc := pool.balances.liabilities, Increment(inverse, deposit);
            Decrement(pool.(balances := b, supply := supply), minted) <= inc
            <==> pool.supply + minted <= U64_MAX || minted * (l + inc) < U64_MAX * (inc + 1)
  {
    var l, inc, n := pool.balances.liabilities, Increment(inverse, deposit), MintedShares(pool, inverse, deposit);
    if pool.supply + n <= U64_MAX {
      DepositThenWithdraw(pool, inverse, deposit);
    } else {
      WrapSmall(l + inc);
      SaturatedDecrement(pool.(balances := Deposit(pool, inverse, deposit).2, supply := U64_MAX), n, l + inc, inc);
    }
  }

  lemma SaturatedDecrement(pool: PoolState, n: nat, l: nat, inc: nat)
    requires pool.supply == U64_MAX && pool.balances.liabilities == l && n * l < U256_LIMIT
    ensures Decrement(pool, n) <= inc <==> n * l < U64_MAX * (inc + 1)
  {
    WrapSmall(n * l);
    QuotientAtMost(n * l, inc);
  }

  lemma QuotientAtMost(x: nat, inc: nat)
    ensures x / U64_MAX <= inc <==> x < U64_MAX * (inc + 1)
  {
    DivGe(x, U64_MAX, inc + 1);
  }

  /** With a saturated supply the round trip fails: the deposit's shares redeem more liabilities than
      the deposit added. */
  lemma SaturatedSupplyRoundTripFails()
    ensures var pool := PoolState(DEFAULTS, FeeRates(200, 300, 0), Balances(1, 1, 1), U64_MAX, 18);
            var (minted, supply, b) := Deposit(pool, 0, 1);
            Decrement(pool.(balances := b, supply := supply), minted) > Increment(0, 1)
  {
  }

  /** Splitting a withdrawal never removes more liabilities than withdrawing the total at once. */
  lemma SplitWithdrawal(pool: PoolState, first: nat, second: nat)
    requires 0 < pool.supply <= U64_MAX && first + second <= pool.supply && pool.balances.liabilities <= U64_MAX
    requires WithdrawDefined(pool, first)
    ensures var (_, supply, b) := Withdraw(pool, first);
            Decrement(pool, first) + Decrement(pool.(balances := b, supply := supply), second) <= Decrement(pool, first + second)
  {
    var (_, supply, b) := Withdraw(pool, first);
    DecrementBound(pool, first);
    RestAfter(pool, first, Decrement(pool, first), PsiAfter(pool, first));
    SplitDecrements(pool, pool.(balances := b, supply := supply), first, second);
  }

  lemma RestAfter(pool: PoolState, shares: nat, d: nat, psi: nat)
    requires shares <= pool.supply <= U64_MAX && d <= pool.balances.liabilities < U256_LIMIT
    ensures Redeem(pool, shares, d, psi).1 == pool.supply - shares
    ensures Redeem(pool, shares, d, psi).2.liabilities == pool.balances.liabilities - d
  {
    WrapSmall(pool.balances.liabilities - d);
  }

  lemma SplitDecrements(pool: PoolState, after: PoolState, first: nat, second: nat)
    requires 0 < pool.supply <= U64_MAX && first + second <= pool.supply && pool.balances.liabilities <= U64_MAX
    requires Decrement(pool, first) <= pool.balances.liabilities
    requires after.supply == pool.supply - first && after.balances.liabilities == pool.balances.liabilities - Decrement(pool, first)
    ensures Decrement(pool, first) + Decrement(after, second) <= Decrement(pool, first + second)
  {
    var l, s, x, y := pool.balances.liabilities, pool.supply, Decrement(pool, first), Decrement(after, second);
    DecrementBound(pool, first);
    DecrementExact(pool, first + second);
    assert s * (x + y) <= (first + second) * l by {
      if s > first {
        DecrementBound(after, second);
        SplitBound(l, s, first, second, x, y);
      } else {
        assert second == 0 && y == 0;
      }
    }
    DivGe((first + second) * l, s, x + y);
  }

  lemma SplitBound(l: nat, s: nat, a: nat, b: nat, x: nat, y: nat)
    requires a + b <= s && a < s && x <= l
    requires s * x <= a * l && (s - a) * y <= b * (l - x)
    ensures s * (x + y) <= (a + b) * l
  {
    var slack, rest := a * l - s * x, s - a;
    assert rest * (s * (x + y)) <= rest * ((a + b) * l) by {
      MulMono(s, rest * y, b * (l - x));
      MulMono(slack, b, rest);
      SplitAlgebra(l, s, rest, a, b, x, y, slack);
    }
    MulCancel(rest, s * (x + y), (a + b) * l);
  }

  lemma SplitAlgebra(l: int, s: int, rest: int, a: int, b: int, x: int, y: int, slack: int)
    requires rest == s - a && slack == a * l - s * x
    ensures rest * (s * (x + y)) == rest * (a * l) - rest * slack + s * (rest * y)
    ensures s * (b * (l - x)) == rest * (b * l) + b * slack
    ensures rest * ((a + b) * l) == rest * (a * l) + rest * (b * l)
  {
    assert s * (x + y) == a * l - slack + s * y;
    assert rest * (s * y) == s * (rest * y);
    assert s * (b * (l - x)) == b * (s * l - s * x);
    assert rest * (b * l) == b * (s * l - a * l);
    assert (a + b) * l == a * l + b * l;
  }
}
