/**
 The integer curve (src/curve.rs): fixed-point products and quotients with an 18-digit mantissa, the
 slippage function psi, and psi's behaviour when reserve and liabilities fall together.
 */
module Curve {
  import opened Basics
  import opened Arith
  import opened Words

  const DECIMALS: nat := 18

  datatype Params = Params(beta: nat, c: nat)

  const DEFAULTS := Params(10_000_000_000_000_000, 16_000_000_000_000_000_000)

  function Pow10(n: nat): (r: nat)
    ensures r > 0
  {
    if n == 0 then 1 else 10 * Pow10(n - 1)
  }

  function MulU(a: nat, b: nat): nat { SatMul(a, b) / MANTISSA }

  function Div(a: nat, b: nat): nat
    requires b > 0
  {
    Quotient(SatMul(a, MANTISSA), b)
  }

  function ToInternal(value: nat, decimals: nat): nat {
    if decimals > DECIMALS then Quotient(value, Pow10(decimals - DECIMALS)) else Wrap(value * Pow10(DECIMALS - decimals))
  }

  function ToExternal(value: nat, decimals: nat): nat {
    if decimals > DECIMALS then Wrap(value * Pow10(decimals - DECIMALS)) else Quotient(value, Pow10(DECIMALS - decimals))
  }

  function Denominator(p: Params, b: nat, l: nat): nat { Wrap(b + MulU(p.c, l)) }

  /** The division in `Psi` is defined. */
  predicate PsiDefined(p: Params, b: nat, l: nat, decimals: nat) {
    var ib, il := ToInternal(b, decimals), ToInternal(l, decimals);
    (ib == 0 && il == 0) || Denominator(p, ib, il) > 0
  }

  function Psi(p: Params, b: nat, l: nat, decimals: nat): nat
    requires PsiDefined(p, b, l, decimals)
  {
    var ib, il := ToInternal(b, decimals), ToInternal(l, decimals);
    if ib == 0 && il == 0 then 0
    else
      var diff := if ib > il then ib - il else il - ib;
      var psi := Wrap(Div(MulU(p.beta, MulU(diff, diff)), Denominator(p, ib, il)) + ib);
      ToExternal(psi, decimals)
  }

  // ---- With the default parameters and 64-bit balances nothing saturates or wraps ----

  lemma {:induction false} Pow10Mono(a: nat, b: nat)
    requires a <= b
    ensures Pow10(a) <= Pow10(b)
  {
    if a < b { Pow10Mono(a, b - 1); }
  }

  lemma {:induction false} Pow10Add(a: nat, b: nat)
    ensures Pow10(a + b) == Pow10(a) * Pow10(b)
  {
    if a > 0 { Pow10Add(a - 1, b); }
  }

  lemma ScaleBound(decimals: nat)
    requires decimals <= DECIMALS
    ensures 1 <= Pow10(DECIMALS - decimals) <= MANTISSA
  {
    Pow10Mono(DECIMALS - decimals, DECIMALS);
    assert Pow10(6) == 1_000_000;
    assert Pow10(12) == 1_000_000_000_000;
    assert Pow10(18) == MANTISSA;
  }

  const SCALED_MAX: nat := U64_MAX * MANTISSA

  lemma InternalExact(value: nat, decimals: nat)
    requires value <= U64_MAX && decimals <= DECIMALS
    ensures ToInternal(value, decimals) == value * Pow10(DECIMALS - decimals) <= SCALED_MAX
  {
    ScaleBound(decimals);
    var s := Pow10(DECIMALS - decimals);
    MulMono(s, value, U64_MAX);
    MulMono(U64_MAX, s, MANTISSA);
    WrapSmall(value * s);
  }

  /** The numerator of psi's quotient: 1% of the squared imbalance, rounded down twice. */
  function Imbalance(diff: nat): nat { (diff * diff / MANTISSA) * DEFAULTS.beta / MANTISSA * MANTISSA }

  lemma ImbalanceBound(diff: nat)
    ensures 100 * Imbalance(diff) <= diff * diff
  {
    var d2 := diff * diff / MANTISSA;
    assert 100 * (d2 * DEFAULTS.beta / MANTISSA) <= d2;
    assert d2 * MANTISSA <= diff * diff;
  }

  /** Psi on scaled values, without saturation. */
  function PsiExact(ib: nat, il: nat): nat
  {
    var diff := if ib > il then ib - il else il - ib;
    if ib == 0 && il == 0 then 0 else Quotient(Imbalance(diff), ib + 16 * il) + ib
  }

  lemma ExactProducts(diff: nat, ib: nat, il: nat)
    requires diff <= SCALED_MAX && ib <= SCALED_MAX && il <= SCALED_MAX
    ensures SatMul(MulU(DEFAULTS.beta, MulU(diff, diff)), MANTISSA) == Imbalance(diff)
    ensures Denominator(DEFAULTS, ib, il) == ib + 16 * il
  {
    SquareMono(diff, SCALED_MAX);
    ImbalanceBound(diff);
    var d2 := diff * diff / MANTISSA;
    assert MulU(diff, diff) == d2;
    assert MulU(DEFAULTS.beta, d2) == d2 * DEFAULTS.beta / MANTISSA;
  }

  /** Psi at scale `s`, without saturation. */
  function PsiScaled(b: nat, l: nat, s: nat): nat
    requires s > 0
  {
    Quotient(PsiExact(b * s, l * s), s)
  }

  lemma PsiIsExact(b: nat, l: nat, decimals: nat)
    requires b <= U64_MAX && l <= U64_MAX && decimals <= DECIMALS
    ensures PsiDefined(DEFAULTS, b, l, decimals)
    ensures Psi(DEFAULTS, b, l, decimals) == PsiScaled(b, l, Pow10(DECIMALS - decimals))
  {
    InternalExact(b, decimals);
    InternalExact(l, decimals);
    if b != 0 || l != 0 { InternalPsi(ToInternal(b, decimals), ToInternal(l, decimals)); }
  }

  lemma InternalPsi(ib: nat, il: nat)
    requires ib <= SCALED_MAX && il <= SCALED_MAX && (ib != 0 || il != 0)
    ensures Denominator(DEFAULTS, ib, il) > 0
    ensures var diff := if ib > il then ib - il else il - ib;
            Wrap(Div(MulU(DEFAULTS.beta, MulU(diff, diff)), Denominator(DEFAULTS, ib, il)) + ib) == PsiExact(ib, il)
  {
    var diff := if ib > il then ib - il else il - ib;
    ExactProducts(diff, ib, il);
    QuotientBound(diff, ib, il);
    var q := Quotient(Imbalance(diff), ib + 16 * il);
    assert Div(MulU(DEFAULTS.beta, MulU(diff, diff)), Denominator(DEFAULTS, ib, il)) == q;
    SumFits(q, ib, il);
  }

  lemma SumFits(q: nat, ib: nat, il: nat)
    requires q <= ib + 16 * il && ib <= SCALED_MAX && il <= SCALED_MAX
    ensures Wrap(q + ib) == q + ib
  {
    WrapSmall(q + ib);
  }

  /** The quotient never exceeds a hundredth of the larger balance. */
  lemma QuotientBound(diff: nat, ib: nat, il: nat)
    requires diff == (if ib > il then ib - il else il - ib) && (ib != 0 || il != 0)
    ensures Quotient(Imbalance(diff), ib + 16 * il) <= ib + 16 * il
  {
    var a := ib + 16 * il;
    ImbalanceBound(diff);
    SquareMono(diff, a);
    DivGe(Imbalance(diff), a, a + 1);
    assert a * (a + 1) == a * a + a;
  }

  // ---- What psi is ----

  /** `x` is one hundredth of gap^2 / w, rounded down, at scale `s` and up to one mantissa in the
      numerator. */
  ghost predicate Hundredth(x: nat, gap: nat, w: nat, s: nat) {
    && 100 * (x * w) <= gap * gap
    && (gap * s) * (gap * s) < 100 * ((x + 1) * s * (w * s) + MANTISSA)
  }

  /** Psi is the reserve plus one hundredth of the squared imbalance over the reserve and sixteen times
      the liabilities, rounded down. */
  lemma PsiFormula(b: nat, l: nat, decimals: nat)
    requires b <= U64_MAX && l <= U64_MAX && decimals <= DECIMALS
    ensures PsiDefined(DEFAULTS, b, l, decimals) && Psi(DEFAULTS, b, l, decimals) >= b
    ensures Hundredth(Psi(DEFAULTS, b, l, decimals) - b, if b > l then b - l else l - b, b + 16 * l, Pow10(DECIMALS - decimals))
  {
    PsiIsExact(b, l, decimals);
    ScaledFormula(b, l, Pow10(DECIMALS - decimals));
  }

  lemma ScaledFormula(b: nat, l: nat, s: nat)
    requires s > 0
    ensures PsiScaled(b, l, s) >= b && Hundredth(PsiScaled(b, l, s) - b, if b > l then b - l else l - b, b + 16 * l, s)
  {
    var gap, w := if b > l then b - l else l - b, b + 16 * l;
    if w == 0 {
      EmptyFormula(s);
    } else {
      var i, q, x := ScaledParts(b, l, s, gap, w);
      FormulaBounds(gap * s, gap, s, w, q, x, i);
    }
  }

  lemma EmptyFormula(s: nat)
    requires s > 0
    ensures PsiScaled(0, 0, s) == 0 && Hundredth(0, 0, 0, s)
  {
    assert 0 * s == 0;
  }

  /** Psi's two divisions, by what characterises them. */
  lemma ScaledParts(b: nat, l: nat, s: nat, gap: nat, w: nat) returns (i: nat, q: nat, x: nat)
    requires s > 0 && gap == (if b > l then b - l else l - b) && w == b + 16 * l && w > 0
    ensures PsiScaled(b, l, s) == b + x
    ensures 100 * i <= (gap * s) * (gap * s) < 100 * (i + MANTISSA)
    ensures (w * s) * q <= i < (w * s) * q + w * s && s * x <= q < s * x + s
  {
    i := Numerator(gap * s);
    q := DenominatorPart(i, w, s);
    x := q / s;
    DivBounds(q, s);
    PsiOfParts(b, l, s, gap * s, w * s, i, q);
  }

  lemma Numerator(diff: nat) returns (i: nat)
    ensures i == Imbalance(diff) && 100 * i <= diff * diff < 100 * (i + MANTISSA)
  {
    i := Imbalance(diff);
    ImbalanceBound(diff);
    ImbalanceAbove(diff);
  }

  lemma DenominatorPart(i: nat, w: nat, s: nat) returns (q: nat)
    requires w > 0 && s > 0
    ensures w * s > 0 && q == i / (w * s) && (w * s) * q <= i < (w * s) * q + w * s
  {
    MulMono(s, 1, w);
    q := i / (w * s);
    DivBounds(i, w * s);
  }

  lemma PsiOfParts(b: nat, l: nat, s: nat, diff: nat, den: nat, i: nat, q: nat)
    requires s > 0 && diff == (if b > l then b - l else l - b) * s && den == (b + 16 * l) * s > 0
    requires i == Imbalance(diff) && q == i / den
    ensures PsiScaled(b, l, s) == b + q / s
  {
    ScaledGap(b, l, s);
    WeightScaled(b, l, s);
    ExactParts(b * s, l * s, diff, den);
    SumOfParts(b, l, s, q);
  }

  lemma SumOfParts(b: nat, l: nat, s: nat, q: nat)
    requires s > 0 && PsiExact(b * s, l * s) == q + b * s
    ensures PsiScaled(b, l, s) == b + q / s
  {
    AddedQuotient(q, b, s);
  }

  lemma WeightScaled(b: nat, l: nat, s: nat)
    ensures b * s + 16 * (l * s) == (b + 16 * l) * s
  {
  }

  lemma ExactParts(ib: nat, il: nat, diff: nat, den: nat)
    requires diff == (if ib > il then ib - il else il - ib) && den == ib + 16 * il && den > 0
    ensures PsiExact(ib, il) == Imbalance(diff) / den + ib
  {
  }

  lemma ScaledGap(b: nat, l: nat, s: nat)
    requires s > 0
    ensures (if b * s > l * s then b * s - l * s else l * s - b * s) == (if b > l then b - l else l - b) * s
  {
    if b > l { MulStep(s, l, b); } else { MulMono(s, b, l); }
  }

  lemma AddedQuotient(q: nat, b: nat, s: nat)
    requires s > 0
    ensures (q + b * s) / s == q / s + b
  {
    DivBounds(q, s);
    assert s * (q / s + b) == s * (q / s) + b * s;
    DivUnique(q + b * s, s, q / s + b);
  }

  lemma ImbalanceAbove(diff: nat)
    ensures diff * diff < 100 * (Imbalance(diff) + MANTISSA)
  {
    var d2 := diff * diff / MANTISSA;
    assert d2 < 100 * (d2 * DEFAULTS.beta / MANTISSA + 1);
    assert diff * diff < (d2 + 1) * MANTISSA;
  }

  lemma FormulaBounds(d: nat, gap: nat, s: nat, w: nat, q: nat, x: nat, i: nat)
    requires s > 0 && d == gap * s && 100 * i <= d * d < 100 * (i + MANTISSA)
    requires (w * s) * q <= i < (w * s) * q + w * s && s * x <= q < s * x + s
    ensures Hundredth(x, gap, w, s)
  {
    MulMono(w * s, s * x, q);
    MulMono(w * s, q + 1, s * x + s);
    BelowHundredth(gap, s, w, x, i);
    AboveHundredth(s, w, q, x, i);
  }

  lemma BelowHundredth(gap: nat, s: nat, w: nat, x: nat, i: nat)
    requires s > 0 && 100 * i <= (gap * s) * (gap * s) && (w * s) * (s * x) <= i
    ensures 100 * (x * w) <= gap * gap
  {
    assert (s * s) * (100 * (x * w)) == 100 * ((w * s) * (s * x));
    assert (s * s) * (gap * gap) == (gap * s) * (gap * s);
    MulMono(s, 1, s);
    MulCancel(s * s, 100 * (x * w), gap * gap);
  }

  lemma AboveHundredth(s: nat, w: nat, q: nat, x: nat, i: nat)
    requires i < (w * s) * q + w * s && (w * s) * (q + 1) <= (w * s) * (s * x + s)
    ensures i < (x + 1) * s * (w * s)
  {
    assert (w * s) * (q + 1) == (w * s) * q + w * s;
    assert (x + 1) * s * (w * s) == (w * s) * (s * x + s);
  }

  // ---- Monotonicity ----

  /** Lowering the denominator by 17k raises the quotient by at most k. */
  lemma QuotientGrowth(x: nat, a: nat, k: nat)
    requires a > 0 && k > 0 && 100 * x <= a * a
    ensures x / a <= x / (a + 17 * k) + k
  {
    var b := a + 17 * k;
    DivBounds(x, a);
    DivBounds(x, b);
    QuotientGap(x, a, b, k, x / b, x / a);
  }

  lemma QuotientGap(x: nat, a: nat, b: nat, k: nat, q: nat, g: nat)
    requires a > 0 && k > 0 && 100 * x <= a * a && b == a + 17 * k && a * g <= x < b * q + b
    ensures g <= q + k
  {
    if g > q + k {
      MulMono(a, q + k + 1, g);
      assert b * q + b == b * (q + 1);
      // a < 17(q + 1) while 100 a q <= a a
      QuotientCross(x, a, q, k);
      QuotientSmall(x, a, q, k);
    }
  }

  lemma QuotientCross(x: nat, a: nat, q: nat, k: nat)
    requires k > 0 && a * (q + k + 1) <= x < (a + 17 * k) * (q + 1)
    ensures a < 17 * (q + 1)
  {
    assert a * (q + k + 1) == a * (q + 1) + a * k;
    assert (a + 17 * k) * (q + 1) == a * (q + 1) + 17 * (k * (q + 1));
    assert k * (17 * (q + 1)) == 17 * (k * (q + 1));
    if a >= 17 * (q + 1) { MulMono(k, 17 * (q + 1), a); }
  }

  lemma QuotientSmall(x: nat, a: nat, q: nat, k: nat)
    requires a > 0 && k > 0 && 100 * x <= a * a && a * (q + k + 1) <= x
    ensures 100 * (q + k + 1) <= a
  {
    assert a * (100 * (q + k + 1)) == 100 * (a * (q + k + 1));
    MulCancel(a, 100 * (q + k + 1), a);
  }

  /** Lowering both balances by the same amount never raises exact psi. */
  lemma ExactFalls(ib: nat, il: nat, k: nat)
    requires k <= ib && k <= il
    ensures PsiExact(ib - k, il - k) <= PsiExact(ib, il)
  {
    var nb, nl := ib - k, il - k;
    if k > 0 && (nb != 0 || nl != 0) {
      var diff := if ib > il then ib - il else il - ib;
      var a := nb + 16 * nl;
      ImbalanceBound(diff);
      SquareMono(diff, a);
      QuotientGrowth(Imbalance(diff), a, k);
      assert ib + 16 * il == a + 17 * k;
    }
  }

  /** Psi never rises when reserve and liabilities fall together. */
  lemma PsiFalls(b: nat, l: nat, decimals: nat, d: nat, d': nat)
    requires b <= U64_MAX && l <= U64_MAX && decimals <= DECIMALS && d <= d' && d' <= b && d' <= l
    ensures PsiDefined(DEFAULTS, b - d, l - d, decimals) && PsiDefined(DEFAULTS, b - d', l - d', decimals)
    ensures Psi(DEFAULTS, b - d', l - d', decimals) <= Psi(DEFAULTS, b - d, l - d, decimals)
  {
    PsiIsExact(b - d, l - d, decimals);
    PsiIsExact(b - d', l - d', decimals);
    ScaledFalls(b - d, l - d, d' - d, Pow10(DECIMALS - decimals));
  }

  lemma ScaledFalls(b: nat, l: nat, d: nat, s: nat)
    requires d <= b && d <= l && s > 0
    ensures PsiScaled(b - d, l - d, s) <= PsiScaled(b, l, s)
  {
    assert b * s - d * s == (b - d) * s;
    assert l * s - d * s == (l - d) * s;
    MulMono(s, d, b);
    MulMono(s, d, l);
    ExactFalls(b * s, l * s, d * s);
    DivMono(PsiExact((b - d) * s, (l - d) * s), PsiExact(b * s, l * s), s);
  }

  /** Near balance and with tiny amounts, psi is the reserve itself. */
  lemma SmallPsi(b: nat, l: nat)
    requires 0 < b <= 1000 && l <= 1000
    ensures PsiDefined(DEFAULTS, b, l, 18) && Psi(DEFAULTS, b, l, 18) == b
  {
    PsiIsExact(b, l, 18);
    assert Pow10(0) == 1;
    SmallScaled(b, l);
  }

  lemma SmallScaled(b: nat, l: nat)
    requires 0 < b <= 1000 && l <= 1000
    ensures PsiScaled(b, l, 1) == b
  {
    assert b * 1 == b && l * 1 == l;
    SmallImbalance(if b > l then b - l else l - b);
    assert PsiExact(b, l) == b;
  }

  lemma SmallImbalance(diff: nat)
    requires diff <= 1000
    ensures Imbalance(diff) == 0
  {
    SquareMono(diff, 1000);
  }
}
