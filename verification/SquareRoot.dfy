/**
 The curve's integer square root (src/curve.rs): a start value from the binary logarithm, exactly
 seven Newton steps, and a final minimum. Values are 256-bit; the scaling product wraps.
 */
module SquareRoot {
  import opened Basics
  import opened Arith
  import opened Bits
  import opened Words


  // ---- Binary logarithm ----

  /** `value` is what is left of `v` after `shifted` low bits were dropped. */
  ghost predicate Dropped(v: nat, value: nat, shifted: nat) {
    value >= 1 && Pow2(shifted) * value <= v < Pow2(shifted) * (value + 1)
  }

  lemma DropMore(v: nat, value: nat, shifted: nat, k: nat)
    requires Dropped(v, value, shifted) && Shr(value, k) > 0
    ensures Dropped(v, Shr(value, k), shifted + k)
  {
    var q, p := Shr(value, k), Pow2(shifted);
    Pow2Add(shifted, k);
    ShrDrops(value, k);
    MulMono(p, Pow2(k) * q, value);
    MulMono(p, value + 1, Pow2(k) * (q + 1));
    MulAssoc(p, Pow2(k), q);
    MulAssoc(p, Pow2(k), q + 1);
  }

  /** `if value >> k > 0 { value >>= k; result += k }` */
  method Probe(value: nat, result: nat, k: nat, ghost v: nat) returns (value': nat, result': nat)
    requires Dropped(v, value, result) && value < Pow2(k) * Pow2(k)
    ensures Dropped(v, value', result') && value' < Pow2(k)
  {
    value', result' := value, result;
    ShrDrops(value, k);
    if Shr(value, k) > 0 {
      DropMore(v, value, result, k);
      MulCancelStrict(Pow2(k), Shr(value, k), Pow2(k));
      value', result' := Shr(value, k), result + k;
    }
  }

  lemma MulCancelStrict(p: nat, a: int, b: int)
    requires p * a < p * b
    ensures a < b
  {
    if b <= a { MulMono(p, b, a); }
  }

  lemma Squares()
    ensures Pow2(128) * Pow2(128) == U256_LIMIT
    ensures Pow2(64) * Pow2(64) == Pow2(128) && Pow2(32) * Pow2(32) == Pow2(64) && Pow2(16) * Pow2(16) == Pow2(32)
    ensures Pow2(8) * Pow2(8) == Pow2(16) && Pow2(4) * Pow2(4) == Pow2(8) && Pow2(2) * Pow2(2) == Pow2(4)
    ensures Pow2(1) * Pow2(1) == Pow2(2) && Pow2(0) == 1 && Pow2(1) == 2
  {
    Pow2Add(64, 64);
    Pow2Add(32, 32);
    Pow2Add(16, 16);
    Pow2Add(8, 8);
    Pow2Add(4, 4);
    Pow2Add(2, 2);
    Pow2Add(1, 1);
    Pow32();
  }

  method Log2(v: nat) returns (result: nat)
    requires 0 < v < U256_LIMIT
    ensures Pow2(result) <= v < Pow2(result + 1)
    ensures result < 256
  {
    Squares();
    var value;
    value, result := Probe(v, 0, 128, v);
    value, result := Probe(value, result, 64, v);
    value, result := Probe(value, result, 32, v);
    value, result := Probe(value, result, 16, v);
    value, result := Probe(value, result, 8, v);
    value, result := Probe(value, result, 4, v);
    value, result := Probe(value, result, 2, v);
    value, result := Probe(value, result, 1, v);
    assert value == 1;
    Pow2Add(result, 1);
    if result >= 256 {
      Pow2Mono(256, result);
      Pow2Add(128, 128);
    }
  }

  // ---- Newton steps ----

  ghost predicate IsRoot(n: nat, m: nat) { m * m <= n < (m + 1) * (m + 1) }

  lemma {:induction false} RootExists(n: nat) returns (m: nat)
    ensures IsRoot(n, m)
  {
    if n == 0 {
      m := 0;
    } else {
      m := RootExists(n - 1);
      if (m + 1) * (m + 1) <= n { m := m + 1; }
    }
  }

  /** A step from x divides by a positive value and stays within 256 bits. */
  predicate StepFits(n: nat, x: nat) { x > 0 && x + n / x < U256_LIMIT }

  /** `(x + n / x) >> 1` */
  function Newton(n: nat, x: nat): nat
    requires StepFits(n, x)
  {
    (x + n / x) / 2
  }

  /** The same value, whatever its width. */
  ghost function Step(n: nat, x: nat): nat
    requires x > 0
  {
    (x + n / x) / 2
  }

  /** A step from anywhere lands on or above the root, and not above the real Newton value. */
  lemma NewtonBounds(n: nat, m: nat, x: nat)
    requires IsRoot(n, m) && x > 0
    ensures Step(n, x) >= m
    ensures 2 * x * Step(n, x) <= x * x + n
  {
    NewtonFrom(n, m, x, QuotientOf(n, x), Step(n, x));
  }

  /** The quotient, with what characterises it. */
  ghost function QuotientOf(n: nat, x: nat): (q: nat)
    requires x > 0
    ensures q == n / x && x * q <= n < x * q + x
  {
    n / x
  }

  lemma NewtonFrom(n: nat, m: nat, x: nat, q: nat, y: nat)
    requires m * m <= n && x * q <= n < x * q + x && 2 * y <= x + q <= 2 * y + 1
    ensures y >= m && 2 * x * y <= x * x + n
  {
    NewtonUpper(n, x, q, y);
    NewtonLower(n, m, x, q);
  }

  lemma NewtonUpper(n: nat, x: nat, q: nat, y: nat)
    requires x * q <= n && 2 * y <= x + q
    ensures 2 * x * y <= x * x + n
  {
    MulMono(x, 2 * y, x + q);
    assert x * (2 * y) == 2 * x * y;
    assert x * (x + q) == x * x + x * q;
  }

  /** Below the root, x and n / x cannot both be small. */
  lemma NewtonLower(n: nat, m: nat, x: nat, q: nat)
    requires m * m <= n < x * q + x
    ensures x + q >= 2 * m
  {
    if x + q < 2 * m {
      MulMono(x, q + 1, 2 * m - x);
      assert x * (q + 1) == x * q + x;
      Difference(m, x);
    }
  }

  lemma Difference(m: int, x: int)
    ensures x * (2 * m - x) <= m * m
  {
    DifferenceOfSquares(m, m - x);
    SquareNonNegative(m - x);
  }

  lemma DifferenceOfSquares(m: int, d: int)
    ensures (m - d) * (m + d) == m * m - d * d
  {
  }

  lemma SquareNonNegative(d: int)
    ensures d * d >= 0
  {
  }

  /** What one step does to the error e above the root m. */
  ghost predicate Recurs(m: nat, e: nat, e': nat) { 2 * ((m + e) * e') <= e * e + 2 * m }

  /** The error recurrence: with x = m + e, the next error e' satisfies 2(m + e)e' <= e^2 + (n - m^2). */
  lemma ErrorStep(n: nat, m: nat, e: nat) returns (e': nat)
    requires IsRoot(n, m) && m > 0 && e <= m
    ensures Bounded(n, m, m + e) && Step(n, m + e) == m + e' && e' <= m
    ensures Recurs(m, e, e')
  {
    StepBounded(n, m, m + e);
    NewtonBounds(n, m, m + e);
    e' := Step(n, m + e) - m;
    ErrorAlgebra(n, m, e, e');
    StaysBelow(m, e, e');
  }

  lemma ErrorAlgebra(n: nat, m: nat, e: nat, e': nat)
    requires 2 * (m + e) * (m + e') <= (m + e) * (m + e) + n && n < (m + 1) * (m + 1)
    ensures 2 * ((m + e) * e') <= e * e + (n - m * m)
    ensures Recurs(m, e, e')
  {
    assert 2 * (m + e) * (m + e') == 2 * (m + e) * m + 2 * ((m + e) * e');
    assert (m + e) * (m + e) == m * m + 2 * (e * m) + e * e;
    assert 2 * (m + e) * m == 2 * (m * m) + 2 * (e * m);
    assert (m + 1) * (m + 1) == m * m + 2 * m + 1;
  }

  lemma StaysBelow(m: nat, e: nat, e': nat)
    requires m > 0 && e <= m && Recurs(m, e, e')
    ensures e' <= m
  {
    if e' > m {
      MulMono(m + e, m + 1, e');
      assert (m + e) * (m + 1) == m * m + e * m + m + e;
      MulMono(e, e, m);
    }
  }

  /** The sum of a step is at most about four times the root. */
  ghost predicate Bounded(n: nat, m: nat, x: nat) { x > 0 && x + n / x <= 4 * m + 1 }

  lemma StepBounded(n: nat, m: nat, x: nat)
    requires IsRoot(n, m) && 0 < x <= 2 * m && m < 2 * x
    ensures Bounded(n, m, x)
  {
    RatioBounded(n, m, x, QuotientOf(n, x));
  }

  lemma RatioBounded(n: nat, m: nat, x: nat, q: nat)
    requires n < (m + 1) * (m + 1) && m < 2 * x && x * q <= n
    ensures q < 2 * (m + 1)
  {
    assert x * (2 * (m + 1)) == (m + 1) * (2 * x);
    if q >= 2 * (m + 1) {
      MulMono(x, 2 * (m + 1), q);
      MulMono(m + 1, m + 1, 2 * x);
    }
  }

  /** So no intermediate sum leaves 256 bits. */
  lemma NoOverflow(n: nat, m: nat, x: nat)
    requires Bounded(n, m, x) && m < Pow2(128)
    ensures StepFits(n, x) && Newton(n, x) == Step(n, x)
  {
    Pow128();
  }

  /** For m >= 48 an error of at most 8 becomes at most 1. */
  lemma SmallShrinks(m: nat, e: nat, e': nat)
    requires m >= 48 && e <= 8 && Recurs(m, e, e')
    ensures e' <= 1
  {
    if e' >= 2 {
      MulMono(m + e, 2, e');
      MulMono(e, e, 8);
    }
  }

  /** Quadratic convergence: if the error is at most m / k, the next is at most 9m / 16k(k + 1), or
      at most 8. */
  lemma Contracts(m: nat, e: nat, e': nat, k: nat, k': nat)
    requires m > 0 && k * e <= m && Recurs(m, e, e') && 9 * k' <= 16 * (k * (k + 1))
    ensures e' <= 8 || k' * e' <= m
  {
    if e' >= 9 {
      var s := (m + e) * e';
      MulMono(m + e, 9, e');
      var g := (k + 1) * e';
      assert e * g <= s by { ProductBelow(m, e, e', k); }
      ContractMiddle(m, e, s, g);
      ContractEnd(m, e, e', k, k');
    }
  }

  lemma ProductBelow(m: nat, e: nat, e': nat, k: nat)
    requires k * e <= m
    ensures e * ((k + 1) * e') <= (m + e) * e'
  {
    assert (k + 1) * e == k * e + e;
    MulMono(e', (k + 1) * e, m + e);
    assert e * ((k + 1) * e') == ((k + 1) * e) * e';
  }

  lemma ContractMiddle(m: nat, e: nat, s: nat, g: nat)
    requires m > 0 && 2 * s <= e * e + 2 * m && 9 * (m + e) <= s && e * g <= s
    ensures 16 * g <= 9 * e
  {
    assert e * (16 * g) == 16 * (e * g) && e * (9 * e) == 9 * (e * e);
    MulCancel(e, 16 * g, 9 * e);
  }

  lemma ContractEnd(m: nat, e: nat, e': nat, k: nat, k': nat)
    requires k * e <= m && 16 * ((k + 1) * e') <= 9 * e && 9 * k' <= 16 * (k * (k + 1))
    ensures k' * e' <= m
  {
    var g := (k + 1) * e';
    ScaleBoth(k, 16, g, 9, e);
    ScaleBoth(e', 9, k', 16, k * (k + 1));
    MulAssoc(k, k + 1, e');
    assert k * g == e' * (k * (k + 1));
  }

  lemma ScaleBoth(p: nat, c: nat, x: nat, d: nat, y: nat)
    requires c * x <= d * y
    ensures c * (p * x) <= d * (p * y)
  {
    MulMono(p, c * x, d * y);
    assert p * (c * x) == c * (p * x);
    assert p * (d * y) == d * (p * y);
  }

  // ---- Seven steps from the start value ----

  /** From a power of two within a factor of two below the root, one step is within m / 3. */
  lemma FirstStep(n: nat, m: nat, p: nat) returns (e: nat)
    requires IsRoot(n, m) && m > 0 && p <= m < 2 * p && p !in {3, 5, 6, 7}
    ensures Bounded(n, m, p) && Step(n, p) == m + e
    ensures 3 * e <= m || e <= 1
  {
    StepBounded(n, m, p);
    NewtonBounds(n, m, p);
    e := Step(n, p) - m;
    FirstStepError(n, m, p, m - p, e);
    FirstStepCloses(p, m - p, e);
  }

  lemma FirstStepError(n: nat, m: nat, p: nat, d: nat, e: nat)
    requires m == p + d && n < (m + 1) * (m + 1) && 2 * p * (m + e) <= p * p + n
    ensures 2 * (p * e) <= d * d + 2 * (p + d)
  {
    assert 2 * p * (m + e) == 2 * (p * m) + 2 * (p * e);
    assert p * m == p * p + p * d;
    assert (m + 1) * (m + 1) == m * m + 2 * m + 1;
    SquareOfSum(p, d);
  }

  lemma SquareOfSum(p: nat, d: nat)
    ensures (p + d) * (p + d) == p * p + 2 * (p * d) + d * d
  {
  }

  lemma FirstStepCloses(p: nat, d: nat, e: nat)
    requires d < p && 2 * (p * e) <= d * d + 2 * (p + d) && p !in {3, 5, 6, 7}
    ensures 3 * e <= p + d || e <= 1
  {
    if 8 <= p { LargeFirst(p, d, e); }
  }

  lemma LargeFirst(p: nat, d: nat, e: nat)
    requires d < p && 8 <= p && 2 * (p * e) <= d * d + 2 * (p + d)
    ensures 3 * e <= p + d
  {
    if 3 * e > p + d {
      MulMono(p, p + d + 1, 3 * e);
      assert p * (3 * e) == 3 * (p * e);
      assert p * (p + d + 1) == p * p + p * d + p;
      assert 2 * (p * p) + 2 * (p * d) <= 3 * (d * d) + 4 * p + 6 * d;
      MulMono(d, d, p - 1);
      assert d * (p - 1) == p * d - d;
      MulMono(p, d, p - 1);
      assert p * (p - 1) == p * p - p;
      MulMono(p, 8, p);
    }
  }

  /** The k of "error at most m / k" after each of the first six steps. */
  const K1: nat := 3
  const K2: nat := 21
  const K3: nat := 821
  const K4: nat := 1_199_754
  const K5: nat := 2_558_952_640_480
  const K6: nat := 11_641_313_095_505_996_599_592_675

  ghost predicate Near(m: nat, e: nat, k: nat) { e <= 8 || k * e <= m }

  lemma LargeStep(m: nat, e: nat, e': nat, k: nat, k': nat)
    requires 48 <= m && Near(m, e, k) && Recurs(m, e, e') && 9 * k' <= 16 * (k * (k + 1))
    ensures Near(m, e', k')
  {
    if e <= 8 { SmallShrinks(m, e, e'); } else { Contracts(m, e, e', k, k'); }
  }

  lemma LargeEnd(m: nat, e: nat)
    requires 48 <= m < Pow2(128) && Near(m, e, K6)
    ensures e * e <= 2 * e + m
  {
    Pow128();
    if e <= 8 { MulMono(e, e, 8); } else { RootOfBound(m, e, K6); }
  }

  lemma RootOfBound(m: nat, e: nat, k: nat)
    requires k * e <= m < k * k
    ensures e * e <= m
  {
    if k <= e { MulMono(k, k, e); }
    MulMono(e, e, k);
  }

  lemma Pow128()
    ensures Pow2(128) == 0x1_0000_0000_0000_0000_0000_0000_0000_0000 < K6 * K6
  {
    Pow32();
    Pow2Add(32, 32);
    Pow2Add(64, 64);
    assert Pow2(64) == 0x1_0000_0000_0000_0000;
  }

  lemma SmallSecond(m: nat, e: nat, e': nat)
    requires 0 < m < 48 && (3 * e <= m || e <= 1) && Recurs(m, e, e')
    ensures e' <= 2
  {
    if e' >= 3 {
      MulMono(m + e, 3, e');
      MulMono(e, e, 15);
    }
  }

  lemma SmallThird(m: nat, e: nat, e': nat)
    requires 0 < m && e <= 2 && Recurs(m, e, e')
    ensures e' <= 1
  {
    if e' >= 2 {
      MulMono(m + e, 2, e');
      MulMono(e, e, 2);
    }
  }

  /** A seventh step from a small enough error leaves the root or its successor, and the final
      minimum picks the root. */
  lemma FinalMinimum(n: nat, m: nat, e: nat)
    requires IsRoot(n, m) && m > 0 && e <= m && e * e <= 2 * e + m
    ensures Bounded(n, m, m + e)
    ensures var x := Step(n, m + e); x > 0 && Min(x, n / x) == m
  {
    var e' := ErrorStep(n, m, e);
    NewtonBounds(n, m, m + e);
    ErrorAlgebra(n, m, e, e');
    FinalError(n, m, e, e');
    RootOrNext(n, m, e');
  }

  lemma FinalError(n: nat, m: nat, e: nat, e': nat)
    requires m > 0 && e * e <= 2 * e + m && n < (m + 1) * (m + 1) && 2 * ((m + e) * e') <= e * e + (n - m * m)
    ensures e' <= 1 && (e' == 1 ==> n >= m * m + m)
  {
    assert (m + 1) * (m + 1) == m * m + 2 * m + 1;
    if e' >= 2 { MulMono(m + e, 2, e'); }
  }

  lemma RootOrNext(n: nat, m: nat, e': nat)
    requires IsRoot(n, m) && m > 0 && e' <= 1 && (e' == 1 ==> n >= m * m + m)
    ensures Min(m + e', n / (m + e')) == m
  {
    if e' == 0 {
      DivGe(n, m, m);
    } else {
      assert (m + 1) * m == m * m + m;
      assert (m + 1) * (m + 1) == (m + 1) * m + (m + 1);
      DivUnique(n, m + 1, m);
    }
  }

  /** The start value 2^(log2(n) / 2) lies within a factor of two below the root. */
  lemma StartValue(n: nat, m: nat, log: nat)
    requires IsRoot(n, m) && Pow2(log) <= n < Pow2(log + 1)
    ensures var p := Pow2(log / 2); p <= m < 2 * p && p !in {3, 5, 6, 7}
  {
    var h := log / 2;
    Pow2Add(h, h);
    Pow2Mono(2 * h, log);
    Pow2Mono(log + 1, 2 * h + 2);
    RootBetween(n, m, Pow2(h));
    if h >= 3 { Pow2Mono(3, h); assert Pow2(3) == 8; } else { assert Pow2(0) == 1 && Pow2(1) == 2 && Pow2(2) == 4; }
  }

  lemma RootBetween(n: nat, m: nat, p: nat)
    requires IsRoot(n, m) && p * p <= n < 4 * (p * p)
    ensures p <= m < 2 * p
  {
    if m < p { SquareMono(m + 1, p); }
    if m >= 2 * p { SquareMono(2 * p, m); DoubleSquare(p); }
  }

  lemma DoubleSquare(p: nat)
    ensures (2 * p) * (2 * p) == 4 * (p * p)
  {
  }

  lemma RootBelow(n: nat, m: nat)
    requires IsRoot(n, m) && n < U256_LIMIT
    ensures m < Pow2(128)
  {
    Squares();
    if m >= Pow2(128) { SquareMono(Pow2(128), m); }
  }

  function K(i: nat): nat {
    match i
    case 1 => K1
    case 2 => K2
    case 3 => K3
    case 4 => K4
    case 5 => K5
    case _ => K6
  }

  /** How close the value is to the root m after i steps. */
  ghost predicate Converging(m: nat, e: nat, i: nat) {
    if m >= 48 then Near(m, e, K(i))
    else if i == 1 then 3 * e <= m || e <= 1
    else if i == 2 then e <= 2
    else e <= 1
  }

  lemma Converges(m: nat, e: nat, e': nat, i: nat)
    requires 0 < m && 1 <= i < 6 && Converging(m, e, i) && Recurs(m, e, e')
    ensures Converging(m, e', i + 1)
  {
    if m >= 48 {
      LargeStep(m, e, e', K(i), K(i + 1));
    } else if i == 1 {
      SmallSecond(m, e, e');
    } else {
      SmallThird(m, e, e');
    }
  }

  lemma Converged(m: nat, e: nat)
    requires 0 < m < Pow2(128) && Converging(m, e, 6)
    ensures e * e <= 2 * e + m
  {
    if m >= 48 {
      assert K(6) == K6;
      LargeEnd(m, e);
    } else {
      assert e <= 1;
      MulMono(e, e, 1);
    }
  }

  /** The exact integer square root, for every positive 256-bit value. */
  method NewtonRoot(n: nat) returns (r: nat)
    requires 0 < n < U256_LIMIT
    ensures IsRoot(n, r)
  {
    var log := Log2(n);
    var result := Pow2(log / 2);
    ghost var m := RootExists(n);
    StartValue(n, m, log);
    RootBelow(n, m);
    ghost var e1 := FirstStep(n, m, result);
    NoOverflow(n, m, result);
    result := Newton(n, result);
    ghost var e6;
    result, e6 := FiveSteps(n, result, m, e1);
    Converged(m, e6);
    FinalMinimum(n, m, e6);
    NoOverflow(n, m, result);
    result := Newton(n, result);
    r := Min(result, n / result);
  }

  /** One Newton step, the i-th to the (i + 1)-st value. */
  method NewtonStep(n: nat, x: nat, ghost m: nat, ghost e: nat, ghost i: nat) returns (x': nat, ghost e': nat)
    requires IsRoot(n, m) && 0 < m < Pow2(128) && x == m + e && e <= m
    requires 1 <= i < 6 && Converging(m, e, i)
    ensures x' == m + e' && e' <= m && Converging(m, e', i + 1)
  {
    e' := ErrorStep(n, m, e);
    NoOverflow(n, m, x);
    x' := Newton(n, x);
    Converges(m, e, e', i);
  }

  /** Steps two to six, from a value e1 above the root. */
  method FiveSteps(n: nat, start: nat, ghost m: nat, ghost e1: nat) returns (result: nat, ghost e: nat)
    requires IsRoot(n, m) && 0 < m < Pow2(128)
    requires start == m + e1 && e1 <= m && Converging(m, e1, 1)
    ensures result == m + e && e <= m && Converging(m, e, 6)
  {
    result, e := NewtonStep(n, start, m, e1, 1);
    result, e := NewtonStep(n, result, m, e, 2);
    result, e := NewtonStep(n, result, m, e, 3);
    result, e := NewtonStep(n, result, m, e, 4);
    result, e := NewtonStep(n, result, m, e, 5);
  }

  method Sqrt(a: nat) returns (r: nat)
    requires a < U256_LIMIT
    ensures IsRoot(a * MANTISSA % U256_LIMIT, r)
    ensures a * MANTISSA < U256_LIMIT ==> IsRoot(a * MANTISSA, r)
  {
    var scaled := a * MANTISSA % U256_LIMIT;
    if scaled == 0 { return 0; }
    r := NewtonRoot(scaled);
  }
}
