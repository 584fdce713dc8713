/** Unsigned machine-word bit operations on naturals, and what each does to every single bit. */
module Bits {
  import opened Basics
  import opened Arith

  /** `x >> s` */
  function Shr(x: nat, s: nat): nat
  {
    if s == 0 then x else Shr(x / 2, s - 1)
  }

  /** The value of bit `i`. */
  predicate Bit(x: nat, i: nat) { Shr(x, i) % 2 == 1 }

  /** `x << s` on a 32-bit word: bits shifted past bit 31 are dropped. */
  function Shl(x: nat, s: nat): nat
    decreases s
  {
    if s == 0 then x else Shl(2 * x % U32_LIMIT, s - 1)
  }

  function Or(x: nat, y: nat): nat
  {
    if x == 0 && y == 0 then 0
    else 2 * Or(x / 2, y / 2) + (if x % 2 == 1 || y % 2 == 1 then 1 else 0)
  }

  function And(x: nat, y: nat): nat
  {
    if x == 0 || y == 0 then 0
    else 2 * And(x / 2, y / 2) + (if x % 2 == 1 && y % 2 == 1 then 1 else 0)
  }

  function Pow2(w: nat): (p: nat)
    ensures p > 0
  {
    if w == 0 then 1 else 2 * Pow2(w - 1)
  }

  lemma {:induction false} ShrBit(x: nat, s: nat, i: nat)
    ensures Bit(Shr(x, s), i) == Bit(x, s + i)
  {
    if s > 0 { ShrBit(x / 2, s - 1, i); }
  }

  lemma {:induction false} OrBit(x: nat, y: nat, i: nat)
    ensures Bit(Or(x, y), i) == (Bit(x, i) || Bit(y, i))
  {
    if x == 0 && y == 0 {
      ZeroBit(i);
    } else if i > 0 {
      OrBit(x / 2, y / 2, i - 1);
    }
  }

  lemma {:induction false} ZeroBit(i: nat)
    ensures !Bit(0, i)
  {
    if i > 0 { ZeroBit(i - 1); }
  }

  /** A word below 2^w has no bit at or above position w. */
  lemma {:induction false} HighBit(x: nat, w: nat, i: nat)
    requires x < Pow2(w) && w <= i
    ensures !Bit(x, i)
  {
    if w == 0 { ZeroBit(i); } else { HighBit(x / 2, w - 1, i - 1); }
  }

  /** Halving commutes with truncation to an even modulus. */
  lemma HalfMod(x: nat, p: nat)
    requires p > 0
    ensures (x % (2 * p)) / 2 == (x / 2) % p
    ensures (x % (2 * p)) % 2 == x % 2
  {
    var q, r := x / (2 * p), x % (2 * p);
    assert x == 2 * (p * q) + r by { assert x == (2 * p) * q + r; }
    assert x / 2 == p * q + r / 2;
    DivUnique(x / 2, p, q);
  }

  lemma {:induction false} ModBit(x: nat, w: nat, i: nat)
    requires i < w
    ensures Bit(x % Pow2(w), i) == Bit(x, i)
  {
    HalfMod(x, Pow2(w - 1));
    if i > 0 { ModBit(x / 2, w - 1, i - 1); }
  }

  lemma Pow32()
    ensures Pow2(32) == U32_LIMIT
  {
    assert Pow2(8) == 256;
    assert Pow2(16) == 65536 by { assert Pow2(12) == 4096; }
    assert Pow2(20) == 1048576;
    assert Pow2(24) == 16777216;
    assert Pow2(28) == 268435456;
  }

  lemma {:induction false} ShlBit(x: nat, s: nat, i: nat)
    requires i < 32 && x < U32_LIMIT
    ensures Shl(x, s) < U32_LIMIT
    ensures Bit(Shl(x, s), i) == (s <= i && Bit(x, i - s))
    decreases s
  {
    if s > 0 {
      var y := 2 * x % U32_LIMIT;
      ShlBit(y, s - 1, i);
      if s - 1 <= i {
        Pow32();
        ModBit(2 * x, 32, i - (s - 1));
      }
    }
  }

  lemma {:induction false} ShrBound(x: nat, s: nat)
    ensures Shr(x, s) <= x
  {
    if s > 0 { ShrBound(x / 2, s - 1); }
  }

  lemma {:induction false} OrBound(x: nat, y: nat, w: nat)
    requires x < Pow2(w) && y < Pow2(w)
    ensures Or(x, y) < Pow2(w)
  {
    if w > 0 { OrBound(x / 2, y / 2, w - 1); }
  }

  /** Testing a word against the mask `1 << b` reads bit b. */
  lemma {:induction false} MaskTest(x: nat, b: nat)
    ensures And(x, Pow2(b)) != 0 <==> Bit(x, b)
  {
    if x == 0 { ZeroBit(b); }
    else if b > 0 { MaskTest(x / 2, b - 1); }
    else { assert And(x / 2, 0) == 0; }
  }

  lemma {:induction false} ShlPower(k: nat, s: nat)
    requires k + s < 32
    ensures Shl(Pow2(k), s) == Pow2(k + s)
    decreases s
  {
    if s > 0 {
      PowerFits(k + 1);
      ShlPower(k + 1, s - 1);
      assert 2 * Pow2(k) % U32_LIMIT == Pow2(k + 1);
    }
  }

  lemma PowerFits(k: nat)
    requires k < 32
    ensures Pow2(k) < U32_LIMIT
  {
    Pow32();
    Pow2Mono(k, 31);
  }

  lemma {:induction false} Pow2Mono(a: nat, b: nat)
    requires a <= b
    ensures Pow2(a) <= Pow2(b)
  {
    if a < b { Pow2Mono(a, b - 1); }
  }

  /** The mask `1 << b` of a 32-bit word has exactly bit b set. */
  lemma MaskBit(b: nat, i: nat)
    requires b < 32 && i < 32
    ensures Shl(1, b) == Pow2(b) < U32_LIMIT
    ensures Bit(Shl(1, b), i) <==> i == b
  {
    Pow32();
    Pow2Mono(b, 31);
    ShlPower(0, b);
    ShlBit(1, b, i);
    if b < i { HighBit(1, 1, i - b); }
  }

  lemma {:induction false} Pow2Add(a: nat, b: nat)
    ensures Pow2(a + b) == Pow2(a) * Pow2(b)
  {
    if a > 0 { Pow2Add(a - 1, b); }
  }

  lemma Doubled(p: nat, y: nat, x: nat)
    requires p * y <= x / 2 < p * (y + 1)
    ensures (2 * p) * y <= x < (2 * p) * (y + 1)
  {
    assert (2 * p) * y == 2 * (p * y);
    assert (2 * p) * (y + 1) == 2 * (p * (y + 1));
  }

  /** A right shift drops the low bits. */
  lemma {:induction false} ShrDrops(x: nat, s: nat)
    ensures Pow2(s) * Shr(x, s) <= x < Pow2(s) * (Shr(x, s) + 1)
  {
    if s > 0 {
      var p, y := Pow2(s - 1), Shr(x / 2, s - 1);
      ShrDrops(x / 2, s - 1);
      Doubled(p, y, x);
    }
  }
}
