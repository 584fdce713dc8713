/**
 Per-user 96-slot sliding nonce window (src/nonce_window.rs): a base nonce and three 32-bit
 limbs. Bit i of the concatenated 96-bit bitmap marks nonce `base + i` as consumed. The window
 is shown to refine the unbounded set of every nonce ever consumed.
 */
module NonceWindow {
  import opened Basics
  import opened Bits

  const SIZE: nat := 96

  datatype Error = Stale | AlreadyConsumed

  datatype Window = Window(base: nat, bitmap0: nat, bitmap1: nat, bitmap2: nat)

  const EMPTY := Window(0, 0, 0, 0)

  ghost predicate WellFormed(w: Window) {
    w.bitmap0 < U32_LIMIT && w.bitmap1 < U32_LIMIT && w.bitmap2 < U32_LIMIT
  }

  // ---- The code's limb operations, on values ----

  /** `b.checked_shl(k).unwrap_or(0)` */
  function CheckedShl(x: nat, k: nat): nat { if k >= 32 then 0 else Shl(x, k) }

  function ShiftRight(w: Window, shift: nat): Window
  {
    if shift == 0 then w
    else if shift >= SIZE then Window(w.base, 0, 0, 0)
    else if shift >= 64 then
      Window(w.base, Shr(w.bitmap2, shift - 64), 0, 0)
    else if shift >= 32 then
      var s := shift - 32;
      Window(w.base, Or(Shr(w.bitmap1, s), CheckedShl(w.bitmap2, 32 - s)), Shr(w.bitmap2, s), 0)
    else
      var s := shift;
      Window(w.base,
             Or(Shr(w.bitmap0, s), CheckedShl(w.bitmap1, 32 - s)),
             Or(Shr(w.bitmap1, s), CheckedShl(w.bitmap2, 32 - s)),
             Shr(w.bitmap2, s))
  }

  predicate BitSet(w: Window, offset: nat)
    requires offset < SIZE
  {
    if offset < 32 then And(w.bitmap0, Shl(1, offset)) != 0
    else if offset < 64 then And(w.bitmap1, Shl(1, offset - 32)) != 0
    else And(w.bitmap2, Shl(1, offset - 64)) != 0
  }

  function SetBit(w: Window, offset: nat): Window
    requires offset < SIZE
  {
    if offset < 32 then w.(bitmap0 := Or(w.bitmap0, Shl(1, offset)))
    else if offset < 64 then w.(bitmap1 := Or(w.bitmap1, Shl(1, offset - 32)))
    else w.(bitmap2 := Or(w.bitmap2, Shl(1, offset - 64)))
  }

  function Consume(w: Window, nonce: nat): Result<Window, Error>
  {
    if nonce < w.base then Err(Stale)
    else
      var slid := if nonce - w.base >= SIZE
                  then ShiftRight(w, nonce - (SIZE - 1) - w.base).(base := nonce - (SIZE - 1))
                  else w;
      var offset := nonce - slid.base;
      if BitSet(slid, offset) then Err(AlreadyConsumed) else Ok(SetBit(slid, offset))
  }

  // ---- Bit-level meaning ----

  /** Bit `i` of the 96-bit bitmap; false outside it. */
  ghost predicate BitAt(w: Window, i: nat) {
    if i < 32 then Bit(w.bitmap0, i)
    else if i < 64 then Bit(w.bitmap1, i - 32)
    else i < SIZE && Bit(w.bitmap2, i - 64)
  }

  lemma BitSetReads(w: Window, offset: nat)
    requires offset < SIZE
    ensures BitSet(w, offset) <==> BitAt(w, offset)
  {
    var b := offset % 32;
    MaskBit(b, b);
    MaskTest(w.bitmap0, b);
    MaskTest(w.bitmap1, b);
    MaskTest(w.bitmap2, b);
  }

  /** `limb |= 1 << b` sets bit b of a limb and no other. */
  lemma LimbSet(x: nat, b: nat, k: nat)
    requires x < U32_LIMIT && b < 32 && k < 32
    ensures Or(x, Shl(1, b)) < U32_LIMIT
    ensures Bit(Or(x, Shl(1, b)), k) <==> k == b || Bit(x, k)
  {
    MaskBit(b, k);
    Pow32();
    OrBound(x, Shl(1, b), 32);
    OrBit(x, Shl(1, b), k);
  }

  lemma SetBitWrites(w: Window, offset: nat, i: nat)
    requires WellFormed(w) && offset < SIZE && i < SIZE
    ensures WellFormed(SetBit(w, offset))
    ensures BitAt(SetBit(w, offset), i) <==> i == offset || BitAt(w, i)
  {
    var k := if i < 32 then i else if i < 64 then i - 32 else i - 64;
    if offset < 32 {
      LimbSet(w.bitmap0, offset, k);
    } else if offset < 64 {
      LimbSet(w.bitmap1, offset - 32, k);
    } else {
      LimbSet(w.bitmap2, offset - 64, k);
    }
  }

  /** One limb of the shifted bitmap: the low limb moves down and the next limb fills in. */
  lemma LimbShift(lo: nat, hi: nat, s: nat, i: nat)
    requires lo < U32_LIMIT && hi < U32_LIMIT && s < 32 && i < 32
    ensures Or(Shr(lo, s), CheckedShl(hi, 32 - s)) < U32_LIMIT
    ensures Bit(Or(Shr(lo, s), CheckedShl(hi, 32 - s)), i)
            <==> if i + s < 32 then Bit(lo, i + s) else Bit(hi, i + s - 32)
  {
    var a, b := Shr(lo, s), CheckedShl(hi, 32 - s);
    TopLimbShift(lo, s, i);
    HighPart(hi, s, i);
    Pow32();
    OrBound(a, b, 32);
    OrBit(a, b, i);
  }

  lemma HighPart(hi: nat, s: nat, i: nat)
    requires hi < U32_LIMIT && s < 32 && i < 32
    ensures CheckedShl(hi, 32 - s) < U32_LIMIT
    ensures Bit(CheckedShl(hi, 32 - s), i) <==> i + s >= 32 && Bit(hi, i + s - 32)
  {
    if s > 0 { ShlBit(hi, 32 - s, i); } else { ZeroBit(i); }
  }

  lemma TopLimbShift(x: nat, s: nat, i: nat)
    requires x < U32_LIMIT && s < 32 && i < 32
    ensures Shr(x, s) < U32_LIMIT
    ensures Bit(Shr(x, s), i) <==> i + s < 32 && Bit(x, i + s)
  {
    Pow32();
    ShrBound(x, s);
    ShrBit(x, s, i);
    if i + s >= 32 { HighBit(x, 32, i + s); }
  }

  /** `shift_right` is a 96-bit logical shift across the three limbs. */
  lemma ShiftRightShifts(w: Window, shift: nat, i: nat)
    requires WellFormed(w) && i < SIZE
    ensures WellFormed(ShiftRight(w, shift))
    ensures ShiftRight(w, shift).base == w.base
    ensures BitAt(ShiftRight(w, shift), i) <==> BitAt(w, i + shift)
  {
    var k := if i < 32 then i else if i < 64 then i - 32 else i - 64;
    ZeroBit(k);
    if shift == 0 || shift >= SIZE {
    } else if shift >= 64 {
      TopLimbShift(w.bitmap2, shift - 64, k);
    } else if shift >= 32 {
      LimbShift(w.bitmap1, w.bitmap2, shift - 32, k);
      TopLimbShift(w.bitmap2, shift - 32, k);
    } else {
      LimbShift(w.bitmap0, w.bitmap1, shift, k);
      LimbShift(w.bitmap1, w.bitmap2, shift, k);
      TopLimbShift(w.bitmap2, shift, k);
    }
  }

  // ---- Refinement of the set of all consumed nonces ----

  /** `base` is max(0, max(consumed) - 95). */
  ghost predicate IsBase(base: nat, consumed: set<nat>) {
    && (forall n | n in consumed :: n < base + SIZE)
    && (base > 0 ==> base + (SIZE - 1) in consumed)
  }

  /** The window agrees with the whole history: its base trails the largest nonce ever consumed
      and its bitmap records exactly the consumed nonces it can still see. */
  ghost predicate Refines(w: Window, consumed: set<nat>) {
    && WellFormed(w)
    && IsBase(w.base, consumed)
    && (forall i | 0 <= i < SIZE :: BitAt(w, i) <==> w.base + i in consumed)
  }

  lemma EmptyRefines()
    ensures Refines(EMPTY, {})
  {
    forall i | 0 <= i < SIZE ensures !BitAt(EMPTY, i) { ZeroBit(i % 32); }
  }

  lemma BaseTrailsMaximum(base: nat, consumed: set<nat>, top: nat)
    requires IsBase(base, consumed)
    requires top in consumed && forall n | n in consumed :: n <= top
    ensures base == Max(0, top - (SIZE - 1))
  {
  }

  /** Sliding the window to a new base keeps it in agreement with the history below that base. */
  lemma SlideAgrees(w: Window, consumed: set<nat>, newBase: nat)
    requires Refines(w, consumed) && w.base < newBase
    ensures var slid := ShiftRight(w, newBase - w.base).(base := newBase);
            WellFormed(slid) && forall i | 0 <= i < SIZE :: BitAt(slid, i) <==> newBase + i in consumed
  {
    var shift := newBase - w.base;
    var slid := ShiftRight(w, shift).(base := newBase);
    ShiftRightShifts(w, shift, 0);
    forall i | 0 <= i < SIZE ensures BitAt(slid, i) <==> newBase + i in consumed {
      ShiftRightShifts(w, shift, i);
      assert BitAt(slid, i) == BitAt(ShiftRight(w, shift), i);
      if i + shift < SIZE { assert w.base + (i + shift) == newBase + i; }
    }
  }

  /** `consume(n)` succeeds exactly when n is at or above the base and was never consumed, and a
      success extends the history by exactly n. The two errors tell the two reasons apart. */
  lemma ConsumeRefines(w: Window, consumed: set<nat>, nonce: nat)
    requires Refines(w, consumed)
    ensures Consume(w, nonce).Ok? <==> nonce >= w.base && nonce !in consumed
    ensures Consume(w, nonce) == Err(Stale) <==> nonce < w.base
    ensures Consume(w, nonce) == Err(AlreadyConsumed) <==> nonce >= w.base && nonce in consumed
    ensures Consume(w, nonce).Ok? ==> Refines(Consume(w, nonce).value, consumed + {nonce})
  {
    if nonce >= w.base {
      var slides := nonce - w.base >= SIZE;
      var slid := if slides
                  then ShiftRight(w, nonce - (SIZE - 1) - w.base).(base := nonce - (SIZE - 1))
                  else w;
      if slides { SlideAgrees(w, consumed, nonce - (SIZE - 1)); }
      var offset := nonce - slid.base;
      BitSetReads(slid, offset);
      assert BitAt(slid, offset) <==> slid.base + offset in consumed;
      if nonce !in consumed {
        var next := SetBit(slid, offset);
        SetBitWrites(slid, offset, 0);
        forall i | 0 <= i < SIZE ensures BitAt(next, i) <==> slid.base + i in consumed + {nonce} {
          SetBitWrites(slid, offset, i);
        }
      }
    }
  }

  // ---- Whole runs ----

  /** A run of `consume` calls; a refused nonce leaves the window as it was. */
  function Run(w: Window, nonces: seq<nat>): (Window, seq<nat>)
  {
    if nonces == [] then (w, [])
    else
      var (prev, accepted) := Run(w, nonces[..|nonces| - 1]);
      var n := nonces[|nonces| - 1];
      match Consume(prev, n)
      case Ok(next) => (next, accepted + [n])
      case Err(_) => (prev, accepted)
  }

  ghost function Elements(s: seq<nat>): set<nat> { set n | n in s }

  /** In every run the final window refines the set of accepted nonces, and none is accepted twice. */
  lemma {:induction false} NoNonceTwice(nonces: seq<nat>)
    ensures var (w, accepted) := Run(EMPTY, nonces);
            Refines(w, Elements(accepted)) && Distinct(accepted)
  {
    if nonces == [] {
      EmptyRefines();
      assert Elements([]) == {};
    } else {
      NoNonceTwice(nonces[..|nonces| - 1]);
      var (prev, accepted) := Run(EMPTY, nonces[..|nonces| - 1]);
      var n := nonces[|nonces| - 1];
      ConsumeRefines(prev, Elements(accepted), n);
      assert Elements(accepted + [n]) == Elements(accepted) + {n};
    }
  }

  /** Every nonce is fresh and arrives less than 96 behind every earlier one. */
  ghost predicate ReorderedWithinWindow(nonces: seq<nat>) {
    && Distinct(nonces)
    && forall i, j | 0 <= i < j < |nonces| :: nonces[i] < nonces[j] + SIZE
  }

  /** One step of the run criterion: after a fully accepted prefix, the next nonce is accepted
      exactly when it is new and within 96 of every earlier one. */
  lemma NextAcceptedIff(w: Window, prefix: seq<nat>, n: nat)
    requires Refines(w, Elements(prefix))
    ensures Consume(w, n).Ok? <==> n !in prefix && forall i | 0 <= i < |prefix| :: prefix[i] < n + SIZE
  {
    ConsumeRefines(w, Elements(prefix), n);
    if n < w.base {
      assert w.base + (SIZE - 1) in prefix;
    } else {
      forall i | 0 <= i < |prefix| ensures prefix[i] < n + SIZE {
        assert prefix[i] in Elements(prefix);
      }
    }
  }

  lemma ReorderedExtends(prefix: seq<nat>, n: nat)
    ensures ReorderedWithinWindow(prefix + [n])
            <==> ReorderedWithinWindow(prefix) && n !in prefix
                 && forall i | 0 <= i < |prefix| :: prefix[i] < n + SIZE
  {
    var s := prefix + [n];
    assert forall i | 0 <= i < |prefix| :: s[i] == prefix[i];
    if ReorderedWithinWindow(s) {
      assert forall i | 0 <= i < |prefix| :: s[i] != s[|prefix|] && s[i] < s[|prefix|] + SIZE;
    }
  }

  /** A whole run is accepted exactly when its nonces are distinct and no nonce arrives 96 or more
      behind one that came before it. */
  lemma {:induction false} FullyAcceptedIff(nonces: seq<nat>)
    ensures Run(EMPTY, nonces).1 == nonces <==> ReorderedWithinWindow(nonces)
  {
    if nonces != [] {
      var k := |nonces| - 1;
      var prefix, n := nonces[..k], nonces[k];
      FullyAcceptedIff(prefix);
      NoNonceTwice(prefix);
      AcceptedLength(prefix);
      var (prev, accepted) := Run(EMPTY, prefix);
      assert nonces == prefix + [n];
      ReorderedExtends(prefix, n);
      if accepted == prefix {
        NextAcceptedIff(prev, prefix, n);
      }
    }
  }

  lemma {:induction false} AcceptedLength(nonces: seq<nat>)
    ensures |Run(EMPTY, nonces).1| <= |nonces|
  {
    if nonces != [] { AcceptedLength(nonces[..|nonces| - 1]); }
  }

  // ---- The mutable window ----

  /** The window as the code updates it: limbs and base are changed in place. */
  class NonceWindow {
    var baseNonce: nat
    var bitmap0: nat
    var bitmap1: nat
    var bitmap2: nat

    ghost function Value(): Window
      reads this
    {
      Window(baseNonce, bitmap0, bitmap1, bitmap2)
    }

    constructor ()
      ensures Value() == EMPTY
    {
      baseNonce, bitmap0, bitmap1, bitmap2 := 0, 0, 0, 0;
    }

    method ShiftRightBy(shift: nat)
      modifies this`bitmap0, this`bitmap1, this`bitmap2
      ensures Value() == ShiftRight(old(Value()), shift)
    {
      if shift == 0 {
        return;
      }
      if shift >= SIZE {
        bitmap0 := 0;
        bitmap1 := 0;
        bitmap2 := 0;
        return;
      }
      var n0, n1, n2 := 0, 0, 0;
      if shift >= 64 {
        n0 := Shr(bitmap2, shift - 64);
      } else if shift >= 32 {
        var s := shift - 32;
        n0 := Or(Shr(bitmap1, s), CheckedShl(bitmap2, 32 - s));
        n1 := Shr(bitmap2, s);
      } else {
        n0 := Or(Shr(bitmap0, shift), CheckedShl(bitmap1, 32 - shift));
        n1 := Or(Shr(bitmap1, shift), CheckedShl(bitmap2, 32 - shift));
        n2 := Shr(bitmap2, shift);
      }
      bitmap0 := n0;
      bitmap1 := n1;
      bitmap2 := n2;
    }

    method MarkBit(offset: nat)
      requires offset < SIZE
      modifies this`bitmap0, this`bitmap1, this`bitmap2
      ensures Value() == SetBit(old(Value()), offset)
    {
      if offset < 32 {
        bitmap0 := Or(bitmap0, Shl(1, offset));
      } else if offset < 64 {
        bitmap1 := Or(bitmap1, Shl(1, offset - 32));
      } else {
        bitmap2 := Or(bitmap2, Shl(1, offset - 64));
      }
    }

    /** Moves the window forward to a new base. */
    method SlideTo(newBase: nat)
      requires baseNonce <= newBase
      modifies this
      ensures Value() == ShiftRight(old(Value()), newBase - old(baseNonce)).(base := newBase)
    {
      ShiftRightBy(newBase - baseNonce);
      baseNonce := newBase;
    }

    /** Marks `nonce` consumed against the full history `consumed`, sliding forward when needed. */
    method ConsumeNonce(nonce: nat, ghost consumed: set<nat>) returns (error: Option<Error>)
      requires Refines(Value(), consumed)
      modifies this
      ensures error.None? <==> nonce >= old(baseNonce) && nonce !in consumed
      ensures error == Some(Stale) <==> nonce < old(baseNonce)
      ensures error.None? ==> Refines(Value(), consumed + {nonce})
      ensures error.Some? ==> Value() == old(Value())
    {
      ConsumeRefines(Value(), consumed, nonce);
      if nonce < baseNonce {
        return Some(Stale);
      }
      var offset := nonce - baseNonce;
      if offset >= SIZE {
        SlideTo(nonce - (SIZE - 1));
        offset := nonce - baseNonce;
      }
      var limb, bit := if offset < 32 then bitmap0 else if offset < 64 then bitmap1 else bitmap2, offset % 32;
      if And(limb, Shl(1, bit)) != 0 {
        return Some(AlreadyConsumed);
      }
      MarkBit(offset);
      error := None;
    }
  }
}
