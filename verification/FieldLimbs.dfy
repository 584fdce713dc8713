/**
 Hash preimages of the session protocol (src/auth.rs): byte strings become a length followed by
 little-endian limbs of seven bytes. The encoding is prefix-free, so two challenges with the same
 preimage are the same challenge.
 */
module FieldLimbs {
  import opened Basics
  import opened ClientOrderId
  import opened Arith

  type Bytes = seq<Byte>

  const LIMB_BYTES: nat := 7
  const LIMB_LIMIT: nat := 0x100_0000_0000_0000

  /** `u64::from_le_bytes` of a chunk padded with zeros. */
  function Limb(chunk: Bytes): nat
  {
    if chunk == [] then 0 else chunk[0] as nat + 256 * Limb(chunk[1..])
  }

  function Limbs(bytes: Bytes): seq<nat>
  {
    if |bytes| == 0 then []
    else if |bytes| <= LIMB_BYTES then [Limb(bytes)]
    else [Limb(bytes[..LIMB_BYTES])] + Limbs(bytes[LIMB_BYTES..])
  }

  function Encode(bytes: Bytes): seq<nat> { [|bytes|] + Limbs(bytes) }

  method PushBytes(target: seq<nat>, bytes: Bytes) returns (pushed: seq<nat>)
    ensures pushed == target + Encode(bytes)
  {
    pushed := target + [|bytes|];
    var i := 0;
    while i < |bytes|
      invariant 0 <= i <= |bytes|
      invariant pushed + Limbs(bytes[i..]) == target + Encode(bytes)
    {
      var next := Min(i + LIMB_BYTES, |bytes|);
      var chunk := bytes[i..next];
      if |bytes| - i <= LIMB_BYTES {
        assert bytes[i..] == chunk && bytes[next..] == [];
      } else {
        assert bytes[i..][..LIMB_BYTES] == chunk && bytes[i..][LIMB_BYTES..] == bytes[next..];
      }
      assert Limbs(bytes[i..]) == [Limb(chunk)] + Limbs(bytes[next..]);
      assert pushed + ([Limb(chunk)] + Limbs(bytes[next..])) == (pushed + [Limb(chunk)]) + Limbs(bytes[next..]);
      pushed := pushed + [Limb(chunk)];
      i := next;
    }
    assert Limbs(bytes[i..]) == [] && pushed + [] == pushed;
  }

  // ---- Limbs are field elements ----

  lemma {:induction false} LimbBound(chunk: Bytes, n: nat)
    requires |chunk| <= n
    ensures Limb(chunk) < Power256(n)
  {
    if chunk != [] { LimbBound(chunk[1..], n - 1); }
  }

  function Power256(n: nat): (p: nat)
    ensures p > 0
  {
    if n == 0 then 1 else 256 * Power256(n - 1)
  }

  lemma SevenBytes()
    ensures Power256(LIMB_BYTES) == LIMB_LIMIT
  {
    assert Power256(4) == 0x1_0000_0000;
  }

  /** Every limb is below 2^56, hence a canonical element of the 64-bit prime field. */
  lemma {:induction false} LimbsCanonical(bytes: Bytes)
    ensures forall i | 0 <= i < |Limbs(bytes)| :: Limbs(bytes)[i] < LIMB_LIMIT
  {
    SevenBytes();
    if 0 < |bytes| <= LIMB_BYTES {
      LimbBound(bytes, LIMB_BYTES);
    } else if |bytes| > LIMB_BYTES {
      LimbBound(bytes[..LIMB_BYTES], LIMB_BYTES);
      LimbsCanonical(bytes[LIMB_BYTES..]);
    }
  }

  // ---- Where each byte goes ----

  /** Byte `i` of a chunk is digit `i` of its limb in base 256, the lowest first. */
  lemma {:induction false} ByteOfLimb(chunk: Bytes, i: nat)
    requires i < |chunk|
    ensures Limb(chunk) / Power256(i) % 256 == chunk[i] as int
  {
    var rest := Limb(chunk[1..]);
    if i == 0 {
      assert Limb(chunk) % 256 == chunk[0] as int;
    } else {
      ByteOfLimb(chunk[1..], i - 1);
      DigitAbove(chunk[0] as nat, rest, Power256(i - 1));
    }
  }

  /** The lowest digit does not reach the others. */
  lemma DigitAbove(digit: nat, rest: nat, p: nat)
    requires digit < 256 && p > 0
    ensures (digit + 256 * rest) / (256 * p) == rest / p
  {
    var q := rest / p;
    DivBounds(rest, p);
    MulAssoc(256, p, q);
    DivUnique(digit + 256 * rest, 256 * p, q);
  }

  /** A byte string of any length fills seven bytes to a limb: byte `i` is digit `i % 7` of limb `i / 7`. */
  lemma {:induction false} ByteOfLimbs(bytes: Bytes, i: nat)
    requires i < |bytes|
    ensures |Limbs(bytes)| == (|bytes| + 6) / 7
    ensures Limbs(bytes)[i / 7] / Power256(i % 7) % 256 == bytes[i] as int
    decreases |bytes|
  {
    if |bytes| <= LIMB_BYTES {
      ByteOfLimb(bytes, i);
    } else {
      var rest := bytes[LIMB_BYTES..];
      ByteOfLimbs(rest, if i < LIMB_BYTES then 0 else i - LIMB_BYTES);
      if i < LIMB_BYTES { ByteOfLimb(bytes[..LIMB_BYTES], i); } else { assert i / 7 == (i - 7) / 7 + 1 && i % 7 == (i - 7) % 7; }
    }
  }

  /** Nothing but the bytes is in the limbs: the last chunk is padded with zeros. */
  lemma {:induction false} LastLimbBound(bytes: Bytes, left: nat)
    requires |bytes| > 0 && left == (|bytes| - 1) % 7 + 1
    ensures |Limbs(bytes)| > 0 && Limbs(bytes)[|Limbs(bytes)| - 1] < Power256(left)
    decreases |bytes|
  {
    if |bytes| <= LIMB_BYTES {
      LimbBound(bytes, left);
    } else {
      LastLimbBound(bytes[LIMB_BYTES..], left);
    }
  }

  // ---- Injectivity ----

  lemma {:induction false} LimbInjective(a: Bytes, b: Bytes)
    requires |a| == |b| && Limb(a) == Limb(b)
    ensures a == b
  {
    if a != [] {
      LimbInjective(a[1..], b[1..]);
      assert a == [a[0]] + a[1..] && b == [b[0]] + b[1..];
    }
  }

  lemma {:induction false} LimbsInjective(a: Bytes, b: Bytes, x: seq<nat>, y: seq<nat>)
    requires |a| == |b| && Limbs(a) + x == Limbs(b) + y
    ensures a == b && x == y
    decreases |a|
  {
    if |a| == 0 {
      assert Limbs(a) + x == x && Limbs(b) + y == y;
    } else if |a| <= LIMB_BYTES {
      assert (Limbs(a) + x)[0] == Limb(a) && (Limbs(b) + y)[0] == Limb(b);
      LimbInjective(a, b);
      assert (Limbs(a) + x)[1..] == x && (Limbs(b) + y)[1..] == y;
    } else {
      var p, q := a[LIMB_BYTES..], b[LIMB_BYTES..];
      assert (Limbs(a) + x)[0] == Limb(a[..LIMB_BYTES]) && (Limbs(b) + y)[0] == Limb(b[..LIMB_BYTES]);
      LimbInjective(a[..LIMB_BYTES], b[..LIMB_BYTES]);
      assert (Limbs(a) + x)[1..] == Limbs(p) + x && (Limbs(b) + y)[1..] == Limbs(q) + y;
      LimbsInjective(p, q, x, y);
      assert a == a[..LIMB_BYTES] + p && b == b[..LIMB_BYTES] + q;
    }
  }

  /** No encoding is a prefix of another: what follows it is determined too. */
  lemma EncodePrefixFree(a: Bytes, b: Bytes, x: seq<nat>, y: seq<nat>)
    requires Encode(a) + x == Encode(b) + y
    ensures a == b && x == y
  {
    assert (Encode(a) + x)[0] == |a| && (Encode(b) + y)[0] == |b|;
    assert (Encode(a) + x)[1..] == Limbs(a) + x && (Encode(b) + y)[1..] == Limbs(b) + y;
    LimbsInjective(a, b, x, y);
  }

  // ---- Preimages ----

  const CHALLENGE_PURPOSE: nat := 0x4d5a_4b45_4155_5448
  const TOKEN_PURPOSE: nat := 0x4d5a_4b45_5345_5353

  datatype Challenge = Challenge(
    domain: Bytes, network: Bytes, suffix: nat, prefix: nat, v0: nat, v1: nat, v2: nat, v3: nat,
    nonce: Bytes, issued: nat, expires: nat)

  function ChallengePreimage(c: Challenge): seq<nat> {
    [CHALLENGE_PURPOSE]
    + (Encode(c.domain)
       + (Encode(c.network)
          + ([c.suffix, c.prefix, c.v0, c.v1, c.v2, c.v3] + (Encode(c.nonce) + [c.issued, c.expires]))))
  }

  function TokenPreimage(token: Bytes): seq<nat> { [TOKEN_PURPOSE] + Encode(token) }

  /** Two challenges with the same preimage are the same challenge. */
  lemma ChallengeInjective(a: Challenge, b: Challenge)
    requires ChallengePreimage(a) == ChallengePreimage(b)
    ensures a == b
  {
    var endA, endB := [a.issued, a.expires], [b.issued, b.expires];
    var midA, midB := [a.suffix, a.prefix, a.v0, a.v1, a.v2, a.v3], [b.suffix, b.prefix, b.v0, b.v1, b.v2, b.v3];
    var tailA, tailB := midA + (Encode(a.nonce) + endA), midB + (Encode(b.nonce) + endB);
    var netA, netB := Encode(a.network) + tailA, Encode(b.network) + tailB;
    assert ChallengePreimage(a)[1..] == Encode(a.domain) + netA && ChallengePreimage(b)[1..] == Encode(b.domain) + netB;
    EncodePrefixFree(a.domain, b.domain, netA, netB);
    EncodePrefixFree(a.network, b.network, tailA, tailB);
    SplitMiddle(midA, midB, Encode(a.nonce) + endA, Encode(b.nonce) + endB);
    EncodePrefixFree(a.nonce, b.nonce, endA, endB);
    assert endA[0] == endB[0] && endA[1] == endB[1];
    assert forall i | 0 <= i < 6 :: midA[i] == midB[i];
    assert midA[0] == midB[0] && midA[1] == midB[1] && midA[2] == midB[2];
    assert midA[3] == midB[3] && midA[4] == midB[4] && midA[5] == midB[5];
  }

  lemma SplitMiddle(m: seq<nat>, m': seq<nat>, x: seq<nat>, y: seq<nat>)
    requires |m| == |m'| && m + x == m' + y
    ensures m == m' && x == y
  {
    assert (m + x)[..|m|] == m && (m' + y)[..|m|] == m';
    assert (m + x)[|m|..] == x && (m' + y)[|m|..] == y;
  }

  /** Two tokens with the same preimage are equal, and no token shares a preimage with a challenge. */
  lemma TokensSeparated(a: Bytes, b: Bytes, c: Challenge)
    ensures TokenPreimage(a) == TokenPreimage(b) ==> a == b
    ensures TokenPreimage(a) != ChallengePreimage(c)
  {
    if TokenPreimage(a) == TokenPreimage(b) {
      assert TokenPreimage(a)[1..] == Encode(a) && TokenPreimage(b)[1..] == Encode(b);
      assert Encode(a) + [] == Encode(a) && Encode(b) + [] == Encode(b);
      EncodePrefixFree(a, b, [], []);
    }
    assert TokenPreimage(a)[0] != ChallengePreimage(c)[0];
  }
}
