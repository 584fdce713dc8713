/** 256-bit unsigned arithmetic as the program's integer type does it: plain operators wrap, the
    saturating ones clamp. */
module Words {
  import opened Basics

  const U256_LIMIT: nat := 0x1_0000_0000_0000_0000_0000_0000_0000_0000_0000_0000_0000_0000_0000_0000_0000_0000

  /** The 18-digit fixed-point mantissa. */
  const MANTISSA: nat := 1_000_000_000_000_000_000

  /** Modulo 2^256. */
  function Wrap(x: int): (r: nat)
    ensures r < U256_LIMIT
    decreases x < 0, if x < 0 then -x else x
  {
    if x < 0 then Wrap(x + U256_LIMIT) else if x < U256_LIMIT then x else Wrap(x - U256_LIMIT)
  }

  function SatAdd(a: nat, b: nat): nat { Min(a + b, U256_LIMIT - 1) }

  function SatSub(a: nat, b: nat): nat { if a >= b then a - b else 0 }

  function SatMul(a: nat, b: nat): nat { Min(a * b, U256_LIMIT - 1) }

  /** `saturating_to::<u64>()` */
  function ToU64(x: nat): nat { Min(x, U64_MAX) }

  lemma {:induction false} WrapIsModulo(x: int)
    ensures Wrap(x) == x % U256_LIMIT
    decreases x < 0, if x < 0 then -x else x
  {
    if x < 0 {
      WrapIsModulo(x + U256_LIMIT);
    } else if x >= U256_LIMIT {
      WrapIsModulo(x - U256_LIMIT);
    }
  }

  /** In range, wrapping does nothing. */
  lemma WrapSmall(x: nat)
    requires x < U256_LIMIT
    ensures Wrap(x) == x
  {
  }
}
