/** Client-order UUIDs that carry a server-leased nonce in their first big-endian limb
    (src/nonce_window.rs). */
module ClientOrderId {
  import opened Basics

  type Byte = b: int | 0 <= b < 256

  /** The sixteen bytes of a UUID. */
  type Uuid = bytes: seq<Byte> | |bytes| == 16 witness seq(16, _ => 0)

  /** `u32::to_be_bytes` */
  function ToBigEndian(n: nat): seq<Byte>
    requires n < U32_LIMIT
  {
    [n / 0x100_0000, n / 0x1_0000 % 256, n / 0x100 % 256, n % 256]
  }

  /** `u32::from_be_bytes` */
  function FromBigEndian(b: seq<Byte>): nat
    requires |b| == 4
  {
    (((b[0] as int) * 256 + b[1] as int) * 256 + b[2] as int) * 256 + b[3] as int
  }

  function ForNonce(nonce: nat, random: seq<Byte>): Uuid
    requires nonce < U32_LIMIT && |random| == 12
  {
    ToBigEndian(nonce) + random
  }

  function NonceOf(id: Uuid): (nonce: nat)
    ensures nonce < U32_LIMIT
  {
    FromBigEndian(id[0..4])
  }

  /** The nonce and the random tail can both be read back; the nonce stands in the first four bytes, the
      highest first. */
  lemma RoundTrip(nonce: nat, random: seq<Byte>)
    requires nonce < U32_LIMIT && |random| == 12
    ensures var id := ForNonce(nonce, random);
            0x100_0000 * (id[0] as int) + 0x1_0000 * (id[1] as int) + 0x100 * (id[2] as int) + id[3] as int == nonce
    ensures NonceOf(ForNonce(nonce, random)) == nonce
    ensures ForNonce(nonce, random)[4..] == random
  {
    var id := ForNonce(nonce, random);
    assert id[0..4] == ToBigEndian(nonce);
  }

  /** Every UUID is the encoding of exactly one nonce and tail. */
  lemma Surjective(id: Uuid)
    ensures ForNonce(NonceOf(id), id[4..]) == id
  {
    var b := id[0..4];
    assert ToBigEndian(NonceOf(id)) == b;
    assert id == b + id[4..];
  }
}
