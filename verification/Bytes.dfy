/** Bytes, fixed-width big-endian integers and the exclusive-or of a keystream. */
module Bytes {

  type byte = x: int | 0 <= x < 256

  type bytes = seq<byte>

  type u16 = x: int | 0 <= x < 0x1_0000

  type u32 = x: int | 0 <= x < 0x1_0000_0000

  type u64 = x: int | 0 <= x < 0x1_0000_0000_0000_0000

  const U32_LIMIT: int := 0x1_0000_0000

  const U64_LIMIT: int := 0x1_0000_0000_0000_0000

  /** `u64::wrapping_add(1)`. */
  function WrapSucc(n: u64): u64 {
    (n + 1) % U64_LIMIT
  }

  // ── Big-endian integers ─────────────────────────────────────────────

  function Be16(n: u16): (b: bytes)
    ensures |b| == 2
  {
    [n / 256, n % 256]
  }

  function FromBe16(b: bytes): u16
    requires |b| == 2
  {
    var hi: int, lo: int := b[0], b[1];
    hi * 256 + lo
  }

  function Be32(n: u32): (b: bytes)
    ensures |b| == 4
  {
    Be16(n / 0x1_0000) + Be16(n % 0x1_0000)
  }

  function FromBe32(b: bytes): u32
    requires |b| == 4
  {
    var hi: int, lo: int := FromBe16(b[..2]), FromBe16(b[2..]);
    hi * 0x1_0000 + lo
  }

  function Be64(n: u64): (b: bytes)
    ensures |b| == 8
  {
    Be32(n / U32_LIMIT) + Be32(n % U32_LIMIT)
  }

  function FromBe64(b: bytes): u64
    requires |b| == 8
  {
    var hi: int, lo: int := FromBe32(b[..4]), FromBe32(b[4..]);
    hi * U32_LIMIT + lo
  }

  lemma Be16RoundTrip(n: u16)
    ensures FromBe16(Be16(n)) == n
  {
  }

  lemma Be32RoundTrip(n: u32)
    ensures FromBe32(Be32(n)) == n
  {
    var b := Be32(n);
    assert b[..2] == Be16(n / 0x1_0000) && b[2..] == Be16(n % 0x1_0000);
  }

  lemma Be64RoundTrip(n: u64)
    ensures FromBe64(Be64(n)) == n
  {
    var b := Be64(n);
    assert b[..4] == Be32(n / U32_LIMIT) && b[4..] == Be32(n % U32_LIMIT);
    Be32RoundTrip(n / U32_LIMIT);
    Be32RoundTrip(n % U32_LIMIT);
  }

  // ── Exclusive or ────────────────────────────────────────────────────

  /** Bitwise exclusive or of the `n` low bits of two integers. */
  function XorBits(a: nat, b: nat, n: nat): (r: nat)
    ensures r < Pow2(n)
  {
    if n == 0 then 0 else (a % 2 + b % 2) % 2 + 2 * XorBits(a / 2, b / 2, n - 1)
  }

  function Pow2(n: nat): (r: nat)
    ensures r > 0
  {
    if n == 0 then 1 else 2 * Pow2(n - 1)
  }

  function XorByte(a: byte, b: byte): byte {
    assert Pow2(8) == 256;
    XorBits(a, b, 8)
  }

  function Xor(a: bytes, k: bytes): (r: bytes)
    requires |a| == |k|
    ensures |r| == |a|
  {
    seq(|a|, i requires 0 <= i < |a| => XorByte(a[i], k[i]))
  }

  lemma BitInvolution(a: nat, k: nat)
    requires a < 2 && k < 2
    ensures ((a + k) % 2 + k) % 2 == a
  {
  }

  lemma {:induction false} XorBitsInvolution(a: nat, k: nat, n: nat)
    requires a < Pow2(n)
    ensures XorBits(XorBits(a, k, n), k, n) == a
  {
    if n > 0 {
      var bit, rest := (a % 2 + k % 2) % 2, XorBits(a / 2, k / 2, n - 1);
      LowBit(bit, rest);
      BitInvolution(a % 2, k % 2);
      XorBitsInvolution(a / 2, k / 2, n - 1);
    }
  }

  lemma LowBit(bit: nat, rest: nat)
    requires bit < 2
    ensures (bit + 2 * rest) % 2 == bit && (bit + 2 * rest) / 2 == rest
  {
  }

  lemma XorInvolution(a: bytes, k: bytes)
    requires |a| == |k|
    ensures Xor(Xor(a, k), k) == a
  {
    forall i | 0 <= i < |a|
      ensures Xor(Xor(a, k), k)[i] == a[i]
    {
      assert Pow2(8) == 256;
      XorBitsInvolution(a[i], k[i], 8);
    }
  }

  // ── Zero padding ────────────────────────────────────────────────────

  function Zeros(n: nat): (z: bytes)
    ensures |z| == n
  {
    seq(n, _ => 0)
  }
}
