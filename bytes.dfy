/** The fixed-width integers of the x86_64 UEFI ABI and the little-endian
    byte codec in which the firmware stores multi-byte fields. */
module Bytes {
  type u8 = x: int | 0 <= x < 0x100
  type u16 = x: int | 0 <= x < 0x1_0000
  type u32 = x: int | 0 <= x < 0x1_0000_0000
  type u64 = x: int | 0 <= x < 0x1_0000_0000_0000_0000
  /** `usize` on the x86_64 target. */
  type usize = u64
  type i64 = x: int | -0x8000_0000_0000_0000 <= x < 0x8000_0000_0000_0000

  const TWO_POW_64: nat := 0x1_0000_0000_0000_0000

  function Pow256(n: nat): (p: nat)
    ensures p >= 1
  {
    if n == 0 then 1 else 256 * Pow256(n - 1)
  }

  lemma Pow256Of8()
    ensures Pow256(8) == TWO_POW_64
  {
    assert Pow256(4) == 0x1_0000_0000;
  }

  /** The unsigned value stored in `b`, least significant byte first. */
  function LeValue(b: seq<u8>): (v: nat)
    ensures v < Pow256(|b|)
  {
    if b == [] then 0 else b[0] + 256 * LeValue(b[1..])
  }

  /** The `n` bytes that store `v`, least significant byte first. */
  function LeBytes(v: nat, n: nat): (b: seq<u8>)
    requires v < Pow256(n)
    ensures |b| == n
  {
    if n == 0 then [] else [v % 256] + LeBytes(v / 256, n - 1)
  }

  /** Storing a value and reading it back gives the value. */
  lemma {:induction false} LeValueOfLeBytes(v: nat, n: nat)
    requires v < Pow256(n)
    ensures LeValue(LeBytes(v, n)) == v
  {
    if n > 0 {
      LeValueOfLeBytes(v / 256, n - 1);
      assert LeBytes(v, n)[1..] == LeBytes(v / 256, n - 1);
    }
  }

  /** Reading bytes and storing the value again gives the same bytes: the codec loses nothing. */
  lemma {:induction false} LeBytesOfLeValue(b: seq<u8>)
    ensures LeBytes(LeValue(b), |b|) == b
  {
    if b != [] {
      LeBytesOfLeValue(b[1..]);
      var v := LeValue(b);
      assert v % 256 == b[0];
      assert v / 256 == LeValue(b[1..]);
      assert b == [b[0]] + b[1..];
    }
  }

  /** An 8-byte little-endian field read as `u64`. */
  function LeU64(b: seq<u8>): (v: u64)
    requires |b| == 8
  {
    Pow256Of8();
    LeValue(b)
  }

  /** The 8 bytes of a `u64` field. */
  function U64Bytes(v: u64): (b: seq<u8>)
    ensures |b| == 8 && LeU64(b) == v
  {
    Pow256Of8();
    LeValueOfLeBytes(v, 8);
    LeBytes(v, 8)
  }

  lemma U64BytesOfLeU64(b: seq<u8>)
    requires |b| == 8
    ensures U64Bytes(LeU64(b)) == b
  {
    LeBytesOfLeValue(b);
  }

  /** A 64-bit pattern read as a two's-complement `i64`. */
  function AsI64(v: u64): i64
  {
    if v < 0x8000_0000_0000_0000 then v else v - TWO_POW_64
  }

  /** The 64-bit pattern of an `i64`; the inverse of `AsI64`. */
  function AsU64(x: i64): (v: u64)
    ensures AsI64(v) == x
  {
    if x >= 0 then x else x + TWO_POW_64
  }

  lemma AsU64OfAsI64(v: u64)
    ensures AsU64(AsI64(v)) == v
  {
  }
}
