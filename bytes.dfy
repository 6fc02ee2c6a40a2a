/** Octets and the unsigned integer packings used on both serial links. */
module Bytes {

  /** One octet as read from or written to a serial port. */
  type byte = x: int | 0 <= x < 256

  /** 256 to the power n: the number of values an n-byte unsigned field can hold. */
  function Pow256(n: nat): (r: nat)
    ensures r > 0
    ensures n > 0 ==> r >= 256
  {
    if n == 0 then 1 else 256 * Pow256(n - 1)
  }

  /** Big-endian unsigned value of a byte string: the first byte is the most
      significant one, as when the bytes' hex digits are joined and read in base 16. */
  function BeValue(s: seq<byte>): (r: nat)
    ensures r < Pow256(|s|)
  {
    if s == [] then 0 else BeValue(s[..|s| - 1]) * 256 + s[|s| - 1]
  }

  /** The n-byte big-endian representation of v (the inverse of BeValue). */
  function BeBytes(v: nat, n: nat): (r: seq<byte>)
    requires v < Pow256(n)
    ensures |r| == n
    ensures BeValue(r) == v
  {
    if n == 0 then []
    else
      var r := BeBytes(v / 256, n - 1) + [v % 256];
      assert r[..|r| - 1] == BeBytes(v / 256, n - 1);
      r
  }

  /** Reading a byte string big-endian and writing the value back gives the string. */
  lemma {:induction false} BeBytesOfValue(s: seq<byte>)
    ensures BeBytes(BeValue(s), |s|) == s
  {
    if s != [] {
      var p := s[..|s| - 1];
      BeBytesOfValue(p);
      assert BeValue(s) / 256 == BeValue(p);
      assert BeValue(s) % 256 == s[|s| - 1];
      assert s == p + [s[|s| - 1]];
    }
  }

  /** The two bytes of a 16-bit unsigned value, least significant first
      (int.to_bytes(2, 'little')). */
  function Le16(v: int): (r: seq<byte>)
    requires 0 <= v < 0x1_0000
    ensures |r| == 2
    ensures r[0] as int + 256 * (r[1] as int) == v
  {
    [v % 256, v / 256]
  }

  /** The value of a two-byte little-endian field. */
  function Le16Value(lo: byte, hi: byte): (r: nat)
    ensures r < 0x1_0000
    ensures Le16(r) == [lo, hi]
  {
    lo as int + 256 * (hi as int)
  }
}
