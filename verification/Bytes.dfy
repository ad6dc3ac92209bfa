/** Byte strings and big-endian integers. */
module Bytes {

  type byte = x: int | 0 <= x < 256

  /** 256 to the power n. */
  function Radix(n: nat): (r: nat)
    ensures r >= 1
  {
    if n == 0 then 1 else 256 * Radix(n - 1)
  }

  /** The number whose big-endian bytes these are. */
  function FromBigEndian(bytes: seq<byte>): (n: nat)
    ensures n < Radix(|bytes|)
  {
    if bytes == [] then 0
    else 256 * FromBigEndian(bytes[..|bytes| - 1]) + bytes[|bytes| - 1]
  }

  /** The big-endian bytes of n, `width` of them. */
  function BigEndian(n: nat, width: nat): (bytes: seq<byte>)
    ensures |bytes| == width
  {
    if width == 0 then [] else BigEndian(n / 256, width - 1) + [n % 256]
  }

  /** Writing a number that fits and reading it back. */
  lemma {:induction false} BigEndianRoundTrip(n: nat, width: nat)
    requires n < Radix(width)
    ensures FromBigEndian(BigEndian(n, width)) == n
  {
    if width > 0 {
      BigEndianRoundTrip(n / 256, width - 1);
      assert BigEndian(n, width)[..width - 1] == BigEndian(n / 256, width - 1);
    }
  }

  /** Reading some bytes and writing them again. */
  lemma {:induction false} BigEndianOfBytes(bytes: seq<byte>)
    ensures BigEndian(FromBigEndian(bytes), |bytes|) == bytes
  {
    if bytes != [] {
      BigEndianOfBytes(bytes[..|bytes| - 1]);
    }
  }

  lemma {:induction false} BigEndianInjective(m: nat, n: nat, width: nat)
    requires m < Radix(width) && n < Radix(width)
    requires BigEndian(m, width) == BigEndian(n, width)
    ensures m == n
  {
    BigEndianRoundTrip(m, width);
    BigEndianRoundTrip(n, width);
  }
}
