/** Bytes, and the four-byte big-endian numbers that prefix the things they frame. */
module Bytes {
  type Byte = b: int | 0 <= b < 256

  const WORD_LIMIT := 0x1_0000_0000

  type Word = n: int | 0 <= n < WORD_LIMIT

  const LARGEST: Word := WORD_LIMIT - 1

  const PREFIX_LENGTH := 4

  /** A number as 32 bits can hold it: itself, or the largest there is. */
  function Saturated(n: nat): Word {
    if n < WORD_LIMIT then n else LARGEST
  }

  function Octet(n: int): Byte {
    n % 0x100
  }

  function BigEndian(n: Word): (bytes: seq<Byte>)
    ensures |bytes| == PREFIX_LENGTH
  {
    [Octet(n / 0x100_0000), Octet(n / 0x1_0000), Octet(n / 0x100), Octet(n)]
  }

  function FromBigEndian(bytes: seq<Byte>): Word
    requires |bytes| == PREFIX_LENGTH
  {
    Composed(bytes[0], bytes[1], bytes[2], bytes[3])
  }

  function Composed(a: int, b: int, c: int, d: int): int {
    a * 0x100_0000 + b * 0x1_0000 + c * 0x100 + d
  }

  /** A number is read back from its prefix, so no two numbers share one. */
  lemma PrefixRoundTrip(n: Word)
    ensures FromBigEndian(BigEndian(n)) == n
  {
    var m: int := n;
    assert m / 0x100 == m / 0x1_0000 * 0x100 + m / 0x100 % 0x100;
    assert m / 0x1_0000 == m / 0x100_0000 * 0x100 + m / 0x1_0000 % 0x100;
  }

  lemma Parted(high: int, low: int, unit: int, n: int)
    requires unit > 0 && 0 <= low < unit && n == high * unit + low
    ensures n / unit == high && n % unit == low
  {
    if n / unit < high {
      assert n / unit + 1 <= high;
      Monotone(n / unit + 1, high, unit);
    } else if n / unit > high {
      Monotone(high + 1, n / unit, unit);
    }
  }

  lemma Monotone(a: int, b: int, unit: int)
    requires a <= b && unit > 0
    ensures a * unit <= b * unit
  {
  }

  /** Every four bytes are the prefix of the number read from them. */
  lemma PrefixReadBack(bytes: seq<Byte>)
    requires |bytes| == PREFIX_LENGTH
    ensures BigEndian(FromBigEndian(bytes)) == bytes
  {
    var a: int, b: int, c: int, d: int := bytes[0], bytes[1], bytes[2], bytes[3];
    var n := Composed(a, b, c, d);
    Parted(a * 0x1_0000 + b * 0x100 + c, d, 0x100, n);
    Parted(a * 0x100 + b, c * 0x100 + d, 0x1_0000, n);
    Parted(a, b * 0x1_0000 + c * 0x100 + d, 0x100_0000, n);
    Parted(a * 0x100 + b, c, 0x100, n / 0x100);
    Parted(a, b, 0x100, n / 0x1_0000);
    Parted(0, a, 0x100, n / 0x100_0000);
  }
}
