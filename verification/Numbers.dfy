/** Bytes and big-endian integers. */
module Numbers {

  type Byte = n: nat | n < 256 witness 0

  type Bytes = seq<Byte>

  function Pow256(width: nat): (r: nat)
    ensures r > 0
  {
    if width == 0 then 1 else 256 * Pow256(width - 1)
  }

  /** The number the bytes stand for, most significant first. */
  function Value(b: Bytes): nat {
    if |b| == 0 then 0 else 256 * Value(b[..|b| - 1]) + b[|b| - 1]
  }

  function BigEndian(n: nat, width: nat): (b: Bytes)
    ensures |b| == width
  {
    if width == 0 then [] else BigEndian(n / 256, width - 1) + [n % 256]
  }

  lemma {:induction false} ValueBounds(b: Bytes)
    ensures Value(b) < Pow256(|b|)
  {
    if |b| > 0 {
      ValueBounds(b[..|b| - 1]);
    }
  }

  lemma {:induction false} ValueOfBigEndian(n: nat, width: nat)
    requires n < Pow256(width)
    ensures Value(BigEndian(n, width)) == n
  {
    if width > 0 {
      ValueOfBigEndian(n / 256, width - 1);
      var b := BigEndian(n, width);
      assert b[..|b| - 1] == BigEndian(n / 256, width - 1);
    }
  }

  lemma {:induction false} BigEndianOfValue(b: Bytes)
    ensures BigEndian(Value(b), |b|) == b
  {
    if |b| > 0 {
      BigEndianOfValue(b[..|b| - 1]);
      assert b == b[..|b| - 1] + [b[|b| - 1]];
    }
  }

  // ------------------------------------------------------------ two's complement

  const TWO63: int := 0x8000_0000_0000_0000
  const TWO64: int := 0x1_0000_0000_0000_0000

  function ToSigned(n: nat): int {
    if n < TWO63 then n else n - TWO64
  }

  function FromSigned(i: int): nat
    requires -TWO63 <= i < TWO63
  {
    if i >= 0 then i else i + TWO64
  }

  lemma SignedRoundTrips(n: nat, i: int)
    ensures n < TWO64 ==> -TWO63 <= ToSigned(n) < TWO63 && FromSigned(ToSigned(n)) == n
    ensures -TWO63 <= i < TWO63 ==> FromSigned(i) < TWO64 && ToSigned(FromSigned(i)) == i
  {
  }

  /** Both are readings of one pattern of 64 bits: they differ by a multiple of 2^64, and the signed
      one lies around zero. */
  lemma SignedIsCongruent(n: nat, i: int)
    ensures n < TWO64 ==> -0x8000_0000_0000_0000 <= ToSigned(n) < 0x8000_0000_0000_0000
    ensures n < TWO64 ==> (ToSigned(n) - n) % 0x1_0000_0000_0000_0000 == 0
    ensures -TWO63 <= i < TWO63 ==> FromSigned(i) < 0x1_0000_0000_0000_0000
    ensures -TWO63 <= i < TWO63 ==> (FromSigned(i) - i) % 0x1_0000_0000_0000_0000 == 0
  {
  }

  /** Four and eight bytes, written out: the most significant comes first. */
  function Four(n: nat): (b: Bytes)
    requires n < 0x1_0000_0000
    ensures |b| == 4
  {
    [n / 0x100_0000, n / 0x1_0000 % 0x100, n / 0x100 % 0x100, n % 0x100]
  }

  function Eight(n: nat): (b: Bytes)
    requires n < TWO64
    ensures |b| == 8
  {
    Four(n / 0x1_0000_0000) + Four(n % 0x1_0000_0000)
  }

  lemma FourBytes(n: nat)
    requires n < 0x1_0000_0000
    ensures BigEndian(n, 4) == Four(n)
  {
    var a, b, c := n / 256, n / 256 / 256, n / 256 / 256 / 256;
    assert BigEndian(c, 1) == [c % 256];
    assert BigEndian(b, 2) == [c % 256, b % 256];
    assert BigEndian(a, 3) == [c % 256, b % 256, a % 256];
    assert c == n / 0x100_0000 && b == n / 0x1_0000 && a == n / 0x100;
  }

  lemma LastByte(k: nat, n: nat, width: nat)
    ensures BigEndian(256 * k + n, width + 1) == BigEndian(k + n / 256, width) + [n % 256]
  {
    assert (256 * k + n) / 256 == k + n / 256 && (256 * k + n) % 256 == n % 256;
  }

  lemma EightBytes(n: nat)
    requires n < TWO64
    ensures BigEndian(n, 8) == Eight(n)
  {
    hide BigEndian;
    var high, low := n / 0x1_0000_0000, n % 0x1_0000_0000;
    var a := low / 256;
    var b := a / 256;
    var c := b / 256;
    LowIsFour(low);
    FourBytes(high);
    hide Four;
    LastByte(high * 0x100_0000, low, 7);
    LastByte(high * 0x1_0000, a, 6);
    LastByte(high * 0x100, b, 5);
    LastByte(high, c, 4);
    assert BigEndian(n, 8) == BigEndian(high * 0x100_0000 + a, 7) + [low % 256];
    assert BigEndian(high * 0x100_0000 + a, 7) == BigEndian(high * 0x1_0000 + b, 6) + [a % 256];
    assert BigEndian(high * 0x1_0000 + b, 6) == BigEndian(high * 0x100 + c, 5) + [b % 256];
  }

  lemma LowIsFour(low: nat)
    requires low < 0x1_0000_0000
    ensures Four(low) == [low / 256 / 256 / 256 % 256, low / 256 / 256 % 256, low / 256 % 256, low % 256]
    ensures low / 256 / 256 / 256 / 256 == 0
  {
  }

  /** And what bytes stand for. */
  lemma FourMeans(b: Bytes)
    requires |b| == 4
    ensures Value(b) == 0x100_0000 * (b[0] as int) + 0x1_0000 * (b[1] as int) + 0x100 * (b[2] as int) + b[3]
  {
    assert b[..3][..2] == b[..2] && b[..2][..1] == b[..1] && b[..1][..0] == [];
    assert Value(b[..1]) == b[0];
    assert Value(b[..2]) == 0x100 * (b[0] as int) + b[1];
    assert Value(b[..3]) == 0x1_0000 * (b[0] as int) + 0x100 * (b[1] as int) + b[2];
  }

  lemma Widths()
    ensures Pow256(1) == 256 && Pow256(2) == 0x1_0000 && Pow256(4) == 0x1_0000_0000 && Pow256(8) == TWO64
  {
    assert Pow256(1) == 256 * Pow256(0);
    assert Pow256(2) == 256 * Pow256(1);
    assert Pow256(3) == 256 * Pow256(2);
    assert Pow256(4) == 256 * Pow256(3);
    assert Pow256(5) == 256 * Pow256(4);
    assert Pow256(6) == 256 * Pow256(5);
    assert Pow256(7) == 256 * Pow256(6);
    assert Pow256(8) == 256 * Pow256(7);
  }

  // -------------------------------------------------------------- shift and or

  /** Bitwise or of two bit patterns. */
  function Or(a: nat, b: nat): nat {
    if a == 0 then b else 2 * Or(a / 2, b / 2) + (if a % 2 == 1 || b % 2 == 1 then 1 else 0)
  }

  function Pow2(n: nat): (r: nat)
    ensures r > 0
  {
    if n == 0 then 1 else 2 * Pow2(n - 1)
  }

  lemma OrOfDouble(m: nat, b: nat)
    ensures Or(2 * m, b) == 2 * Or(m, b / 2) + b % 2
  {
  }

  lemma {:induction false} OrOfDisjointBits(k: nat, b: nat, n: nat)
    requires b < Pow2(n)
    ensures Or(k * Pow2(n), b) == k * Pow2(n) + b
  {
    if n == 0 {
      OrWithZero(k);
    } else {
      var m := k * Pow2(n - 1);
      assert k * Pow2(n) == 2 * m;
      OrOfDouble(m, b);
      OrOfDisjointBits(k, b / 2, n - 1);
    }
  }

  lemma {:induction false} OrWithZero(a: nat)
    ensures Or(a, 0) == a
  {
    if a != 0 {
      OrWithZero(a / 2);
    }
  }

  /** Shifting an integer of `width` bytes left by one byte drops what no longer fits. */
  function ShiftByte(a: nat, width: nat): nat {
    (a * 256) % Pow256(width)
  }

  function ShiftAndOr(b: Bytes, width: nat): nat {
    if |b| == 0 then 0 else Or(ShiftByte(ShiftAndOr(b[..|b| - 1], width), width), b[|b| - 1])
  }

  /** Folding bytes with shift-and-or in a fixed width is big-endian decoding. */
  lemma {:induction false} ShiftAndOrIsValue(b: Bytes, width: nat)
    requires |b| <= width
    ensures ShiftAndOr(b, width) == Value(b)
  {
    if |b| > 0 {
      var front := b[..|b| - 1];
      ShiftAndOrIsValue(front, width);
      ValueBounds(front);
      PowGrows(|b|, width);
      assert Pow256(|b|) == 256 * Pow256(|front|);
      assert Value(front) * 256 < Pow256(width);
      NoWrap(Value(front) * 256, Pow256(width));
      assert Pow2(8) == 256 by { PowersOfTwo(); }
      OrOfDisjointBits(Value(front), b[|b| - 1], 8);
    }
  }

  lemma NoWrap(a: nat, m: nat)
    requires a < m
    ensures a % m == a
  {
  }

  lemma PowersOfTwo()
    ensures Pow2(8) == 256
  {
    assert Pow2(4) == 16;
    assert Pow2(6) == 4 * Pow2(4);
    assert Pow2(8) == 4 * Pow2(6);
  }

  lemma {:induction false} PowGrows(a: nat, b: nat)
    requires a <= b
    ensures Pow256(a) <= Pow256(b)
  {
    if a < b {
      PowGrows(a, b - 1);
    }
  }
}
