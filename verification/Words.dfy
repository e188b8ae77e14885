/** Machine integers, 64-bit words and big-endian byte strings. */
module Words {
  const TWO_TO_THE_32: nat := 0x1_0000_0000
  const TWO_TO_THE_64: nat := 0x1_0000_0000_0000_0000
  const MAX_UINT64: nat := TWO_TO_THE_64 - 1

  type byte = x: int | 0 <= x < 256
  type int64 = x: int | -0x8000_0000_0000_0000 <= x < 0x8000_0000_0000_0000
  type uint64 = x: int | 0 <= x < TWO_TO_THE_64

  /** A machine word as its 64 bits, the lowest one first. */
  type Word = w: seq<bool> | |w| == 64 witness seq(64, _ => false)

  const ZERO: Word := seq(64, _ => false)
  const ONE: Word := seq(64, i => i == 0)

  /** The machine shift `w << n`: bits leave at the top, zeros enter at the bottom. */
  function Shl(w: Word, n: nat): Word {
    seq(64, i requires 0 <= i < 64 => i >= n && w[i - n])
  }

  function Or(v: Word, w: Word): Word {
    seq(64, i requires 0 <= i < 64 => v[i] || w[i])
  }

  function And(v: Word, w: Word): Word {
    seq(64, i requires 0 <= i < 64 => v[i] && w[i])
  }

  function Power256(width: nat): (p: nat)
    ensures p > 0
  {
    if width == 0 then 1 else 256 * Power256(width - 1)
  }

  /** The `width` low-order bytes of `n`, most significant first. */
  function BigEndian(n: nat, width: nat): (bytes: seq<byte>)
    ensures |bytes| == width
  {
    if width == 0 then [] else BigEndian(n / 256, width - 1) + [n % 256]
  }

  function FromBigEndian(bytes: seq<byte>): nat {
    if bytes == [] then 0 else 256 * FromBigEndian(bytes[..|bytes| - 1]) + bytes[|bytes| - 1]
  }

  /** The most significant byte comes first. */
  lemma BigEndianDigits(n: nat)
    ensures BigEndian(n, 4) == [n / 256 / 256 / 256 % 256, n / 256 / 256 % 256, n / 256 % 256, n % 256]
    ensures BigEndian(n, 8) == BigEndian(n / 256 / 256 / 256 / 256, 4) + BigEndian(n, 4)
  {
    assert BigEndian(n, 2) == [n / 256 % 256, n % 256];
    assert BigEndian(n / 256 / 256, 2) == [n / 256 / 256 / 256 % 256, n / 256 / 256 % 256];
    BigEndianSplit(n, 2);
    BigEndianSplit(n, 4);
    BigEndianSplit(n, 6);
    BigEndianSplit(n / 256 / 256, 4);
    BigEndianSplit(n / 256 / 256 / 256 / 256, 2);
  }

  lemma BigEndianSplit(n: nat, width: nat)
    ensures BigEndian(n, width + 2) == BigEndian(n / 256 / 256, width) + [n / 256 % 256, n % 256]
  {
    assert BigEndian(n, width + 2) == BigEndian(n / 256, width + 1) + [n % 256];
    assert BigEndian(n / 256, width + 1) == BigEndian(n / 256 / 256, width) + [n / 256 % 256];
  }

  /** Decoding an encoding gives the number back modulo the range of the field. */
  lemma {:induction false} BigEndianRoundTrip(n: nat, width: nat)
    ensures FromBigEndian(BigEndian(n, width)) == n % Power256(width)
  {
    if width > 0 {
      var bytes := BigEndian(n, width);
      assert bytes[..|bytes| - 1] == BigEndian(n / 256, width - 1);
      BigEndianRoundTrip(n / 256, width - 1);
      ModuloSplit(n, Power256(width - 1));
    }
  }

  lemma ModuloSplit(n: nat, p: nat)
    requires p > 0
    ensures 256 * ((n / 256) % p) + n % 256 == n % (256 * p)
  {
    var q, r := n / 256, n % 256;
    var d, m := q / p, q % p;
    assert n == (256 * p) * d + (256 * m + r) by {
      assert q == p * d + m;
    }
    ModuloUnique(n, 256 * p, d, 256 * m + r);
  }

  lemma ModuloUnique(n: nat, p: nat, d: nat, r: nat)
    requires r < p && n == p * d + r
    ensures n % p == r
  {
    var d', r' := n / p, n % p;
    StepApart(p, d', d);
    StepApart(p, d, d');
  }

  lemma StepApart(p: nat, a: nat, b: nat)
    ensures a < b ==> p * a + p <= p * b
  {
    if a < b {
      assert p * (a + 1) <= p * b;
    }
  }

  lemma Power256Values()
    ensures Power256(4) == TWO_TO_THE_32 && Power256(8) == TWO_TO_THE_64
  {
    assert Power256(2) == 0x1_0000;
    assert Power256(4) == TWO_TO_THE_32;
    assert Power256(6) == 0x1_0000_0000_0000;
  }
}
