/** Big-endian integers as encoding/binary writes and reads them. */
module Wire {
  import opened Basics

  const U16: nat := 0x1_0000
  const U32: nat := 0x1_0000_0000
  const U64: nat := 0x1_0000_0000_0000_0000

  function Pow256(k: nat): (p: nat)
    ensures p > 0
  {
    if k == 0 then 1 else 256 * Pow256(k - 1)
  }

  /** The k low-order bytes of n, most significant first. */
  function BigEndian(n: nat, k: nat): (bs: Bytes)
    ensures |bs| == k
  {
    if k == 0 then [] else BigEndian(n / 256, k - 1) + [n % 256]
  }

  function Unsigned(bs: Bytes): nat {
    if |bs| == 0 then 0 else 256 * Unsigned(bs[..|bs| - 1]) + bs[|bs| - 1]
  }

  lemma {:induction false} UnsignedInvertsBigEndian(n: nat, k: nat)
    requires n < Pow256(k)
    ensures Unsigned(BigEndian(n, k)) == n
  {
    if k > 0 {
      UnsignedInvertsBigEndian(n / 256, k - 1);
      assert BigEndian(n, k)[..k - 1] == BigEndian(n / 256, k - 1);
    }
  }

  /** The most significant byte comes first. */
  lemma {:induction false} BigEndianAt(n: nat, k: nat, i: nat)
    requires i < k
    ensures BigEndian(n, k)[i] == n / Pow256(k - 1 - i) % 256
  {
    if i < k - 1 {
      BigEndianAt(n / 256, k - 1, i);
      DivideTwice(n, Pow256(k - 2 - i));
    }
  }

  lemma DivideTwice(n: nat, d: nat)
    requires d > 0
    ensures 256 * d > 0 && n / 256 / d == n / (256 * d)
  {
    var e, q, r := 256 * d, n / 256 / d, n / 256 % d;
    Associates(d, q);
    SameQuotient(e, q, 256 * r + n % 256, n / e, n % e);
  }

  lemma Associates(d: nat, q: nat)
    ensures 256 * d * q == 256 * (d * q)
  {
  }

  lemma SameQuotient(d: nat, q: int, r: nat, p: int, s: nat)
    requires r < d && s < d && d * q + r == d * p + s
    ensures p == q
  {
    assert d * (q - p) == d * q - d * p == s - r;
    Multiple(d, q - p);
  }

  /** A multiple of d other than zero is at least d away from it. */
  lemma Multiple(d: int, gap: int)
    requires d >= 0
    ensures gap >= 1 ==> d * gap >= d
    ensures gap <= -1 ==> d * gap <= -d
  {
  }

  lemma Widths()
    ensures Pow256(2) == U16 && Pow256(4) == U32 && Pow256(8) == U64
  {
    assert Pow256(3) == 0x100_0000;
    assert Pow256(5) == 0x100_0000_0000;
    assert Pow256(7) == 0x100_0000_0000_0000;
  }
}
