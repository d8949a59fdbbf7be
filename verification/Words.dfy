/** Unsigned words of Go widths, and byte strings read as numbers. */
module Words {
  newtype uint8 = x: int | 0 <= x < 0x100
  newtype uint16 = x: int | 0 <= x < 0x1_0000
  newtype uint64 = x: int | 0 <= x < 0x1_0000_0000_0000_0000

  /** The number that bytes spell in big-endian order. */
  function BigEndian(bytes: seq<uint8>): nat {
    if bytes == [] then 0 else 256 * BigEndian(bytes[..|bytes| - 1]) + bytes[|bytes| - 1] as nat
  }

  function Pow256(n: nat): nat {
    if n == 0 then 1 else 256 * Pow256(n - 1)
  }

  lemma {:induction false} Pow256Bound(n: nat)
    requires n <= 7
    ensures Pow256(n) <= 0x100_0000_0000_0000
  {
    assert Pow256(7) == 0x100_0000_0000_0000 by {
      assert Pow256(4) == 0x1_0000_0000;
    }
    if n < 7 { Pow256Grows(n, 7); }
  }

  lemma {:induction false} Pow256Grows(n: nat, k: nat)
    requires n <= k
    ensures 0 < Pow256(n) <= Pow256(k)
  {
    if n > 0 { Pow256Grows(n - 1, k - 1); } else if k > 0 { Pow256Grows(0, k - 1); }
  }

  lemma Shift(hi: nat, p: nat, lo: nat, b: nat)
    ensures 256 * (hi * p + lo) + b == hi * (256 * p) + (256 * lo + b)
  {}

  lemma {:induction false} BigEndianConcat(a: seq<uint8>, b: seq<uint8>)
    ensures BigEndian(a + b) == BigEndian(a) * Pow256(|b|) + BigEndian(b)
  {
    if b != [] {
      var n := |b| - 1;
      BigEndianConcat(a, b[..n]);
      assert (a + b)[..|a| + n] == a + b[..n] && (a + b)[|a| + n] == b[n];
      Shift(BigEndian(a), Pow256(n), BigEndian(b[..n]), b[n] as nat);
    } else {
      assert a + b == a;
    }
  }

  lemma {:induction false} BigEndianBound(bytes: seq<uint8>)
    ensures BigEndian(bytes) < Pow256(|bytes|)
  {
    if bytes != [] { BigEndianBound(bytes[..|bytes| - 1]); }
  }

  lemma {:induction false} BigEndianInjective(a: seq<uint8>, b: seq<uint8>)
    requires |a| == |b| && BigEndian(a) == BigEndian(b)
    ensures a == b
  {
    if a != [] {
      var n := |a| - 1;
      BigEndianInjective(a[..n], b[..n]);
      assert a == a[..n] + [a[n]] && b == b[..n] + [b[n]];
    }
  }
}
