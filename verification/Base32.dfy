/** Numbers written in Crockford base 32, and the order of such strings (internal/shared/ids/ids.go). */
module Base32 {
  import opened Products

  const CROCKFORD: string := "0123456789ABCDEFGHJKMNPQRSTVWXYZ"

  function Pow32(n: nat): (p: nat)
    ensures p > 0
  {
    if n == 0 then 1 else 32 * Pow32(n - 1)
  }

  /** The last `len` base-32 digits of a number, most significant first. */
  function Digits(value: nat, len: nat): (s: string)
    ensures |s| == len
    ensures forall c | c in s :: c in CROCKFORD
  {
    if len == 0 then "" else Digits(value / 32, len - 1) + [CROCKFORD[value % 32]]
  }

  predicate IsCrockford(c: char) {
    || '0' <= c <= '9'
    || 'A' <= c <= 'H'
    || 'J' <= c <= 'K'
    || 'M' <= c <= 'N'
    || 'P' <= c <= 'T'
    || 'V' <= c <= 'Z'
  }

  /** The position of a digit in the alphabet, by the gaps where I, L, O and U are left out. */
  function DigitValue(c: char): (v: nat)
    requires IsCrockford(c)
    ensures v < 32 && CROCKFORD[v] == c
  {
    if c <= '9' then (c - '0') as nat
    else if c <= 'H' then (c - 'A') as nat + 10
    else if c <= 'K' then (c - 'J') as nat + 18
    else if c <= 'N' then (c - 'M') as nat + 20
    else if c <= 'T' then (c - 'P') as nat + 22
    else (c - 'V') as nat + 27
  }

  /** The character ranges of isCrockford are exactly the alphabet. */
  lemma AlphabetExactly(c: char)
    ensures IsCrockford(c) <==> c in CROCKFORD
  {
    if IsCrockford(c) {
      assert CROCKFORD[DigitValue(c)] == c;
    }
  }

  lemma DigitValueOf(v: nat)
    requires v < 32
    ensures IsCrockford(CROCKFORD[v]) && DigitValue(CROCKFORD[v]) == v
  {
    AlphabetExactly(CROCKFORD[v]);
  }

  predicate AllCrockford(s: string) {
    forall i | 0 <= i < |s| :: IsCrockford(s[i])
  }

  function Decode(s: string): nat
    requires AllCrockford(s)
  {
    if s == [] then 0 else 32 * Decode(s[..|s| - 1]) + DigitValue(s[|s| - 1])
  }

  lemma DigitsAreCrockford(value: nat, len: nat)
    ensures AllCrockford(Digits(value, len))
  {
    forall i | 0 <= i < len ensures IsCrockford(Digits(value, len)[i]) {
      assert Digits(value, len)[i] in Digits(value, len);
      AlphabetExactly(Digits(value, len)[i]);
    }
  }

  lemma ModStep(value: nat, p: nat)
    requires p > 0
    ensures value % (32 * p) == 32 * (value / 32 % p) + value % 32
  {
    var q := value / 32;
    var k, r := q / p, q % p;
    assert q == p * k + r;
    assert (32 * p) * k == 32 * (p * k);
    Remainder(value, 32 * p, k, 32 * r + value % 32);
  }

  /** Decoding recovers a number exactly when it fits the digits, and its remainder otherwise. */
  lemma {:induction false} DecodeDigits(value: nat, len: nat)
    ensures AllCrockford(Digits(value, len)) && Decode(Digits(value, len)) == value % Pow32(len)
  {
    DigitsAreCrockford(value, len);
    if len > 0 {
      DecodeDigits(value / 32, len - 1);
      DigitValueOf(value % 32);
      assert Digits(value, len)[..len - 1] == Digits(value / 32, len - 1);
      ModStep(value, Pow32(len - 1));
    }
  }

  /** A number is recovered from its digits exactly when there are enough of them. */
  lemma DecodesWhenItFits(value: nat, len: nat)
    ensures AllCrockford(Digits(value, len))
    ensures Decode(Digits(value, len)) == value <==> value < Pow32(len)
  {
    DecodeDigits(value, len);
    if value < Pow32(len) { Remainder(value, Pow32(len), 0, value); }
  }

  lemma {:induction false} DecodeBound(s: string)
    requires AllCrockford(s)
    ensures Decode(s) < Pow32(|s|)
  {
    if s != [] { DecodeBound(s[..|s| - 1]); }
  }

  /** Encoding what was decoded gives the digits back. */
  lemma {:induction false} DigitsDecode(s: string)
    requires AllCrockford(s)
    ensures Digits(Decode(s), |s|) == s
  {
    if s != [] {
      var init := s[..|s| - 1];
      DigitsDecode(init);
      assert Decode(s) / 32 == Decode(init) && Decode(s) % 32 == DigitValue(s[|s| - 1]);
      assert s == init + [s[|s| - 1]];
    }
  }

  // ---- Order ----

  /** Byte-wise lexicographic order of strings. */
  predicate Less(a: string, b: string) {
    if a == [] then b != []
    else if b == [] then false
    else a[0] < b[0] || (a[0] == b[0] && Less(a[1..], b[1..]))
  }

  lemma DigitOrder(c: char, d: char)
    requires IsCrockford(c) && IsCrockford(d)
    ensures c < d <==> DigitValue(c) < DigitValue(d)
  {}

  lemma {:induction false} DecodeFirst(s: string)
    requires AllCrockford(s) && s != []
    ensures AllCrockford(s[1..]) && Decode(s) == DigitValue(s[0]) * Pow32(|s| - 1) + Decode(s[1..])
  {
    var n := |s| - 1;
    if n > 0 {
      var init, rest := s[..n], s[1..];
      DecodeFirst(init);
      assert init[1..] == rest[..n - 1] && rest[n - 1] == s[n] && init[0] == s[0];
      assert Decode(rest) == 32 * Decode(init[1..]) + DigitValue(s[n]);
      assert Decode(s) == 32 * Decode(init) + DigitValue(s[n]);
      ScaleBy32(DigitValue(s[0]), Pow32(n - 1));
    } else {
      assert s[1..] == [] && s[..0] == [];
    }
  }

  lemma ScaleBy32(a: nat, p: nat)
    ensures 32 * (a * p) == a * (32 * p)
  {}

  lemma FirstDigitDecides(a: nat, b: nat, p: nat, x: nat, y: nat)
    requires x < p && y < p
    ensures a * p + x < b * p + y <==> a < b || (a == b && x < y)
  {
    if a < b {
      Below(p, a, b);
    } else if b < a {
      Below(p, b, a);
    }
  }

  /** Of two digit strings of one length, the lexicographically smaller is the numerically smaller. */
  lemma {:induction false} OrderAgrees(a: string, b: string)
    requires |a| == |b| && AllCrockford(a) && AllCrockford(b)
    ensures Less(a, b) <==> Decode(a) < Decode(b)
  {
    if a != [] {
      DecodeFirst(a);
      DecodeFirst(b);
      OrderAgrees(a[1..], b[1..]);
      DecodeBound(a[1..]);
      DecodeBound(b[1..]);
      DigitOrder(a[0], b[0]);
      FirstDigitDecides(DigitValue(a[0]), DigitValue(b[0]), Pow32(|a| - 1), Decode(a[1..]), Decode(b[1..]));
    }
  }

  /** Comparing concatenations compares the first parts, then the second parts. */
  lemma {:induction false} LessConcat(a: string, x: string, b: string, y: string)
    requires |a| == |b|
    ensures Less(a + x, b + y) <==> Less(a, b) || (a == b && Less(x, y))
  {
    if a != [] {
      assert (a + x)[1..] == a[1..] + x && (b + y)[1..] == b[1..] + y;
      assert a == [a[0]] + a[1..] && b == [b[0]] + b[1..];
      LessConcat(a[1..], x, b[1..], y);
    } else {
      assert a + x == x && b + y == y;
    }
  }
}
