/** Decimal numerals as text, and what number of base units such a text denotes. */
module Decimal {
  import opened Products

  predicate IsDigit(c: char) {
    '0' <= c <= '9'
  }

  predicate DigitsOnly(s: string) {
    forall i | 0 <= i < |s| :: IsDigit(s[i])
  }

  function DigitValue(c: char): (v: nat)
    requires IsDigit(c)
    ensures v < 10
  {
    (c - '0') as nat
  }

  function Pow10(n: nat): (p: nat)
    ensures p > 0
  {
    if n == 0 then 1 else 10 * Pow10(n - 1)
  }

  function Num(s: string): nat
    requires DigitsOnly(s)
  {
    if s == [] then 0 else 10 * Num(s[..|s| - 1]) + DigitValue(s[|s| - 1])
  }

  function Zeros(n: nat): (s: string)
    ensures |s| == n && forall i | 0 <= i < n :: s[i] == '0'
  {
    seq(n, i => '0')
  }

  /** strings.Split(s, "."). */
  function Split(s: string): (parts: seq<string>)
    ensures parts != []
  {
    if s == [] then [""]
    else
      var rest := Split(s[1..]);
      if s[0] == '.' then [""] + rest else [[s[0]] + rest[0]] + rest[1..]
  }

  /** strings.TrimLeft and strings.TrimRight with a single character. */
  function TrimLeft(s: string, c: char): (t: string)
    ensures |t| <= |s|
    ensures forall x | x in t :: x in s
    ensures t == [] || t[0] != c
  {
    if s != [] && s[0] == c then TrimLeft(s[1..], c) else s
  }

  function TrimRight(s: string, c: char): (t: string)
    ensures |t| <= |s| && s[..|t|] == t
    ensures forall i | |t| <= i < |s| :: s[i] == c
    ensures t == [] || t[|t| - 1] != c
  {
    if s != [] && s[|s| - 1] == c then TrimRight(s[..|s| - 1], c) else s
  }

  // ---- Meaning ----

  function Whole(text: string): string {
    Split(text)[0]
  }

  function Frac(text: string): string {
    if |Split(text)| == 2 then Split(text)[1] else ""
  }

  /** Digits with at most one point among them. */
  predicate Plain(text: string) {
    |Split(text)| <= 2 && DigitsOnly(Whole(text)) && DigitsOnly(Frac(text))
  }

  /** The number written by `text` is exactly n / 10^decimals. */
  predicate Denotes(text: string, n: nat, decimals: nat) {
    && Plain(text)
    && n * Pow10(|Frac(text)|) == Num(Whole(text) + Frac(text)) * Pow10(decimals)
  }

  // ---- Powers and products ----

  lemma {:induction false} Pow10Add(a: nat, b: nat)
    ensures Pow10(a + b) == Pow10(a) * Pow10(b)
  {
    if a > 0 {
      Pow10Add(a - 1, b);
      Regroup(10, Pow10(a - 1), Pow10(b));
    }
  }

  /** A text denotes at most one number of base units. */
  lemma DenotesOne(text: string, n: nat, m: nat, decimals: nat)
    requires Denotes(text, n, decimals) && Denotes(text, m, decimals)
    ensures n == m
  {
    Cancel(n, m, Pow10(|Frac(text)|));
  }

  // ---- Numerals ----

  lemma {:induction false} NumConcat(a: string, b: string)
    requires DigitsOnly(a) && DigitsOnly(b)
    ensures DigitsOnly(a + b) && Num(a + b) == Num(a) * Pow10(|b|) + Num(b)
  {
    if b != [] {
      var n := |b| - 1;
      NumConcat(a, b[..n]);
      assert (a + b)[..|a| + n] == a + b[..n] && (a + b)[|a| + n] == b[n];
      ScaleBy10(Num(a), Pow10(n), Num(b[..n]));
    } else {
      assert a + b == a;
    }
  }

  lemma ScaleBy10(a: nat, p: nat, b: nat)
    ensures 10 * (a * p + b) == a * (10 * p) + 10 * b
  {}

  /** Numerals are read in base ten: appending the digit d multiplies by ten and adds d. */
  lemma NumeralsAreDecimal(s: string, d: nat)
    requires DigitsOnly(s) && d < 10
    ensures var more := s + ["0123456789"[d]];
      Num("") == 0 && DigitsOnly(more) && Num(more) == 10 * Num(s) + d
  {
    var more := s + ["0123456789"[d]];
    assert more[..|s|] == s;
  }

  lemma {:induction false} NumZeros(n: nat)
    ensures DigitsOnly(Zeros(n)) && Num(Zeros(n)) == 0
  {
    if n > 0 {
      NumZeros(n - 1);
      assert Zeros(n)[..n - 1] == Zeros(n - 1);
    }
  }

  lemma NumPadded(a: string, k: nat)
    requires DigitsOnly(a)
    ensures DigitsOnly(a + Zeros(k)) && Num(a + Zeros(k)) == Num(a) * Pow10(k)
  {
    NumZeros(k);
    NumConcat(a, Zeros(k));
  }

  lemma LeadingZero(s: string)
    requires DigitsOnly(s)
    ensures DigitsOnly("0" + s) && Num("0" + s) == Num(s)
  {
    NumConcat("0", s);
    assert "0"[..0] == "";
    assert Num("0") == 0;
  }

  lemma {:induction false} NumTrimLeft(s: string)
    requires DigitsOnly(s)
    ensures DigitsOnly(TrimLeft(s, '0')) && Num(TrimLeft(s, '0')) == Num(s)
    ensures TrimLeft(s, '0') == "" <==> Num(s) == 0
  {
    if s != [] && s[0] == '0' {
      NumTrimLeft(s[1..]);
      LeadingZero(s[1..]);
      assert s == "0" + s[1..];
    } else if s != [] {
      PositiveLead(s);
    }
  }

  lemma {:induction false} PositiveLead(s: string)
    requires DigitsOnly(s) && s != [] && s[0] != '0'
    ensures Num(s) > 0
  {
    if |s| > 1 {
      PositiveLead(s[..|s| - 1]);
    } else {
      assert s[..0] == "";
    }
  }

  lemma TrimRightZeros(s: string)
    requires DigitsOnly(s)
    ensures DigitsOnly(TrimRight(s, '0'))
    ensures s == TrimRight(s, '0') + Zeros(|s| - |TrimRight(s, '0')|)
  {
    var t := TrimRight(s, '0');
    assert forall i | 0 <= i < |t| :: t[i] == s[i];
  }

  // ---- Splitting ----

  /** Splitting undoes joining with a point. */
  lemma {:induction false} SplitMeaning(s: string)
    ensures forall i | 0 <= i < |Split(s)| :: '.' !in Split(s)[i]
    ensures forall c | c in s :: c == '.' || exists i | 0 <= i < |Split(s)| :: c in Split(s)[i]
    ensures forall i, c | 0 <= i < |Split(s)| && c in Split(s)[i] :: c in s
    ensures |Split(s)| == 1 ==> s == Split(s)[0]
    ensures |Split(s)| == 2 ==> s == Split(s)[0] + "." + Split(s)[1]
  {
    if s != [] {
      SplitMeaning(s[1..]);
      var rest := Split(s[1..]);
      assert s == [s[0]] + s[1..];
      if s[0] == '.' {
        assert forall i | 0 <= i < |rest| :: Split(s)[i + 1] == rest[i];
      } else {
        assert Split(s)[0] == [s[0]] + rest[0];
        assert forall i | 1 <= i < |rest| :: Split(s)[i] == rest[i];
      }
    }
  }

  lemma {:induction false} SplitWithoutPoint(s: string)
    requires '.' !in s
    ensures Split(s) == [s]
  {
    if s != [] {
      SplitWithoutPoint(s[1..]);
      assert s == [s[0]] + s[1..];
    }
  }

  lemma {:induction false} SplitAtPoint(a: string, b: string)
    requires '.' !in a && '.' !in b
    ensures Split(a + "." + b) == [a, b]
  {
    var s := a + "." + b;
    if a == [] {
      assert s[1..] == b;
      SplitWithoutPoint(b);
    } else {
      assert s[1..] == a[1..] + "." + b;
      SplitAtPoint(a[1..], b);
      assert a == [a[0]] + a[1..];
    }
  }
}
