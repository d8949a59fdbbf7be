/** The string helpers of the Go standard library that the modelled code relies on, on ASCII text. */
module Text {
  predicate IsSpace(c: char) {
    c == ' ' || c == '\t' || c == '\n' || c == '\r' || c == '\U{000B}' || c == '\U{000C}'
  }

  function TrimLeftSpace(s: string): (t: string)
    ensures t == [] || !IsSpace(t[0])
  {
    if s != [] && IsSpace(s[0]) then TrimLeftSpace(s[1..]) else s
  }

  function TrimRightSpace(s: string): (t: string)
    ensures t == [] || !IsSpace(t[|t| - 1])
    ensures t != [] ==> s != [] && t[0] == s[0]
  {
    if s != [] && IsSpace(s[|s| - 1]) then TrimRightSpace(s[..|s| - 1]) else s
  }

  /** strings.TrimSpace. */
  function Trim(s: string): (t: string)
    ensures t != [] ==> !IsSpace(t[0]) && !IsSpace(t[|t| - 1])
  {
    TrimRightSpace(TrimLeftSpace(s))
  }

  predicate Blank(s: string) {
    forall i | 0 <= i < |s| :: s[i] in {' ', '\t', '\n', '\r', '\U{000B}', '\U{000C}'}
  }

  /** Trimming takes away blanks at both ends, and all of them. */
  lemma TrimParts(s: string) returns (a: string, b: string)
    ensures s == a + Trim(s) + b && Blank(a) && Blank(b)
    ensures Trim(s) != "" ==> !Blank(Trim(s)[..1]) && !Blank(Trim(s)[|Trim(s)| - 1..])
  {
    a := TrimmedLeft(s);
    b := TrimmedRight(TrimLeftSpace(s));
    assert s == a + (Trim(s) + b) == a + Trim(s) + b;
    if Trim(s) != "" {
      var first, last := Trim(s)[..1], Trim(s)[|Trim(s)| - 1..];
      assert IsSpace(first[0]) == (first[0] in {' ', '\t', '\n', '\r', '\U{000B}', '\U{000C}'});
      assert IsSpace(last[0]) == (last[0] in {' ', '\t', '\n', '\r', '\U{000B}', '\U{000C}'});
    }
  }

  lemma {:induction false} TrimmedLeft(s: string) returns (a: string)
    ensures s == a + TrimLeftSpace(s) && Blank(a)
  {
    a := "";
    if s != [] && IsSpace(s[0]) {
      var rest := TrimmedLeft(s[1..]);
      a := [s[0]] + rest;
    }
  }

  lemma {:induction false} TrimmedRight(s: string) returns (b: string)
    ensures s == TrimRightSpace(s) + b && Blank(b)
  {
    b := "";
    if s != [] && IsSpace(s[|s| - 1]) {
      var rest := TrimmedRight(s[..|s| - 1]);
      b := rest + [s[|s| - 1]];
    }
  }

  lemma TrimIdentity(s: string)
    requires s != [] ==> !IsSpace(s[0]) && !IsSpace(s[|s| - 1])
    ensures Trim(s) == s
  {}

  function LowerChar(c: char): char {
    if 'A' <= c <= 'Z' then c - 'A' + 'a' else c
  }

  function UpperChar(c: char): char {
    if 'a' <= c <= 'z' then c - 'a' + 'A' else c
  }

  const CAPITALS := "ABCDEFGHIJKLMNOPQRSTUVWXYZ"

  const SMALL := "abcdefghijklmnopqrstuvwxyz"

  /** `to` is the letter at the place of `c` in the other alphabet, or `c` itself when it is not a letter of the
      first. */
  ghost predicate Translated(c: char, to: char, from: string, other: string) {
    if c in from then exists i | 0 <= i < |from| == |other| :: from[i] == c && other[i] == to else to == c
  }

  ghost predicate Alphabet(letters: string, first: char) {
    |letters| == 26 && forall i | 0 <= i < 26 :: letters[i] as int == first as int + i
  }

  lemma Alphabets()
    ensures Alphabet(CAPITALS, 'A') && Alphabet(SMALL, 'a')
  {}

  lemma TranslatedBy(c: char, to: char, from: string, other: string, first: char, otherFirst: char)
    requires Alphabet(from, first) && Alphabet(other, otherFirst)
    requires to as int == c as int + if 0 <= c as int - first as int < 26 then otherFirst as int - first as int else 0
    ensures Translated(c, to, from, other)
  {
    var i := c as int - first as int;
    if 0 <= i < 26 { assert from[i] == c && other[i] == to; }
  }

  /** The two alphabets are mapped onto each other, letter by letter, and no other character is changed. */
  lemma Letters(c: char)
    ensures Translated(c, LowerChar(c), CAPITALS, SMALL)
    ensures Translated(c, UpperChar(c), SMALL, CAPITALS)
  {
    Alphabets();
    TranslatedBy(c, LowerChar(c), CAPITALS, SMALL, 'A', 'a');
    TranslatedBy(c, UpperChar(c), SMALL, CAPITALS, 'a', 'A');
  }

  function ToLower(s: string): (t: string)
    ensures |t| == |s| && forall i | 0 <= i < |s| :: t[i] == LowerChar(s[i])
  {
    seq(|s|, i requires 0 <= i < |s| => LowerChar(s[i]))
  }

  function ToUpper(s: string): (t: string)
    ensures |t| == |s| && forall i | 0 <= i < |s| :: t[i] == UpperChar(s[i])
  {
    seq(|s|, i requires 0 <= i < |s| => UpperChar(s[i]))
  }
}
