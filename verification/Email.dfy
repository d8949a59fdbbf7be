/** The recipients of an e-mail (internal/platform/workers/email_dispatcher.go): normalised, each of them once, in the
    order in which they are first named. */
module Email {
  import opened Text

  type Id = int

  // ---- Recipients ----

  function Normalize(value: string): string {
    ToLower(Trim(value))
  }

  /** A value without its outer blanks, each capital replaced by its small letter. */
  lemma NormalizeMeaning(value: string) returns (a: string, core: string, b: string)
    ensures value == a + core + b && Blank(a) && Blank(b)
    ensures core != "" ==> !Blank(core[..1]) && !Blank(core[|core| - 1..])
    ensures |Normalize(value)| == |core|
    ensures forall i | 0 <= i < |core| :: Translated(core[i], Normalize(value)[i], CAPITALS, SMALL)
  {
    a, b := TrimParts(value);
    core := Trim(value);
    forall c: char { Letters(c); }
  }

  /** The normalised non-empty values, each at its first occurrence. */
  function Unique(values: seq<string>): seq<string> {
    if values == [] then [] else
      var before := Unique(values[..|values| - 1]);
      var email := Normalize(values[|values| - 1]);
      if email == "" || email in before then before else before + [email]
  }

  predicate Names(values: seq<string>, n: int, email: string) {
    0 <= n < |values| && Normalize(values[n]) == email
  }

  lemma NamesPrefix(values: seq<string>, k: nat, n: int, email: string)
    requires k <= |values|
    ensures Names(values[..k], n, email) <==> Names(values, n, email) && n < k
  {}

  /** Recipients are distinct, and exactly the normalised non-empty values. */
  lemma {:induction false} UniqueRecipients(values: seq<string>)
    ensures forall i, j | 0 <= i < j < |Unique(values)| :: Unique(values)[i] != Unique(values)[j]
    ensures forall e :: e in Unique(values) <==> e != "" && exists n :: Names(values, n, e)
  {
    if values != [] {
      var k := |values| - 1;
      UniqueRecipients(values[..k]);
      forall e ensures e in Unique(values) <==> e != "" && exists n :: Names(values, n, e) {
        forall n { NamesPrefix(values, k, n, e); }
        if e == Normalize(values[k]) {
          assert Names(values, k, e);
        }
      }
    }
  }

  /** An earlier recipient was named before every mention of a later one. */
  lemma {:induction false} RecipientsInFirstOccurrenceOrder(values: seq<string>, i: nat, j: nat, m: int)
    requires i < j < |Unique(values)| && Names(values, m, Unique(values)[j])
    ensures exists n :: n < m && Names(values, n, Unique(values)[i])
  {
    var k := |values| - 1;
    var before := Unique(values[..k]);
    UniqueRecipients(values[..k]);
    forall n, e { NamesPrefix(values, k, n, e); }
    assert before[i] in before && Unique(values)[i] == before[i];
    if m < k {
      assert Names(values[..k], m, Unique(values)[j]);
      assert Unique(values)[j] in before;
      if j < |before| {
        RecipientsInFirstOccurrenceOrder(values[..k], i, j, m);
      }
    }
  }

  method UniqueEmails(values: seq<string>) returns (out: seq<string>)
    ensures out == Unique(values)
  {
    var seen: set<string> := {};
    out := [];
    for n := 0 to |values|
      invariant out == Unique(values[..n])
      invariant forall e :: e in seen <==> e in out
    {
      assert values[..n + 1][..n] == values[..n];
      var email := Normalize(values[n]);
      if email == "" || email in seen { continue; }
      seen := seen + {email};
      out := out + [email];
    }
    assert values[..|values|] == values;
  }
}
