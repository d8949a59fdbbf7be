/** The two parsers of token amounts: the payout worker's (internal/platform/workers/payout_executor.go) and the
    gateway's (internal/gateway/checkout_handlers.go). */
module Amounts {
  import opened Sums
  import opened Text
  import opened Products
  import opened Decimal

  datatype Problem = NegativeDecimals | Required | Malformed | TooPrecise | NotPositive

  datatype Parsed = Units(n: int) | Rejected(why: Problem)

  /** big.Int.SetString in base 10: an optional sign and at least one digit. */
  function SetString(s: string): Option<int> {
    if s != "" && DigitsOnly(s) then Some(Num(s))
    else if |s| > 1 && s[0] == '+' && DigitsOnly(s[1..]) then Some(Num(s[1..]))
    else if |s| > 1 && s[0] == '-' && DigitsOnly(s[1..]) then (var n: int := Num(s[1..]); Some(-n))
    else None
  }

  // ---- The payout worker ----

  function WorkerParse(raw: string, decimals: int): Parsed {
    var value := Trim(raw);
    if decimals < 0 then Rejected(NegativeDecimals)
    else if value == "" then Rejected(Required)
    else if value[0] == '-' || 'e' in value || 'E' in value || |Split(value)| > 2 then Rejected(Malformed)
    else WorkerCombine(if Whole(value) == "" then "0" else Whole(value), Frac(value), decimals)
  }

  function WorkerCombine(whole: string, frac: string, decimals: nat): Parsed {
    var digits := TrimRight(frac, '0');
    if !DigitsOnly(whole) || !DigitsOnly(frac) then Rejected(Malformed)
    else if |digits| > decimals then Rejected(TooPrecise)
    else
      var combined := TrimLeft(whole + digits + Zeros(decimals - |digits|), '0');
      if combined == "" then Rejected(NotPositive)
      else if SetString(combined) == None then Rejected(Malformed)
      else Units(SetString(combined).value)
  }

  /** What the worker's parser makes of digits before and after the point. */
  lemma WorkerDigits(whole: string, frac: string, decimals: nat)
    requires DigitsOnly(whole) && DigitsOnly(frac)
    ensures |TrimRight(frac, '0')| > decimals ==> WorkerCombine(whole, frac, decimals) == Rejected(TooPrecise)
    ensures |TrimRight(frac, '0')| <= decimals ==>
              var n := Num(whole + TrimRight(frac, '0')) * Pow10(decimals - |TrimRight(frac, '0')|);
              WorkerCombine(whole, frac, decimals) == if n == 0 then Rejected(NotPositive) else Units(n)
  {
    var digits := TrimRight(frac, '0');
    TrimRightZeros(frac);
    if |digits| <= decimals {
      NumPadded(whole + digits, decimals - |digits|);
      NumTrimLeft(whole + digits + Zeros(decimals - |digits|));
    }
  }

  /** Trailing zeros of the fraction scale both sides alike. */
  lemma ScaledEqually(whole: string, frac: string, n: nat, decimals: nat)
    requires DigitsOnly(whole) && DigitsOnly(frac)
    ensures DigitsOnly(TrimRight(frac, '0'))
    ensures n * Pow10(|frac|) == Num(whole + frac) * Pow10(decimals)
            <==> n * Pow10(|TrimRight(frac, '0')|) == Num(whole + TrimRight(frac, '0')) * Pow10(decimals)
  {
    var digits := TrimRight(frac, '0');
    TrimRightZeros(frac);
    var k := |frac| - |digits|;
    assert whole + frac == (whole + digits) + Zeros(k);
    NumPadded(whole + digits, k);
    Pow10Add(|digits|, k);
    ScaleBoth(n, Pow10(|digits|), Pow10(k), Num(whole + digits), Pow10(decimals));
  }

  lemma ScaleBoth(n: nat, p: nat, k: nat, a: nat, d: nat)
    requires k > 0
    ensures n * (p * k) == (a * k) * d <==> n * p == a * d
  {
    assert n * (p * k) == (n * p) * k;
    assert (a * k) * d == (a * d) * k;
    if n * (p * k) == (a * k) * d { Cancel(n * p, a * d, k); }
  }

  /** A fraction that ends in a non-zero digit needs as many decimals as it has digits. */
  lemma NeedsItsDigits(whole: string, frac: string, n: nat, decimals: nat)
    requires DigitsOnly(whole) && DigitsOnly(frac) && frac != "" && frac[|frac| - 1] != '0'
    requires n * Pow10(|frac|) == Num(whole + frac) * Pow10(decimals)
    ensures |frac| <= decimals
  {
    LastDigit(whole + frac);
    if |frac| > decimals { MultipleOfTen(n, |frac| - decimals, Num(whole + frac), decimals); }
  }

  lemma LastDigit(s: string)
    requires DigitsOnly(s) && s != ""
    ensures Num(s) % 10 == DigitValue(s[|s| - 1])
  {}

  lemma MultipleOfTen(n: nat, k: nat, a: nat, d: nat)
    requires k > 0 && n * Pow10(k + d) == a * Pow10(d)
    ensures a % 10 == 0
  {
    Pow10Add(k, d);
    Regroup(n, Pow10(k), Pow10(d));
    Cancel(n * Pow10(k), a, Pow10(d));
    EndsInZero(n, k);
  }

  lemma EndsInZero(n: nat, k: nat)
    requires k > 0
    ensures (n * Pow10(k)) % 10 == 0
  {
    Regroup(n, 10, Pow10(k - 1));
    Regroup(10, n, Pow10(k - 1));
    Tenfold(n * Pow10(k - 1));
  }

  lemma Tenfold(m: nat)
    ensures (10 * m) % 10 == 0
  {}

  /** With enough decimals the denoted number is the padded numeral. */
  lemma DenotedNumber(a: nat, f: nat, n: nat, decimals: nat)
    requires f <= decimals
    ensures n * Pow10(f) == a * Pow10(decimals) <==> n == a * Pow10(decimals - f)
  {
    Pow10Add(decimals - f, f);
    Regroup(a, Pow10(decimals - f), Pow10(f));
    if n * Pow10(f) == a * Pow10(decimals) { Cancel(n, a * Pow10(decimals - f), Pow10(f)); }
  }

  /** Digits with a point denote a number exactly when the worker's parser makes one of them, and the same one. */
  lemma WorkerCombineDenotes(whole: string, frac: string, decimals: nat, n: nat)
    requires DigitsOnly(whole) && DigitsOnly(frac)
    ensures n * Pow10(|frac|) == Num(whole + frac) * Pow10(decimals)
            <==> WorkerCombine(whole, frac, decimals) == if n == 0 then Rejected(NotPositive) else Units(n)
  {
    var digits := TrimRight(frac, '0');
    ScaledEqually(whole, frac, n, decimals);
    WorkerDigits(whole, frac, decimals);
    if |digits| <= decimals {
      DenotedNumber(Num(whole + digits), |digits|, n, decimals);
    } else if n * Pow10(|digits|) == Num(whole + digits) * Pow10(decimals) {
      NeedsItsDigits(whole, digits, n, decimals);
    }
  }

  lemma WorkerReachesCombine(raw: string, decimals: nat)
    requires Trim(raw) != ""
    ensures Plain(Trim(raw)) ==>
              var whole := if Whole(Trim(raw)) == "" then "0" else Whole(Trim(raw));
              WorkerParse(raw, decimals) == WorkerCombine(whole, Frac(Trim(raw)), decimals)
    ensures !Plain(Trim(raw)) ==> WorkerParse(raw, decimals) == Rejected(Malformed)
  {
    var value := Trim(raw);
    SplitMeaning(value);
    if Plain(value) { PlainCharacters(value); }
  }

  lemma PlainCharacters(text: string)
    requires Plain(text)
    ensures forall c | c in text :: IsDigit(c) || c == '.'
  {
    SplitMeaning(text);
  }

  lemma SameNumeral(value: string)
    requires Plain(value)
    ensures DigitsOnly(Whole(value) + Frac(value)) && DigitsOnly("0" + Frac(value))
    ensures Whole(value) == "" ==> Num("0" + Frac(value)) == Num(Whole(value) + Frac(value))
  {
    assert "" + Frac(value) == Frac(value);
    LeadingZero(Frac(value));
  }

  lemma WorkerDenotes(raw: string, decimals: nat, n: nat)
    requires Trim(raw) != "" && Plain(Trim(raw))
    ensures Denotes(Trim(raw), n, decimals)
            <==> WorkerParse(raw, decimals) == if n == 0 then Rejected(NotPositive) else Units(n)
  {
    var value := Trim(raw);
    WorkerReachesCombine(raw, decimals);
    SameNumeral(value);
    WorkerCombineDenotes(if Whole(value) == "" then "0" else Whole(value), Frac(value), decimals, n);
  }

  lemma WorkerOutcomes(raw: string, decimals: nat)
    requires Trim(raw) != "" && Plain(Trim(raw))
    ensures WorkerParse(raw, decimals) in {Rejected(TooPrecise), Rejected(NotPositive)}
            || (WorkerParse(raw, decimals).Units? && WorkerParse(raw, decimals).n > 0)
  {
    var value := Trim(raw);
    WorkerReachesCombine(raw, decimals);
    WorkerDigits(if Whole(value) == "" then "0" else Whole(value), Frac(value), decimals);
  }

  lemma EmptyDenotesZero(n: nat, decimals: nat)
    ensures Denotes("", n, decimals) <==> n == 0
  {
    assert Whole("") + Frac("") == "" && Num("") == 0;
    assert Pow10(0) == 1;
  }

  /** The worker's parser is exact and complete: it returns n for precisely the texts that denote a positive n. */
  lemma WorkerAcceptsExactly(raw: string, decimals: nat, n: int)
    ensures WorkerParse(raw, decimals) == Units(n) <==> n > 0 && Denotes(Trim(raw), n, decimals)
  {
    var value := Trim(raw);
    if value == "" {
      if n > 0 { EmptyDenotesZero(n, decimals); }
    } else if !Plain(value) {
      WorkerReachesCombine(raw, decimals);
    } else {
      WorkerOutcomes(raw, decimals);
      if n > 0 { WorkerDenotes(raw, decimals, n); }
    }
  }

  /** And its errors tell apart why a text is not accepted. */
  lemma WorkerRejectsExactly(raw: string, decimals: int)
    ensures WorkerParse(raw, decimals) == Rejected(NegativeDecimals) <==> decimals < 0
    ensures decimals >= 0 ==> (WorkerParse(raw, decimals) == Rejected(Required) <==> Trim(raw) == "")
    ensures decimals >= 0 && Trim(raw) != "" ==>
              && (WorkerParse(raw, decimals) == Rejected(Malformed) <==> !Plain(Trim(raw)))
              && (WorkerParse(raw, decimals) == Rejected(NotPositive) <==> Denotes(Trim(raw), 0, decimals))
              && (WorkerParse(raw, decimals) == Rejected(TooPrecise)
                  <==> Plain(Trim(raw)) && forall n :: !Denotes(Trim(raw), n, decimals))
  {
    var value := Trim(raw);
    if decimals >= 0 && value != "" {
      if Plain(value) {
        WorkerOutcomes(raw, decimals);
        forall n: nat
          ensures Denotes(value, n, decimals)
                  <==> WorkerParse(raw, decimals) == if n == 0 then Rejected(NotPositive) else Units(n)
        {
          WorkerDenotes(raw, decimals, n);
        }
        var made := WorkerParse(raw, decimals);
        if made.Units? { assert Denotes(value, made.n, decimals); }
      } else {
        WorkerReachesCombine(raw, decimals);
      }
    }
  }

  // ---- The gateway ----

  function GatewayParse(raw: string, decimals: int): Parsed {
    var value := Trim(raw);
    if decimals < 0 then Rejected(NegativeDecimals)
    else if value == "" then Rejected(Required)
    else if |Split(value)| > 2 then Rejected(Malformed)
    else GatewayCombine(WithoutPlus(Trim(Whole(value))), Trim(Frac(value)), decimals)
  }

  function WithoutPlus(s: string): string {
    if s != "" && s[0] == '+' then s[1..] else s
  }

  function GatewayCombine(part: string, frac: string, decimals: nat): Parsed {
    var whole := if part == "" then "0" else part;
    if whole[0] == '-' || |frac| > decimals || '+' in frac || '-' in frac then Rejected(Malformed)
    else
      var value := SetString(whole + frac + Zeros(decimals - |frac|));
      if value == None then Rejected(Malformed) else Units(value.value)
  }

  /** On digits alone the gateway's parser pads without trimming first. */
  lemma GatewayDigits(part: string, frac: string, decimals: nat)
    requires DigitsOnly(part) && DigitsOnly(frac)
    ensures GatewayCombine(part, frac, decimals)
            == if |frac| > decimals then Rejected(Malformed) else Units(Num(part + frac) * Pow10(decimals - |frac|))
  {
    var whole := if part == "" then "0" else part;
    if |frac| <= decimals {
      if part == "" {
        assert part + frac == frac;
        LeadingZero(frac);
      }
      NumPadded(whole + frac, decimals - |frac|);
    }
  }

  /** The numeral of a text, moved to the given number of decimals. */
  function Moved(text: string, decimals: nat): nat
    requires Plain(text) && |Frac(text)| <= decimals
  {
    Num(Whole(text) + Frac(text)) * Pow10(decimals - |Frac(text)|)
  }

  lemma MovedIsDenoted(text: string, decimals: nat, n: nat)
    requires Plain(text) && |Frac(text)| <= decimals
    ensures Denotes(text, n, decimals) <==> n == Moved(text, decimals)
  {
    DenotedNumber(Num(Whole(text) + Frac(text)), |Frac(text)|, n, decimals);
  }

  lemma GatewayPlain(text: string, decimals: nat)
    requires Plain(text) && text != ""
    ensures GatewayParse(text, decimals)
            == if |Frac(text)| > decimals then Rejected(Malformed) else Units(Moved(text, decimals))
  {
    PlainCharacters(text);
    NothingToTrim(text);
    DigitsAreTrimmed(Whole(text));
    DigitsAreTrimmed(Frac(text));
    GatewayDigits(Whole(text), Frac(text), decimals);
  }

  lemma DigitsAreTrimmed(s: string)
    requires DigitsOnly(s)
    ensures Trim(s) == s && WithoutPlus(s) == s
  {
    TrimIdentity(s);
  }

  /** On texts of digits and points: what the gateway accepts is what denotes a number, zero included, without more
      fraction digits than decimals. */
  lemma GatewayOnPlainText(text: string, decimals: nat, n: int)
    requires text != "" && forall c | c in text :: IsDigit(c) || c == '.'
    ensures GatewayParse(text, decimals) == Units(n)
            <==> n >= 0 && Denotes(text, n, decimals) && |Frac(text)| <= decimals
  {
    PlainWhenSplit(text);
    if Plain(text) {
      GatewayPlain(text, decimals);
      if n >= 0 && |Frac(text)| <= decimals { MovedIsDenoted(text, decimals, n); }
    } else {
      NothingToTrim(text);
    }
  }

  lemma NothingToTrim(text: string)
    requires forall c | c in text :: IsDigit(c) || c == '.'
    ensures Trim(text) == text
  {
    if text != "" { assert text[0] in text && text[|text| - 1] in text; }
    TrimIdentity(text);
  }

  lemma PlainWhenSplit(text: string)
    requires forall c | c in text :: IsDigit(c) || c == '.'
    ensures Plain(text) <==> |Split(text)| <= 2
  {
    SplitMeaning(text);
    var parts := Split(text);
    forall i | 0 <= i < |parts| ensures DigitsOnly(parts[i]) {
      forall k | 0 <= k < |parts[i]| ensures IsDigit(parts[i][k]) {
        assert parts[i][k] in parts[i];
      }
    }
  }

  /** A non-zero amount the gateway takes as digits and points is the amount the worker will pay out. */
  lemma GatewayAmountIsPayable(text: string, decimals: nat, n: int)
    requires text != "" && forall c | c in text :: IsDigit(c) || c == '.'
    requires GatewayParse(text, decimals) == Units(n) && n != 0
    ensures WorkerParse(text, decimals) == Units(n)
  {
    GatewayOnPlainText(text, decimals, n);
    NothingToTrim(text);
    WorkerAcceptsExactly(text, decimals, n);
  }

  // ---- Where both accept ----

  /** The text without the spaces and plus signs that the gateway's parser tolerates. */
  function Bare(s: string): string {
    if s == "" then ""
    else if IsSpace(s[0]) || s[0] == '+' then Bare(s[1..])
    else [s[0]] + Bare(s[1..])
  }

  lemma {:induction false} BareConcat(a: string, b: string)
    ensures Bare(a + b) == Bare(a) + Bare(b)
  {
    if a != "" {
      assert (a + b)[1..] == a[1..] + b;
      BareConcat(a[1..], b);
    } else {
      assert a + b == b;
    }
  }

  lemma {:induction false} BareDigits(s: string)
    requires forall i | 0 <= i < |s| :: IsDigit(s[i]) || s[i] == '.'
    ensures Bare(s) == s
  {
    if s != "" {
      BareDigits(s[1..]);
      assert s == [s[0]] + s[1..];
    }
  }

  lemma {:induction false} BareTrimLeft(s: string)
    ensures Bare(TrimLeftSpace(s)) == Bare(s)
  {
    if s != "" && IsSpace(s[0]) { BareTrimLeft(s[1..]); }
  }

  lemma {:induction false} BareTrimRight(s: string)
    ensures Bare(TrimRightSpace(s)) == Bare(s)
  {
    if s != "" && IsSpace(s[|s| - 1]) {
      var init := s[..|s| - 1];
      BareTrimRight(init);
      BareConcat(init, [s[|s| - 1]]);
      assert s == init + [s[|s| - 1]];
    }
  }

  lemma BareTrim(s: string)
    ensures Bare(Trim(s)) == Bare(s)
  {
    BareTrimLeft(s);
    BareTrimRight(TrimLeftSpace(s));
  }

  lemma {:induction false} BareSplit(s: string)
    ensures |Split(Bare(s))| == |Split(s)|
    ensures forall i | 0 <= i < |Split(s)| :: Split(Bare(s))[i] == Bare(Split(s)[i])
  {
    if s != "" {
      BareSplit(s[1..]);
      SplitStep(s);
      if !IsSpace(s[0]) && s[0] != '+' {
        assert Bare(s)[1..] == Bare(s[1..]);
        SplitStep(Bare(s));
      }
      if s[0] != '.' { assert Split(s)[0][1..] == Split(s[1..])[0]; }
    }
  }

  lemma SplitStep(s: string)
    requires s != ""
    ensures s[0] == '.' ==> Split(s) == [""] + Split(s[1..])
    ensures s[0] != '.' ==> |Split(s)| == |Split(s[1..])| && Split(s)[0] == [s[0]] + Split(s[1..])[0]
    ensures s[0] != '.' ==> forall i | 1 <= i < |Split(s)| :: Split(s)[i] == Split(s[1..])[i]
  {
    var rest := Split(s[1..]);
    if s[0] != '.' { assert Split(s) == [[s[0]] + rest[0]] + rest[1..]; }
  }

  /** The digits behind what the gateway hands to SetString. */
  lemma GatewaySigns(part: string, frac: string, decimals: nat, n: int)
    requires GatewayCombine(part, frac, decimals) == Units(n)
    ensures DigitsOnly(WithoutPlus(part)) && DigitsOnly(frac) && |frac| <= decimals
    ensures n == Num(WithoutPlus(part) + frac) * Pow10(decimals - |frac|)
  {
    var whole := if part == "" then "0" else part;
    var padded := whole + frac + Zeros(decimals - |frac|);
    assert padded[0] == whole[0];
    if DigitsOnly(padded) {
      DigitsOfParts(whole, frac, Zeros(decimals - |frac|));
      assert part == "" || IsDigit(part[0]);
      GatewayDigits(part, frac, decimals);
    } else {
      assert padded[1..] == part[1..] + frac + Zeros(decimals - |frac|);
      DigitsOfParts(part[1..], frac, Zeros(decimals - |frac|));
      NumPadded(part[1..] + frac, decimals - |frac|);
    }
  }

  lemma DigitsOfParts(a: string, b: string, c: string)
    requires DigitsOnly(a + b + c)
    ensures DigitsOnly(a) && DigitsOnly(b)
  {
    var s := a + b + c;
    assert forall i | 0 <= i < |a| :: a[i] == s[i];
    assert forall i | 0 <= i < |b| :: b[i] == s[|a| + i];
  }

  lemma BareWithoutPlus(s: string)
    ensures Bare(WithoutPlus(s)) == Bare(s)
  {}

  /** Trimming and signs do not change what is left of the two parts. */
  lemma BareParts(raw: string)
    requires |Split(Trim(raw))| <= 2
    ensures |Split(Bare(raw))| == |Split(Trim(raw))|
    ensures Whole(Bare(raw)) == Bare(WithoutPlus(WithoutPlus(Trim(Whole(Trim(raw))))))
    ensures Frac(Bare(raw)) == Bare(Trim(Frac(Trim(raw))))
  {
    var value := Trim(raw);
    var part := Trim(Whole(value));
    BareTrim(raw);
    BareSplit(value);
    BareTrim(Whole(value));
    BareTrim(Frac(value));
    BareWithoutPlus(part);
    BareWithoutPlus(WithoutPlus(part));
  }

  /** Whatever text the gateway accepts, the result is not negative and is exactly the number written by its digits. */
  lemma GatewayIsExact(raw: string, decimals: int, n: int)
    requires GatewayParse(raw, decimals) == Units(n)
    ensures n >= 0 && decimals >= 0
    ensures Denotes(Bare(raw), n, decimals) && |Frac(Bare(raw))| <= decimals
  {
    var part, frac := WithoutPlus(Trim(Whole(Trim(raw)))), Trim(Frac(Trim(raw)));
    GatewaySigns(part, frac, decimals, n);
    BareParts(raw);
    BareDigits(WithoutPlus(part));
    BareDigits(frac);
    DenotesParts(Bare(raw), WithoutPlus(part), frac, n, decimals);
  }

  lemma DenotesParts(text: string, whole: string, frac: string, n: int, decimals: nat)
    requires |Split(text)| <= 2 && Whole(text) == whole && Frac(text) == frac
    requires DigitsOnly(whole) && DigitsOnly(frac) && |frac| <= decimals
    requires n == Num(whole + frac) * Pow10(decimals - |frac|)
    ensures n >= 0 && Denotes(text, n, decimals)
  {
    DenotedNumber(Num(whole + frac), |frac|, n, decimals);
  }

  /** What the gateway's parser can read: at most one point; around it, spaces; before the whole part, up to two plus
      signs; otherwise digits, and no more of them after the point than the token has decimals. Two plus signs and
      nothing else need a decimal to follow. */
  predicate GatewayReadable(raw: string, decimals: int) {
    var value := Trim(raw);
    && decimals >= 0 && value != "" && |Split(value)| <= 2
    && var part, frac := WithoutPlus(Trim(Whole(value))), Trim(Frac(value));
    && DigitsOnly(WithoutPlus(part)) && DigitsOnly(frac) && |frac| <= decimals
    && (part == "+" ==> decimals > 0)
  }

  lemma GatewayReads(part: string, frac: string, decimals: nat)
    ensures GatewayCombine(part, frac, decimals).Units?
            <==> && DigitsOnly(WithoutPlus(part)) && DigitsOnly(frac) && |frac| <= decimals
                 && (part == "+" ==> decimals > 0)
  {
    var made := GatewayCombine(part, frac, decimals);
    if made.Units? {
      GatewaySigns(part, frac, decimals, made.n);
    }
    if DigitsOnly(WithoutPlus(part)) && DigitsOnly(frac) && |frac| <= decimals && (part == "+" ==> decimals > 0) {
      if DigitsOnly(part) { GatewayDigits(part, frac, decimals); } else { GatewayReadsSigned(part, frac, decimals); }
    }
  }

  lemma GatewayReadsSigned(part: string, frac: string, decimals: nat)
    requires part != "" && part[0] == '+' && DigitsOnly(part[1..]) && DigitsOnly(frac) && |frac| <= decimals
    requires part == "+" ==> decimals > 0
    ensures GatewayCombine(part, frac, decimals).Units?
  {
    var padded := part + frac + Zeros(decimals - |frac|);
    assert padded[0] == '+' && !IsDigit(padded[0]);
    assert padded[1..] == part[1..] + frac + Zeros(decimals - |frac|);
    NumPadded(part[1..] + frac, decimals - |frac|);
    assert forall i | 0 <= i < |frac| :: IsDigit(frac[i]);
  }

  /** On all texts: the gateway accepts exactly what it can read, and returns the number that the digits write. */
  lemma GatewayAcceptsExactly(raw: string, decimals: int, n: int)
    ensures GatewayParse(raw, decimals).Units? <==> GatewayReadable(raw, decimals)
    ensures GatewayParse(raw, decimals) == Units(n)
            <==> GatewayReadable(raw, decimals) && n >= 0 && Denotes(Bare(raw), n, decimals)
  {
    var value := Trim(raw);
    var made := GatewayParse(raw, decimals);
    if decimals >= 0 && value != "" && |Split(value)| <= 2 {
      GatewayReads(WithoutPlus(Trim(Whole(value))), Trim(Frac(value)), decimals);
    }
    if made.Units? {
      GatewayIsExact(raw, decimals, made.n);
      if n >= 0 && Denotes(Bare(raw), n, decimals) { DenotesOne(Bare(raw), n, made.n, decimals); }
    }
  }

  /** A plain text is its own bare text, and the gateway reads it when its fraction is not too long. */
  lemma GatewayReadsPlain(raw: string, decimals: nat)
    requires Plain(Trim(raw)) && Trim(raw) != ""
    ensures Bare(raw) == Trim(raw)
    ensures GatewayReadable(raw, decimals) <==> |Frac(Trim(raw))| <= decimals
  {
    BareTrim(raw);
    PlainCharacters(Trim(raw));
    BareDigits(Trim(raw));
    DigitsAreTrimmed(Whole(Trim(raw)));
    DigitsAreTrimmed(Frac(Trim(raw)));
  }

  /** On every text that both parsers accept they return the same amount. */
  lemma ParsersAgree(raw: string, decimals: int, n: int, m: int)
    requires WorkerParse(raw, decimals) == Units(n)
    requires GatewayParse(raw, decimals) == Units(m)
    ensures n == m
  {
    WorkerAcceptsExactly(raw, decimals, n);
    GatewayIsExact(raw, decimals, m);
    BareTrim(raw);
    PlainCharacters(Trim(raw));
    BareDigits(Trim(raw));
    DenotesOne(Trim(raw), n, m, decimals);
  }

  /** A text is accepted by both parsers exactly when, between outer spaces, it is made of digits with at most one
      point, its fraction is no longer than the decimals, and not all its digits are zero. */
  lemma BothAcceptExactly(raw: string, decimals: int)
    ensures WorkerParse(raw, decimals).Units? && GatewayParse(raw, decimals).Units?
            <==> && decimals >= 0 && Plain(Trim(raw)) && |Frac(Trim(raw))| <= decimals
                 && NotAllZero(Trim(raw))
  {
    var value := Trim(raw);
    WorkerRejectsExactly(raw, decimals);
    if WorkerParse(raw, decimals).Units? {
      WorkerAcceptsThenGateway(raw, decimals);
      WorkerAcceptsExactly(raw, decimals, WorkerParse(raw, decimals).n);
    }
    if decimals >= 0 && Plain(value) && |Frac(value)| <= decimals {
      var n := Moved(value, decimals);
      MovedIsDenoted(value, decimals, n);
      MovedIsDenoted(value, decimals, 0);
      assert n == 0 <==> Num(Whole(value) + Frac(value)) == 0 by {
        ProductIsZero(Num(Whole(value) + Frac(value)), Pow10(decimals - |Frac(value)|));
      }
      WorkerAcceptsExactly(raw, decimals, n);
      NotZeroWhenPlain(value);
      if value == "" { EmptyDenotesZero(n, decimals); }
    }
  }

  lemma ProductIsZero(a: nat, p: nat)
    requires p > 0
    ensures a * p == 0 <==> a == 0
  {
    if a > 0 { assert a * p >= p; }
  }

  /** Some digit is not a zero. */
  predicate NotAllZero(text: string) {
    exists c | c in text :: IsDigit(c) && c != '0'
  }

  lemma {:induction false} NumNotZero(s: string)
    requires DigitsOnly(s)
    ensures Num(s) != 0 <==> NotAllZero(s)
  {
    if s != "" {
      var init, last := s[..|s| - 1], s[|s| - 1];
      NumNotZero(init);
      assert s == init + [last];
      assert forall c :: c in s <==> c in init || c == last;
      assert DigitValue(last) == 0 <==> last == '0';
    }
  }

  lemma NotZeroWhenPlain(text: string)
    requires Plain(text)
    ensures DigitsOnly(Whole(text) + Frac(text))
    ensures Num(Whole(text) + Frac(text)) != 0 <==> NotAllZero(text)
  {
    SplitMeaning(text);
    NumNotZero(Whole(text) + Frac(text));
    assert forall c :: c in Whole(text) + Frac(text) <==> c in Whole(text) || c in Frac(text);
    forall c | IsDigit(c) ensures c in text <==> c in Whole(text) || c in Frac(text) {}
  }

  /** What the worker can read, told from the text alone. */
  lemma WorkerReads(raw: string, decimals: int)
    ensures WorkerParse(raw, decimals).Units?
            <==> && decimals >= 0 && Plain(Trim(raw)) && NotAllZero(Trim(raw))
                 && |TrimRight(Frac(Trim(raw)), '0')| <= decimals
  {
    var value := Trim(raw);
    WorkerRejectsExactly(raw, decimals);
    if decimals >= 0 && value != "" && Plain(value) {
      WorkerReachesCombine(raw, decimals);
      SameNumeral(value);
      NotZeroWhenPlain(value);
      WorkerCombineReads(if Whole(value) == "" then "0" else Whole(value), Frac(value), decimals);
    }
  }

  lemma WorkerCombineReads(whole: string, frac: string, decimals: nat)
    requires DigitsOnly(whole) && DigitsOnly(frac) && DigitsOnly(whole + frac)
    ensures WorkerCombine(whole, frac, decimals).Units?
            <==> |TrimRight(frac, '0')| <= decimals && Num(whole + frac) != 0
  {
    var digits := TrimRight(frac, '0');
    WorkerDigits(whole, frac, decimals);
    TrimmedNotZero(whole, frac);
    if |digits| <= decimals { ProductIsZero(Num(whole + digits), Pow10(decimals - |digits|)); }
  }

  lemma TrimmedNotZero(whole: string, frac: string)
    requires DigitsOnly(whole) && DigitsOnly(frac)
    ensures DigitsOnly(TrimRight(frac, '0'))
    ensures Num(whole + TrimRight(frac, '0')) == 0 <==> Num(whole + frac) == 0
  {
    var digits := TrimRight(frac, '0');
    TrimRightZeros(frac);
    var k := |frac| - |digits|;
    assert whole + frac == whole + digits + Zeros(k);
    NumPadded(whole + digits, k);
    ProductIsZero(Num(whole + digits), Pow10(k));
  }

  /** When the worker accepts a text, so does the gateway, unless the fraction (trailing zeros included) is longer than
      the token's decimals. */
  lemma WorkerAcceptsThenGateway(raw: string, decimals: int)
    requires WorkerParse(raw, decimals).Units?
    ensures GatewayParse(raw, decimals).Units? <==> |Frac(Trim(raw))| <= decimals
  {
    var n := WorkerParse(raw, decimals).n;
    WorkerRejectsExactly(raw, decimals);
    WorkerAcceptsExactly(raw, decimals, n);
    GatewayReadsPlain(raw, decimals);
    GatewayAcceptsExactly(raw, decimals, n);
  }

  /** When the gateway accepts a text, so does the worker, unless the amount is zero or the text holds anything but
      digits and a point between its outer spaces. */
  lemma GatewayAcceptsThenWorker(raw: string, decimals: int)
    requires GatewayParse(raw, decimals).Units?
    ensures WorkerParse(raw, decimals).Units?
            <==> NotAllZero(Trim(raw)) && forall c | c in Trim(raw) :: IsDigit(c) || c == '.'
  {
    var m := GatewayParse(raw, decimals).n;
    GatewayIsExact(raw, decimals, m);
    GatewayAcceptsExactly(raw, decimals, m);
    PlainWhenOneSplit(Trim(raw));
    WorkerRejectsExactly(raw, decimals);
    if Plain(Trim(raw)) {
      GatewayReadsPlain(raw, decimals);
      BothAcceptExactly(raw, decimals);
    }
  }

  lemma PlainWhenOneSplit(text: string)
    requires |Split(text)| <= 2
    ensures Plain(text) <==> forall c | c in text :: IsDigit(c) || c == '.'
  {
    if Plain(text) { PlainCharacters(text); }
    if forall c | c in text :: IsDigit(c) || c == '.' { PlainWhenSplit(text); }
  }

  /** Texts on which the two differ: a second plus sign, a zero amount, and zeros beyond the decimals. */
  lemma ParsersDiffer()
    ensures GatewayParse("++5", 0) == Units(5) && WorkerParse("++5", 0) == Rejected(Malformed)
    ensures GatewayParse(".", 0) == Units(0) && WorkerParse(".", 0) == Rejected(NotPositive)
    ensures GatewayParse("1.0", 0) == Rejected(Malformed) && WorkerParse("1.0", 0) == Units(1)
  {
    SignsDiffer();
    TrailingZeroDiffers();
    PointIsZero();
  }

  lemma SignsDiffer()
    ensures GatewayParse("++5", 0) == Units(5) && WorkerParse("++5", 0) == Rejected(Malformed)
  {
    SplitWithoutPoint("++5");
    TrimIdentity("++5");
    TrimIdentity("");
    assert "++5"[1..] == "+5";
    assert "+5" + "" + Zeros(0) == "+5" && "+5"[1..] == "5" && "5"[..0] == "";
    assert !IsDigit("++5"[0]) && !IsDigit("+5"[0]) && IsDigit("5"[0]);
    assert Num("5") == 5;
  }

  lemma PointIsZero()
    ensures GatewayParse(".", 0) == Units(0) && WorkerParse(".", 0) == Rejected(NotPositive)
  {
    SplitAtPoint("", "");
    assert "" + "." + "" == ".";
    assert Plain(".") && Trim(".") == ".";
    GatewayPlain(".", 0);
    assert "" + "" == "" && Num("") == 0;
    WorkerDenotes(".", 0, 0);
  }

  lemma TrailingZeroDiffers()
    ensures GatewayParse("1.0", 0) == Rejected(Malformed) && WorkerParse("1.0", 0) == Units(1)
  {
    SplitAtPoint("1", "0");
    assert "1" + "." + "0" == "1.0";
    assert Plain("1.0") && Trim("1.0") == "1.0";
    GatewayPlain("1.0", 0);
    TenTenths();
    WorkerAcceptsExactly("1.0", 0, 1);
  }

  lemma TenTenths()
    ensures 1 * Pow10(1) == Num("1" + "0") * Pow10(0)
  {
    assert "1" + "0" == "10" && "10"[..1] == "1" && "1"[..0] == "";
    assert Num("1") == 1 && Num("10") == 10;
    assert Pow10(0) == 1 && Pow10(1) == 10;
  }
}
