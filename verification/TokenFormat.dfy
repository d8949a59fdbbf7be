/** The gateway's printer of token amounts (internal/gateway/checkout_handlers.go), and printing then parsing. */
module TokenFormat {
  import opened Decimal
  import opened Amounts

  function Digit(v: nat): (c: char)
    requires v < 10
    ensures IsDigit(c) && DigitValue(c) == v
  {
    '0' + v as char
  }

  function Dec(n: nat): string {
    if n < 10 then [Digit(n)] else Dec(n / 10) + [Digit(n % 10)]
  }

  /** n divided by 10^k. */
  function Drop(n: nat, k: nat): nat {
    if k == 0 then n else Drop(n / 10, k - 1)
  }

  /** The last k decimal digits of n. */
  function LastDigits(n: nat, k: nat): (s: string)
    ensures |s| == k && DigitsOnly(s)
  {
    if k == 0 then "" else LastDigits(n / 10, k - 1) + [Digit(n % 10)]
  }

  /** strconv.FormatFloat(amount, 'f', decimals, 64) for the exact amount n / 10^decimals. */
  function FixedPoint(n: nat, decimals: nat): string {
    if decimals == 0 then Dec(n) else Dec(Drop(n, decimals)) + "." + LastDigits(n, decimals)
  }

  function FormatTokenAmount(n: nat, decimals: nat): string {
    var formatted := TrimRight(TrimRight(FixedPoint(n, decimals), '0'), '.');
    if formatted == "" then "0" else formatted
  }

  lemma {:induction false} DecNum(n: nat)
    ensures DigitsOnly(Dec(n)) && Dec(n) != "" && Num(Dec(n)) == n
    ensures DigitValue(Dec(n)[|Dec(n)| - 1]) == n % 10
  {
    if n < 10 {
      assert Dec(n)[..0] == "";
    } else {
      DecNum(n / 10);
      assert Dec(n)[..|Dec(n)| - 1] == Dec(n / 10);
    }
  }

  /** The two parts printed around the point make up the amount. */
  lemma {:induction false} DroppedAndKept(n: nat, k: nat)
    ensures n == Drop(n, k) * Pow10(k) + Num(LastDigits(n, k))
  {
    if k > 0 {
      DroppedAndKept(n / 10, k - 1);
      assert LastDigits(n, k)[..k - 1] == LastDigits(n / 10, k - 1);
      ScaleBy10(Drop(n, k), Pow10(k - 1), Num(LastDigits(n / 10, k - 1)));
    }
  }

  lemma {:induction false} TrimStopsAt(a: string, c: char, b: string, zero: char)
    requires c != zero
    ensures TrimRight(a + [c] + b, zero) == a + [c] + TrimRight(b, zero)
  {
    var s := a + [c] + b;
    if b == "" {
      assert s[|s| - 1] == c;
    } else if b[|b| - 1] == zero {
      assert s[..|s| - 1] == a + [c] + b[..|b| - 1];
      TrimStopsAt(a, c, b[..|b| - 1], zero);
    }
  }

  lemma TrimPoint(s: string)
    requires s != "" && s[|s| - 1] != '.'
    ensures TrimRight(s, '.') == s && TrimRight(s + ".", '.') == s
  {
    assert (s + ".")[..|s|] == s;
  }

  /** With decimals, the printed text is the whole part and what is left of the fraction. */
  lemma FormattedParts(n: nat, decimals: nat, whole: string, digits: string)
    requires decimals >= 1
    requires whole == Dec(Drop(n, decimals)) && digits == TrimRight(LastDigits(n, decimals), '0')
    ensures FormatTokenAmount(n, decimals) == if digits == "" then whole else whole + "." + digits
  {
    DecNum(Drop(n, decimals));
    TrimStopsAt(whole, '.', LastDigits(n, decimals), '0');
    TrimRightZeros(LastDigits(n, decimals));
    if digits == "" {
      assert whole + "." + digits == whole + ".";
      TrimPoint(whole);
    } else {
      TrimPoint(whole + "." + digits);
    }
  }

  /** Both parts in digits, so the printed text is split again at its point. */
  lemma FormattedSplit(text: string, whole: string, digits: string)
    requires DigitsOnly(whole) && DigitsOnly(digits) && whole != ""
    requires text == if digits == "" then whole else whole + "." + digits
    ensures text != "" && Plain(text) && Whole(text) == whole && Frac(text) == digits
  {
    if digits == "" { SplitWithoutPoint(whole); } else { SplitAtPoint(whole, digits); }
  }

  lemma FormatDenotes(n: nat, decimals: nat)
    requires decimals >= 1
    ensures Denotes(FormatTokenAmount(n, decimals), n, decimals) && |Frac(FormatTokenAmount(n, decimals))| <= decimals
    ensures FormatTokenAmount(n, decimals) != ""
  {
    var whole, frac := Dec(Drop(n, decimals)), LastDigits(n, decimals);
    var digits := TrimRight(frac, '0');
    DecNum(Drop(n, decimals));
    TrimRightZeros(frac);
    FormattedParts(n, decimals, whole, digits);
    FormattedSplit(FormatTokenAmount(n, decimals), whole, digits);
    PartsDenote(n, decimals, whole, frac);
  }

  lemma {:induction false} NoLeadingZero(n: nat)
    ensures Dec(n) != "" && (n > 0 ==> Dec(n)[0] != '0') && (n == 0 ==> Dec(n) == "0")
  {
    if n >= 10 {
      NoLeadingZero(n / 10);
      assert Dec(n)[0] == Dec(n / 10)[0];
    }
  }

  /** Nothing can be left out of the text: a point is followed by digits that end in a non-zero one, and a zero comes
      first only before a point or alone. */
  predicate Shortest(text: string) {
    && text != ""
    && (|text| > 1 && text[0] == '0' ==> text[1] == '.')
    && ('.' in text ==> text[|text| - 1] in {'1', '2', '3', '4', '5', '6', '7', '8', '9'})
  }

  lemma JoinedIsShortest(whole: string, digits: string)
    requires whole != "" && DigitsOnly(whole) && DigitsOnly(digits) && (whole[0] == '0' ==> whole == "0")
    requires digits != "" ==> digits[|digits| - 1] != '0'
    ensures Shortest(if digits == "" then whole else whole + "." + digits)
  {
    var text := whole + "." + digits;
    assert text[0] == whole[0] && (|whole| == 1 ==> text[1] == '.');
    if digits != "" { assert IsDigit(digits[|digits| - 1]) && text[|text| - 1] == digits[|digits| - 1]; }
  }

  lemma FormatIsShortest(n: nat, decimals: nat)
    requires decimals >= 1
    ensures Shortest(FormatTokenAmount(n, decimals))
  {
    var whole, frac := Dec(Drop(n, decimals)), LastDigits(n, decimals);
    NoLeadingZero(Drop(n, decimals));
    DecNum(Drop(n, decimals));
    TrimRightZeros(frac);
    FormattedParts(n, decimals, whole, TrimRight(frac, '0'));
    JoinedIsShortest(whole, TrimRight(frac, '0'));
  }

  /** The whole part and what is left of the fraction write the amount. */
  lemma PartsDenote(n: nat, decimals: nat, whole: string, frac: string)
    requires whole == Dec(Drop(n, decimals)) && frac == LastDigits(n, decimals)
    ensures DigitsOnly(whole + TrimRight(frac, '0'))
    ensures n * Pow10(|TrimRight(frac, '0')|) == Num(whole + TrimRight(frac, '0')) * Pow10(decimals)
  {
    WrittenExactly(n, decimals, whole, frac);
    ScaledEqually(whole, frac, n, decimals);
    TrimRightZeros(frac);
  }

  lemma WrittenExactly(n: nat, decimals: nat, whole: string, frac: string)
    requires whole == Dec(Drop(n, decimals)) && frac == LastDigits(n, decimals)
    ensures DigitsOnly(whole) && DigitsOnly(frac) && DigitsOnly(whole + frac)
    ensures n * Pow10(|frac|) == Num(whole + frac) * Pow10(decimals)
  {
    DecNum(Drop(n, decimals));
    NumConcat(whole, frac);
    DroppedAndKept(n, decimals);
  }

  /** Without decimals the printer also strips the zeros that end the integer. */
  lemma FormatWhole(n: nat)
    ensures n == 0 || n % 10 != 0 ==> FormatTokenAmount(n, 0) == Dec(n)
    ensures n > 0 && n % 10 == 0 ==> FormatTokenAmount(n, 0) == TrimRight(Dec(n), '0') != ""
  {
    var s := Dec(n);
    var t := TrimRight(s, '0');
    DecNum(n);
    TrimRightZeros(s);
    if t == "" {
      NumPadded("", |s|);
      assert "" + Zeros(|s|) == s;
      assert n == 0;
    } else {
      TrimPoint(t);
    }
  }

  lemma FormatWholeDenotes(n: nat)
    ensures FormatTokenAmount(n, 0) != "" && Plain(FormatTokenAmount(n, 0)) && Frac(FormatTokenAmount(n, 0)) == ""
    ensures Denotes(FormatTokenAmount(n, 0), n, 0) <==> n == 0 || n % 10 != 0
  {
    var s, text := Dec(n), FormatTokenAmount(n, 0);
    DecNum(n);
    TrimRightZeros(s);
    FormatWhole(n);
    FormattedSplit(text, text, "");
    WholeDenotes(text, n);
    if n > 0 && n % 10 == 0 {
      NumPadded(text, |s| - |text|);
      assert |text| < |s|;
      Shrinks(Num(text), |s| - |text|);
    }
  }

  lemma WholeDenotes(text: string, n: nat)
    requires Plain(text) && Whole(text) == text && Frac(text) == ""
    ensures Denotes(text, n, 0) <==> n == Num(text)
  {
    assert text + "" == text;
    assert Pow10(0) == 1;
  }

  lemma Shrinks(a: nat, k: nat)
    requires a * Pow10(k) > 0 && k > 0
    ensures a < a * Pow10(k)
  {
    ScaleBy10(a, Pow10(k - 1), 0);
    assert a * Pow10(k - 1) >= a;
  }

  /** Printing and parsing back is the identity, in the gateway and for positive amounts in the worker, exactly when
      the token has decimals or the amount does not end in a zero. */
  lemma PrintThenParse(n: nat, decimals: nat)
    ensures GatewayParse(FormatTokenAmount(n, decimals), decimals) == Units(n)
            <==> decimals >= 1 || n == 0 || n % 10 != 0
    ensures n > 0 ==> (WorkerParse(FormatTokenAmount(n, decimals), decimals) == Units(n)
                       <==> decimals >= 1 || n % 10 != 0)
  {
    var text := FormatTokenAmount(n, decimals);
    if decimals >= 1 { FormatDenotes(n, decimals); } else { FormatWholeDenotes(n); }
    PlainCharacters(text);
    NothingToTrim(text);
    GatewayOnPlainText(text, decimals, n);
    WorkerAcceptsExactly(text, decimals, n);
  }
}
