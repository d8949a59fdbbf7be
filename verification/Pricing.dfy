/** Tolerance bounds and status resolution of one payment (internal/domain/payment/pricing.go), over exact reals. */
module Pricing {
  datatype IntentStatus = Created | AwaitingFunds | Partial | Overpaid | Confirmed | Settled | Expired | Failed

  /** math.Round: to the nearest integer, halves away from zero. */
  function Round(v: real): int {
    if v >= 0.0 then (v + 0.5).Floor else -((-v + 0.5).Floor)
  }

  function Round8(v: real): real {
    Round(v * 100000000.0) as real / 100000000.0
  }

  function AtLeastZero(v: real): real {
    if v < 0.0 then 0.0 else v
  }

  /** The tolerated share of an amount, for a tolerance already divided by 100. */
  function Share(amount: real, multiplier: real): (r: real)
    ensures 0.0 <= amount && 0.0 <= multiplier ==> 0.0 <= r
  {
    amount * multiplier
  }

  lemma ShareMonotone(a: real, b: real, m: real, n: real)
    requires 0.0 <= a <= b && 0.0 <= m <= n
    ensures Share(a, m) <= Share(b, n)
  {
    assert a * m <= a * n <= b * n;
  }

  function UnroundedMin(expected: real, tolerance: real): (r: real)
    ensures r == AtLeastZero(AtLeastZero(expected) - Share(AtLeastZero(expected), AtLeastZero(tolerance) / 100.0))
  {
    AtLeastZero(AtLeastZero(expected) * (1.0 - AtLeastZero(tolerance) / 100.0))
  }

  function UnroundedMax(expected: real, tolerance: real): (r: real)
    ensures r == AtLeastZero(expected) + Share(AtLeastZero(expected), AtLeastZero(tolerance) / 100.0)
  {
    AtLeastZero(expected) * (1.0 + AtLeastZero(tolerance) / 100.0)
  }

  datatype Bounds = Bounds(min: real, max: real)

  function ComputeBounds(expected: real, tolerance: real): (b: Bounds)
    ensures 0.0 <= b.min <= b.max
  {
    Round8Monotone(UnroundedMin(expected, tolerance), UnroundedMax(expected, tolerance));
    Bounds(Round8(UnroundedMin(expected, tolerance)), Round8(UnroundedMax(expected, tolerance)))
  }

  function ResolveIntentStatus(expected: real, received: real, tolerance: real,
                               confirmations: int, required: int): IntentStatus
  {
    if received <= 0.0 then AwaitingFunds else
      var b := ComputeBounds(expected, tolerance);
      if confirmations < required then
        if received < b.min then Partial
        else if received > b.max then Overpaid
        else AwaitingFunds
      else if received < b.min then Partial
      else if received > b.max then Overpaid
      else Confirmed
  }

  predicate IsPaid(status: IntentStatus) {
    status in {Confirmed, Overpaid, Settled}
  }

  // ---- Rounding ----

  lemma RoundNear(v: real)
    requires 0.0 <= v
    ensures v - 0.5 < Round(v) as real <= v + 0.5
  {}

  lemma Round8Near(v: real)
    requires 0.0 <= v
    ensures v - 0.000000005 < Round8(v) <= v + 0.000000005
    ensures Round8(v) * 100000000.0 == Round(v * 100000000.0) as real
  {
    RoundNear(v * 100000000.0);
  }

  lemma RoundMonotone(a: real, b: real)
    requires a <= b
    ensures Round(a) <= Round(b)
  {
    if 0.0 <= a {
      assert (a + 0.5).Floor <= (b + 0.5).Floor;
    } else if b < 0.0 {
      assert (-b + 0.5).Floor <= (-a + 0.5).Floor;
    } else {
      assert 0 <= (-a + 0.5).Floor && 0 <= (b + 0.5).Floor;
    }
  }

  /** Negative arguments count as zero. Each bound is the multiple of 1e-8 next to the expected amount less or plus its
      tolerated percentage, the upper one of two equally near; the minimum does not go below zero. */
  lemma BoundsNearUnrounded(expected: real, tolerance: real)
    ensures var b := ComputeBounds(expected, tolerance);
      var e, t := if expected < 0.0 then 0.0 else expected, if tolerance < 0.0 then 0.0 else tolerance;
      var low, high := if t > 100.0 then 0.0 else e - e * t / 100.0, e + e * t / 100.0;
      && low - 0.000000005 < b.min <= low + 0.000000005
      && high - 0.000000005 < b.max <= high + 0.000000005
      && (b.min * 100000000.0).Floor as real == b.min * 100000000.0
      && (b.max * 100000000.0).Floor as real == b.max * 100000000.0
  {
    var low, high := UnroundedMin(expected, tolerance), UnroundedMax(expected, tolerance);
    UnroundedBounds(expected, tolerance);
    NearAndOnGrid(low, Round8(low));
    NearAndOnGrid(high, Round8(high));
  }

  lemma UnroundedBounds(expected: real, tolerance: real)
    ensures var e, t := if expected < 0.0 then 0.0 else expected, if tolerance < 0.0 then 0.0 else tolerance;
      && 0.0 <= UnroundedMin(expected, tolerance) == (if t > 100.0 then 0.0 else e - e * t / 100.0)
      && 0.0 <= UnroundedMax(expected, tolerance) == e + e * t / 100.0
  {
    SharePercent(AtLeastZero(expected), AtLeastZero(tolerance));
  }

  lemma NearAndOnGrid(v: real, rounded: real)
    requires 0.0 <= v && rounded == Round8(v)
    ensures v - 0.000000005 < rounded <= v + 0.000000005
    ensures (rounded * 100000000.0).Floor as real == rounded * 100000000.0
  {
    Round8Near(v);
  }

  lemma SharePercent(e: real, t: real)
    requires 0.0 <= e && 0.0 <= t
    ensures Share(e, t / 100.0) == e * t / 100.0
    ensures AtLeastZero(e - Share(e, t / 100.0)) == if t > 100.0 then 0.0 else e - e * t / 100.0
  {
    if t > 100.0 {
      ShareMonotone(e, e, 1.0, t / 100.0);
    } else {
      ShareMonotone(e, e, t / 100.0, 1.0);
    }
  }

  lemma Round8Monotone(a: real, b: real)
    requires a <= b
    ensures Round8(a) <= Round8(b)
  {
    RoundMonotone(a * 100000000.0, b * 100000000.0);
  }

  /** What is left of an amount after its tolerated share grows with the amount, as long as it is positive. */
  lemma RemainderMonotone(a: real, b: real, m: real)
    requires 0.0 <= a <= b && 0.0 <= m
    ensures AtLeastZero(a - Share(a, m)) <= AtLeastZero(b - Share(b, m))
  {
    if m <= 1.0 {
      ShareMonotone(b - a, b - a, m, 1.0);
      assert Share(b, m) == Share(a, m) + Share(b - a, m);
    } else {
      assert a <= a * m;
    }
  }

  lemma BoundsMonotoneInExpected(e: real, f: real, tolerance: real)
    requires e <= f
    ensures ComputeBounds(e, tolerance).min <= ComputeBounds(f, tolerance).min
    ensures ComputeBounds(e, tolerance).max <= ComputeBounds(f, tolerance).max
  {
    var m := AtLeastZero(tolerance) / 100.0;
    RemainderMonotone(AtLeastZero(e), AtLeastZero(f), m);
    ShareMonotone(AtLeastZero(e), AtLeastZero(f), m, m);
    Round8Monotone(UnroundedMin(e, tolerance), UnroundedMin(f, tolerance));
    Round8Monotone(UnroundedMax(e, tolerance), UnroundedMax(f, tolerance));
  }

  lemma BandWidensWithTolerance(e: real, s: real, t: real)
    requires s <= t
    ensures ComputeBounds(e, t).min <= ComputeBounds(e, s).min
    ensures ComputeBounds(e, s).max <= ComputeBounds(e, t).max
  {
    ShareMonotone(AtLeastZero(e), AtLeastZero(e), AtLeastZero(s) / 100.0, AtLeastZero(t) / 100.0);
    Round8Monotone(UnroundedMin(e, t), UnroundedMin(e, s));
    Round8Monotone(UnroundedMax(e, s), UnroundedMax(e, t));
  }

  function Rank(status: IntentStatus): int {
    match status
    case AwaitingFunds => 0
    case Partial => 1
    case Confirmed => 2
    case Overpaid => 3
    case _ => -1
  }

  /** At full confirmations a larger payment never has a lower status. */
  lemma StatusMonotoneInReceived(e: real, t: real, r: real, r': real, confirmations: int, required: int)
    requires r <= r' && required <= confirmations
    ensures 0 <= Rank(ResolveIntentStatus(e, r, t, confirmations, required))
              <= Rank(ResolveIntentStatus(e, r', t, confirmations, required))
  {}

  // ---- Paying exactly the expected amount ----

  /** The part of an amount below the eighth decimal, as a fraction of that decimal. */
  function Dust(amount: real): real {
    amount * 100000000.0 - (amount * 100000000.0).Floor as real
  }

  /** The tolerated share of an amount, in units of the eighth decimal. */
  function Slack(expected: real, tolerance: real): real {
    Share(expected, AtLeastZero(tolerance) / 100.0) * 100000000.0
  }

  /** The tolerance on one side, in units of the eighth decimal, reaches the point where Dust rounds the other way. */
  predicate ToleranceCoversDust(expected: real, tolerance: real) {
    var slack := Slack(expected, tolerance);
    var dust := Dust(expected);
    dust == 0.0 || (if dust < 0.5 then 0.5 - dust <= slack else dust - 0.5 < slack)
  }

  lemma IntegerBelow(n: int, k: real)
    ensures n as real <= k <==> n <= k.Floor
  {
    if n <= k.Floor {
      assert n as real <= k.Floor as real;
    } else {
      assert k < k.Floor as real + 1.0 <= n as real;
    }
  }

  lemma MinRoundsBelow(k: real, low: real)
    requires 0.0 <= low <= k
    ensures Round(low) as real <= k <==> low < k.Floor as real + 0.5
  {
    IntegerBelow(Round(low), k);
    if Round(low) <= k.Floor {
      assert low + 0.5 < Round(low) as real + 1.0 <= k.Floor as real + 1.0;
    } else {
      assert k.Floor as real + 1.0 <= Round(low) as real <= low + 0.5;
    }
  }

  lemma MaxRoundsAbove(k: real, high: real)
    requires 0.0 <= k <= high
    ensures k <= Round(high) as real <==> k == k.Floor as real || k.Floor as real + 0.5 <= high
  {
    var r := Round(high);
    RoundMonotone(k.Floor as real, high);
    assert k.Floor <= r;
    if k.Floor < r {
      assert k < k.Floor as real + 1.0 <= r as real <= high + 0.5;
    } else {
      assert high + 0.5 < r as real + 1.0;
    }
  }

  lemma WithinBandIff(k: real, slack: real)
    requires 0.0 < k && 0.0 <= slack
    ensures var dust := k - k.Floor as real;
      Round(AtLeastZero(k - slack)) as real <= k <= Round(k + slack) as real
      <==> dust == 0.0 || (if dust < 0.5 then 0.5 - dust <= slack else dust - 0.5 < slack)
  {
    MinRoundsBelow(k, AtLeastZero(k - slack));
    MaxRoundsAbove(k, k + slack);
  }

  lemma CompareScaled(n: int, v: real)
    ensures n as real / 100000000.0 <= v <==> n as real <= v * 100000000.0
    ensures v <= n as real / 100000000.0 <==> v * 100000000.0 <= n as real
  {}

  /** Paying exactly what was asked is "confirmed" precisely when the band, after rounding, still contains it.
      With no tolerance and an amount finer than 1e-8 it is not. */
  lemma ExactPaymentConfirmedIff(expected: real, tolerance: real, confirmations: int, required: int)
    requires 0.0 < expected && required <= confirmations
    ensures ResolveIntentStatus(expected, expected, tolerance, confirmations, required) == Confirmed
       <==> ToleranceCoversDust(expected, tolerance)
  {
    var k, slack := expected * 100000000.0, Slack(expected, tolerance);
    WithinBandIff(k, slack);
    CompareScaled(Round(AtLeastZero(k - slack)), expected);
    CompareScaled(Round(k + slack), expected);
  }

  /** In particular a tolerance worth half a unit of the eighth decimal always suffices. */
  lemma ExactPaymentConfirmed(expected: real, tolerance: real, confirmations: int, required: int)
    requires 0.0 < expected && required <= confirmations
    requires expected * tolerance / 100.0 >= 0.000000005 || Dust(expected) == 0.0
    ensures ResolveIntentStatus(expected, expected, tolerance, confirmations, required) == Confirmed
  {
    ExactPaymentConfirmedIff(expected, tolerance, confirmations, required);
    if Dust(expected) != 0.0 { HalfUnitSlack(expected, tolerance); }
  }

  lemma HalfUnitSlack(expected: real, tolerance: real)
    requires 0.0 < expected && expected * tolerance / 100.0 >= 0.000000005
    ensures Slack(expected, tolerance) >= 0.5
  {
    assert tolerance > 0.0;
    SharePercent(expected, tolerance);
  }

  /** An exact payment of 1.000000001 with zero tolerance is classified as overpaid. */
  lemma ExactPaymentCanBeOverpaid()
    ensures ResolveIntentStatus(1.000000001, 1.000000001, 0.0, 12, 12) == Overpaid
  {
    assert (1.000000001 * 100000000.0 + 0.5).Floor == 100000000;
  }
}
