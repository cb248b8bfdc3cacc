/**
 * The statistics shared by the dashboard, weekly and monthly pages: sums, the rounded
 * mean, the ±10% "achieved" band, the rate-based three-way status, and a signed
 * difference as the pages print it.
 */
module Aggregates {
  import opened JsValues

  /** `arr.reduce((sum, val) => sum + val, 0)` */
  function Sum(xs: seq<int>): int {
    if xs == [] then 0 else xs[0] + Sum(xs[1..])
  }

  lemma {:induction false} SumConcat(a: seq<int>, b: seq<int>)
    ensures Sum(a + b) == Sum(a) + Sum(b)
  {
    if a == [] {
      assert a + b == b;
    } else {
      SumConcat(a[1..], b);
      assert (a + b)[1..] == a[1..] + b;
    }
  }

  /** A sum of values between `lo` and `hi` lies between `n·lo` and `n·hi`. */
  lemma {:induction false} SumBounds(xs: seq<int>, lo: int, hi: int)
    requires forall i :: 0 <= i < |xs| ==> lo <= xs[i] <= hi
    ensures |xs| * lo <= Sum(xs) <= |xs| * hi
  {
    if xs != [] {
      SumBounds(xs[1..], lo, hi);
      assert |xs| * lo == lo + |xs[1..]| * lo;
      assert |xs| * hi == hi + |xs[1..]| * hi;
    }
  }

  /**
   * `Math.round(sum / length)`: NaN for an empty sequence (0 / 0), otherwise the integer
   * nearest to the exact mean, stated without division as `2·sum − n < 2·r·n ≤ 2·sum + n`.
   */
  function RoundedMean(xs: seq<int>): (r: Number)
    ensures r.NaN? <==> xs == []
    ensures r.Int? ==> 2 * Sum(xs) - |xs| < 2 * r.value * |xs| <= 2 * Sum(xs) + |xs|
  {
    if xs == [] then NaN
    else
      var x := Sum(xs) as real / |xs| as real;
      var r := Round(x);
      MeanScale(Sum(xs), |xs|, r);
      Int(r)
  }

  lemma MulLess(a: real, b: real, c: real)
    requires a < b && c > 0.0
    ensures a * c < b * c
  {
  }

  lemma MulAtMost(a: real, b: real, c: real)
    requires a <= b && c > 0.0
    ensures a * c <= b * c
  {
  }

  /** For a positive divisor, `c / g >= t` exactly when `c >= t·g`. */
  lemma RatioAtLeast(c: real, g: real, t: real)
    requires g > 0.0
    ensures c / g >= t <==> c >= t * g
  {
    assert (c / g) * g == c;
    if c / g >= t {
      MulAtMost(t, c / g, g);
    }
    if c >= t * g && c / g < t {
      MulLess(c / g, t, g);
    }
  }

  /** For a positive divisor, `c / g <= t` exactly when `c <= t·g`. */
  lemma RatioAtMost(c: real, g: real, t: real)
    requires g > 0.0
    ensures c / g <= t <==> c <= t * g
  {
    assert (c / g) * g == c;
    if c / g <= t {
      MulAtMost(c / g, t, g);
    }
    if c <= t * g && c / g > t {
      MulLess(t, c / g, g);
    }
  }

  /** Multiplying the rounding bounds of `s / n` through by `2n`. */
  lemma MeanScale(s: int, n: int, r: int)
    requires n > 0
    requires s as real / n as real - 0.5 < r as real <= s as real / n as real + 0.5
    ensures 2 * s - n < 2 * r * n <= 2 * s + n
  {
    RatioAtLeast(s as real, n as real, r as real - 0.5);
    RatioAtLeast(s as real, n as real, r as real + 0.5);
    assert (r * n) as real == r as real * n as real;
  }

  /** A positive multiple with a positive factor has a positive cofactor. */
  lemma PositiveCofactor(n: int, k: int)
    requires n > 0 && n * k > 0
    ensures k > 0
  {
  }

  /** An integer nearest to `s / n`, with `s` between `n·lo` and `n·hi`, lies between `lo` and `hi`. */
  lemma NearestBetween(s: int, n: int, r: int, lo: int, hi: int)
    requires n > 0 && n * lo <= s <= n * hi
    requires 2 * s - n < 2 * r * n <= 2 * s + n
    ensures lo <= r <= hi
  {
    assert n * (2 * r - 2 * lo + 1) == 2 * r * n - 2 * (n * lo) + n;
    PositiveCofactor(n, 2 * r - 2 * lo + 1);
    assert n * (2 * hi - 2 * r + 1) == 2 * (n * hi) - 2 * r * n + n;
    PositiveCofactor(n, 2 * hi - 2 * r + 1);
  }

  /** The rounded mean of values between `lo` and `hi` is itself between them. */
  lemma MeanBetween(xs: seq<int>, lo: int, hi: int)
    requires xs != []
    requires forall i :: 0 <= i < |xs| ==> lo <= xs[i] <= hi
    ensures lo <= RoundedMean(xs).value <= hi
  {
    SumBounds(xs, lo, hi);
    NearestBetween(Sum(xs), |xs|, RoundedMean(xs).value, lo, hi);
  }

  /** The mean of a constant sequence is that constant. */
  lemma MeanOfConstant(xs: seq<int>, v: int)
    requires xs != []
    requires forall i :: 0 <= i < |xs| ==> xs[i] == v
    ensures RoundedMean(xs) == Int(v)
  {
    MeanBetween(xs, v, v);
  }

  // ---------------------------------------------------------------------------
  // The achieved band and the rate status
  // ---------------------------------------------------------------------------

  /**
   * `c >= g * 0.9 && c <= g * 1.1`, with the goal a number that may be NaN: then both
   * comparisons are false.
   */
  predicate WithinBand(c: int, g: Number) {
    AtMost(Scale(ToFloat(g), 0.9), Finite(c as real)) && AtMost(Finite(c as real), Scale(ToFloat(g), 1.1))
  }

  /**
   * The band in integer arithmetic for a numeric goal: `10c ≥ 9g` and `10c ≤ 11g`; it is
   * empty for a negative goal. A NaN goal has an empty band too.
   */
  lemma WithinBandInt(c: int, g: int)
    ensures WithinBand(c, Int(g)) <==> 10 * c >= 9 * g && 10 * c <= 11 * g
    ensures g < 0 ==> !WithinBand(c, Int(g))
    ensures !WithinBand(c, NaN)
  {
    assert (c as real >= g as real * 0.9) == ((10 * c) as real >= (9 * g) as real);
    assert (c as real <= g as real * 1.1) == ((10 * c) as real <= (11 * g) as real);
  }

  /** `cs.filter(c => within band).length` */
  function CountWithinBand(cs: seq<int>, g: Number): (n: nat)
    ensures n <= |cs|
    ensures n == |cs| <==> forall i :: 0 <= i < |cs| ==> WithinBand(cs[i], g)
    ensures n == 0 <==> forall i :: 0 <= i < |cs| ==> !WithinBand(cs[i], g)
  {
    if cs == [] then 0
    else
      var rest := CountWithinBand(cs[1..], g);
      assert forall i :: 1 <= i < |cs| ==> cs[i] == cs[1..][i - 1];
      (if WithinBand(cs[0], g) then 1 else 0) + rest
  }

  /** A NaN goal achieves no day at all. */
  lemma NaNGoalCountsNothing(cs: seq<int>)
    ensures CountWithinBand(cs, NaN) == 0
  {
    forall i | 0 <= i < |cs| ensures !WithinBand(cs[i], NaN) {
      WithinBandInt(cs[i], 0);
    }
  }

  /** The row status of the weekly table (`table-row-…`). */
  datatype Status = Success | Under | Over

  /**
   * `rate = (c / g) * 100`, then "success" when `rate >= 90 && rate <= 110`, "under" when
   * `rate < 90`, and "over" otherwise, with the floating-point division and comparisons.
   */
  function RateStatus(c: int, g: Number): Status {
    var rate := Scale(Divide(c as real, ToFloat(g)), 100.0);
    if AtMost(Finite(90.0), rate) && AtMost(rate, Finite(110.0)) then Success
    else if Below(rate, Finite(90.0)) then Under
    else Over
  }

  /** `rate >= 90 && rate <= 110` of the monthly cells and the detail modal. */
  predicate RateAchieved(c: int, g: Number) {
    RateStatus(c, g) == Success
  }

  /**
   * For a positive goal the rate test and the band test agree, "under" means below 90%
   * of the goal, and "over" means above 110%.
   */
  lemma RateMatchesBand(c: int, g: int)
    requires g > 0
    ensures RateAchieved(c, Int(g)) <==> WithinBand(c, Int(g))
    ensures RateStatus(c, Int(g)) == Under <==> 10 * c < 9 * g
    ensures RateStatus(c, Int(g)) == Over <==> 10 * c > 11 * g
  {
    WithinBandInt(c, g);
    RatioAtLeast(c as real, g as real, 0.9);
    RatioAtMost(c as real, g as real, 1.1);
  }

  /**
   * With a goal of 0 the rate is +Infinity (over) for positive calories, −Infinity (under)
   * for negative ones and NaN (neither test holds: over) for 0, so no day succeeds.
   */
  lemma ZeroGoalStatus(c: int)
    ensures RateStatus(c, Int(0)) == (if c < 0 then Under else Over)
  {
  }

  /** With a NaN goal the rate is NaN: every day is "over" and none succeeds. */
  lemma NaNGoalStatus(c: int)
    ensures RateStatus(c, NaN) == Over
  {
  }

  /** With a goal of 0 the band holds only for 0 kcal, while the rate test never holds. */
  lemma ZeroGoalDisagreement()
    ensures WithinBand(0, Int(0)) && !RateAchieved(0, Int(0))
  {
    ZeroGoalStatus(0);
  }

  /** How many values get status `s`. */
  function CountStatus(cs: seq<int>, g: Number, s: Status): (n: nat)
    ensures n <= |cs|
  {
    if cs == [] then 0 else (if RateStatus(cs[0], g) == s then 1 else 0) + CountStatus(cs[1..], g, s)
  }

  /** For a positive or NaN goal a value succeeds exactly when it is in the band. */
  lemma SuccessIsBand(c: int, g: Number)
    requires g.NaN? || g.value > 0
    ensures RateAchieved(c, g) <==> WithinBand(c, g)
  {
    if g.NaN? {
      NaNGoalStatus(c);
      WithinBandInt(c, 0);
    } else {
      RateMatchesBand(c, g.value);
    }
  }

  /** For a positive or NaN goal the number of "success" values equals the band count. */
  lemma {:induction false} SuccessCountIsBandCount(cs: seq<int>, g: Number)
    requires g.NaN? || g.value > 0
    ensures CountStatus(cs, g, Success) == CountWithinBand(cs, g)
  {
    if cs != [] {
      SuccessIsBand(cs[0], g);
      SuccessCountIsBandCount(cs[1..], g);
    }
  }

  /** The three statuses split the values between them. */
  lemma {:induction false} StatusesPartition(cs: seq<int>, g: Number)
    ensures CountStatus(cs, g, Success) + CountStatus(cs, g, Under) + CountStatus(cs, g, Over) == |cs|
  {
    if cs != [] {
      StatusesPartition(cs[1..], g);
    }
  }

  // ---------------------------------------------------------------------------
  // Day records
  // ---------------------------------------------------------------------------

  /** One day of the weekly or monthly page: its date, the calories eaten and the goal it is measured against. */
  datatype DayRecord = DayRecord(date: int, calories: int, goal: Number)

  /** `records.map(d => d.calories)` */
  function CaloriesOf(rs: seq<DayRecord>): seq<int> {
    seq(|rs|, i requires 0 <= i < |rs| => rs[i].calories)
  }

  /** The calorie column of a non-empty run of records is its first record's calories followed by the rest's column. */
  lemma CaloriesOfCons(rs: seq<DayRecord>)
    requires rs != []
    ensures CaloriesOf(rs) == [rs[0].calories] + CaloriesOf(rs[1..])
  {
  }

  // ---------------------------------------------------------------------------
  // Signed differences
  // ---------------------------------------------------------------------------

  /** `{diff >= 0 ? '+' : ''}{diff}`: a "+" before a non-negative difference, the minus sign otherwise. */
  function SignedText(d: int): (t: string)
    ensures t != [] && (t[0] == '+' <==> d >= 0) && (t[0] == '-' <==> d < 0)
  {
    var n := IntToString(d);
    assert d >= 0 ==> IsDigit(n[0]);
    (if d >= 0 then "+" else "") + n
  }

  /** The printed difference reads back as the difference. */
  lemma SignedTextParses(d: int)
    ensures ParseInt(SignedText(d)) == Int(d)
  {
    if d < 0 {
      ParseIntIntToString(d);
      assert SignedText(d) == IntToString(d);
    } else {
      var d': nat := d;
      NatToStringValue(d');
      var s := NatToString(d');
      assert SignedText(d) == "+" + s;
      assert ("+" + s)[1..] == s;
      assert s[..DigitPrefix(s)] == s;
    }
  }

  // ---------------------------------------------------------------------------
  // The "so far" figure of the calendar summaries
  // ---------------------------------------------------------------------------

  /**
   * `-{x}` as the weekly and monthly summaries print the shortfall `x` (goal minus
   * average, times the days): a literal minus sign before the number's own text.
   */
  function ShortfallLabelAsWritten(x: int): string {
    "-" + IntToString(x)
  }

  /** Above the goal the shortfall is negative and the label shows two minus signs, which no longer reads as a number. */
  lemma ShortfallLabelAsWrittenDoubleMinus(x: int)
    requires x < 0
    ensures ShortfallLabelAsWritten(x)[..2] == "--"
    ensures ParseInt(ShortfallLabelAsWritten(x)) == NaN
  {
    var t := ShortfallLabelAsWritten(x);
    assert t[0] == '-' && t[1] == '-';
    assert TrimStart(t) == t;
  }

  /**
   * The label as evidently meant: the signed difference from the goal, so "-350" below
   * the goal and "+350" above it.
   */
  function ShortfallLabel(x: int): (t: string)
    ensures ParseInt(t) == Int(-x)
    ensures x > 0 ==> t == ShortfallLabelAsWritten(x)
  {
    SignedTextParses(-x);
    SignedText(-x)
  }
}
