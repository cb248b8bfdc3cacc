/**
 * The monthly calendar (src/pages/MonthlyCalendarPage.js): thirty day records with a
 * fixed goal, their average, the calendar grid with its leading blanks, the chart's
 * sampled points and the per-day achieved test. The calorie values (random in the page)
 * are an input.
 */
module MonthlyCalendar {
  import opened Wrappers
  import opened JsValues
  import opened Aggregates

  /** The month page's fixed goal. */
  const MonthGoal: int := 2000

  /** Days in the shown month. */
  const MonthLength: int := 30

  /** Blank cells before day 1 (the page assumes the 1st falls on the sixth column). */
  const LeadingBlanks: int := 5

  /** `dummyMonthData = Array.from({ length: 30 }, (_, i) => ...)`: day `i + 1` with its calories and goal 2000. */
  function MonthData(cals: seq<int>): seq<DayRecord>
    requires |cals| == MonthLength
  {
    seq(MonthLength, i requires 0 <= i < MonthLength => DayRecord(i + 1, cals[i], Int(MonthGoal)))
  }

  /** `Math.round(sum / 30)`: the divisor is the constant 30, not the record count. */
  function MonthAverage(rs: seq<DayRecord>): int {
    Round(Sum(CaloriesOf(rs)) as real / 30.0)
  }

  /** For the page's thirty records the average is the rounded mean of the calorie input. */
  lemma MonthAverageIsMean(cals: seq<int>)
    requires |cals| == MonthLength
    ensures CaloriesOf(MonthData(cals)) == cals
    ensures MonthAverage(MonthData(cals)) == RoundedMean(cals).value
  {
    assert CaloriesOf(MonthData(cals)) == cals;
  }

  /** `(2000 - avgCalories) * 30`: the month's calories below the goal, negative when above it. */
  function MonthShortfall(avg: int): (s: int)
    ensures s >= 0 <==> avg <= MonthGoal
    ensures s % MonthLength == 0
  {
    (MonthGoal - avg) * MonthLength
  }

  /** The summary's "so far" text, as the corrected signed label: it reads back as the month's calories past the goal. */
  function MonthSummaryText(avg: int): (t: string)
    ensures ParseInt(t) == Int((avg - MonthGoal) * MonthLength)
    ensures avg < MonthGoal ==> t == ShortfallLabelAsWritten(MonthShortfall(avg))
  {
    ShortfallLabel(MonthShortfall(avg))
  }

  // ---------------------------------------------------------------------------
  // The calendar grid
  // ---------------------------------------------------------------------------

  /** `[null, null, null, null, null, ...dummyMonthData]` */
  function CalendarGrid(rs: seq<DayRecord>): seq<Option<DayRecord>> {
    seq(LeadingBlanks, _ => None) + seq(|rs|, i requires 0 <= i < |rs| => Some(rs[i]))
  }

  /**
   * The month's grid has 35 cells: five blanks, then day `i − 4` in cell `i`, so the
   * days fill the remaining cells in order and each appears exactly once.
   */
  lemma GridLayout(cals: seq<int>)
    requires |cals| == MonthLength
    ensures |CalendarGrid(MonthData(cals))| == 35
    ensures forall i :: 0 <= i < 5 ==> CalendarGrid(MonthData(cals))[i].None?
    ensures forall i :: 5 <= i < 35 ==>
      CalendarGrid(MonthData(cals))[i] == Some(DayRecord(i - 4, cals[i - 5], Int(MonthGoal)))
  {
  }

  // ---------------------------------------------------------------------------
  // Chart sampling
  // ---------------------------------------------------------------------------

  /** `i % 5 === 0 || i === length - 1` */
  predicate Kept(i: int, n: int) {
    i % 5 == 0 || i == n - 1
  }

  /** The kept indices from `from` up to `n`, ascending. */
  function KeptFrom(from: nat, n: nat): seq<nat>
    decreases n - from
  {
    if from >= n then [] else (if Kept(from, n) then [from] else []) + KeptFrom(from + 1, n)
  }

  /** Every listed index is a kept one from `from` up to `n`, and the list ascends. */
  lemma {:induction false} KeptFromSound(from: nat, n: nat)
    ensures forall j :: 0 <= j < |KeptFrom(from, n)| ==>
      from <= KeptFrom(from, n)[j] < n && Kept(KeptFrom(from, n)[j], n)
    ensures forall j, k :: 0 <= j < k < |KeptFrom(from, n)| ==> KeptFrom(from, n)[j] < KeptFrom(from, n)[k]
    decreases n - from
  {
    if from < n {
      KeptFromSound(from + 1, n);
    }
  }

  /** Every kept index from `from` on is listed. */
  lemma {:induction false} KeptFromComplete(from: nat, n: nat, i: nat)
    requires from <= i < n && Kept(i, n)
    ensures i in KeptFrom(from, n)
    decreases i - from
  {
    if i > from {
      KeptFromComplete(from + 1, n, i);
    }
  }

  /** The indices the chart keeps out of `n` points: exactly the kept ones, ascending. */
  function SampledIndices(n: nat): (r: seq<nat>)
    ensures forall j :: 0 <= j < |r| ==> r[j] < n && Kept(r[j], n)
    ensures forall j, k :: 0 <= j < k < |r| ==> r[j] < r[k]
  {
    KeptFromSound(0, n);
    KeptFrom(0, n)
  }

  /** Every kept index below `n` is sampled. */
  lemma SampledIndicesComplete(n: nat, i: nat)
    requires i < n && Kept(i, n)
    ensures i in SampledIndices(n)
  {
    KeptFromComplete(0, n, i);
  }

  /** A stretch without kept indices contributes nothing. */
  lemma {:induction false} SkipUnkept(lo: nat, hi: nat, n: nat)
    requires lo <= hi <= n
    requires forall i :: lo <= i < hi ==> !Kept(i, n)
    ensures KeptFrom(lo, n) == KeptFrom(hi, n)
    decreases hi - lo
  {
    if lo < hi {
      SkipUnkept(lo + 1, hi, n);
    }
  }

  /** A kept index heads the list from itself on. */
  lemma KeptStep(k: nat, n: nat)
    requires k < n && Kept(k, n)
    ensures KeptFrom(k, n) == [k] + KeptFrom(k + 1, n)
  {
  }

  /** Away from the end, a multiple of 5 is followed by four dropped indices. */
  lemma KeptBlock(k: nat, n: nat)
    requires k % 5 == 0 && k + 5 < n
    ensures KeptFrom(k, n) == [k] + KeptFrom(k + 5, n)
  {
    SkipUnkept(k + 1, k + 5, n);
    KeptStep(k, n);
  }

  /** The last three sampled points of thirty. */
  lemma SampledFrom20(n: nat)
    requires n == MonthLength
    ensures KeptFrom(20, n) == [20, 25, 29]
  {
    KeptStep(29, n);
    SkipUnkept(26, 29, n);
    KeptStep(25, n);
    KeptBlock(20, n);
  }

  /** The last five sampled points of thirty. */
  lemma SampledFrom10(n: nat)
    requires n == MonthLength
    ensures KeptFrom(10, n) == [10, 15, 20, 25, 29]
  {
    SampledFrom20(n);
    KeptBlock(15, n);
    KeptBlock(10, n);
  }

  /** Thirty points are sampled at indices 0, 5, 10, 15, 20, 25 and 29: days 1, 6, 11, 16, 21, 26 and 30. */
  lemma SampledMonth(n: nat)
    requires n == MonthLength
    ensures SampledIndices(n) == [0, 5, 10, 15, 20, 25, 29]
  {
    SampledFrom10(n);
    KeptBlock(5, n);
    KeptBlock(0, n);
  }

  /** `.filter((_, i) => i % 5 === 0 || i === length - 1)` */
  function Sample<T>(xs: seq<T>): seq<T> {
    var idx := SampledIndices(|xs|);
    seq(|idx|, j requires 0 <= j < |idx| => xs[idx[j]])
  }

  /**
   * The filter keeps exactly the kept positions, in their order: every entry comes from a
   * kept position, later entries from later positions, and every kept position is there.
   */
  lemma SampleKeeps<T>(xs: seq<T>, i: nat)
    ensures forall j :: 0 <= j < |Sample(xs)| ==>
      SampledIndices(|xs|)[j] < |xs| && Kept(SampledIndices(|xs|)[j], |xs|) && Sample(xs)[j] == xs[SampledIndices(|xs|)[j]]
    ensures forall j, k :: 0 <= j < k < |Sample(xs)| ==> SampledIndices(|xs|)[j] < SampledIndices(|xs|)[k]
    ensures i < |xs| && Kept(i, |xs|) ==>
      exists j :: 0 <= j < |Sample(xs)| && SampledIndices(|xs|)[j] == i && Sample(xs)[j] == xs[i]
  {
    if i < |xs| && Kept(i, |xs|) {
      SampledIndicesComplete(|xs|, i);
    }
  }

  /** The chart's three series. */
  datatype Chart = Chart(labels: seq<string>, calories: seq<int>, goals: seq<Number>)

  /** `` `${d.date}일` `` */
  function DayLabel(date: int): string {
    IntToString(date) + "일"
  }

  /**
   * The labels, calorie series and goal series, each filtered by the same index rule and
   * then mapped: equally long, and entry `j` of each comes from the same record.
   */
  function MonthChart(rs: seq<DayRecord>): (c: Chart)
    ensures |c.labels| == |c.calories| == |c.goals| == |SampledIndices(|rs|)|
    ensures forall j :: 0 <= j < |c.labels| ==>
      var r := rs[SampledIndices(|rs|)[j]];
      c.labels[j] == DayLabel(r.date) && c.calories[j] == r.calories && c.goals[j] == r.goal
  {
    var s := Sample(rs);
    Chart(
      seq(|s|, j requires 0 <= j < |s| => DayLabel(s[j].date)),
      seq(|s|, j requires 0 <= j < |s| => s[j].calories),
      seq(|s|, j requires 0 <= j < |s| => s[j].goal))
  }

  /** The month's chart has seven points, the last one day 30, all at the month's goal. */
  lemma MonthChartPoints(cals: seq<int>)
    requires |cals| == MonthLength
    ensures var c := MonthChart(MonthData(cals));
      && |c.labels| == 7
      && c.labels[6] == DayLabel(30)
      && forall j :: 0 <= j < 7 ==> c.goals[j] == Int(MonthGoal)
  {
    var rs := MonthData(cals);
    SampledMonth(|rs|);
  }

  // ---------------------------------------------------------------------------
  // The achieved test
  // ---------------------------------------------------------------------------

  /** `rate >= 90 && rate <= 110` with `rate = calories / goal * 100`, used by both the cell and the detail modal. */
  predicate Achieved(r: DayRecord) {
    RateAchieved(r.calories, r.goal)
  }

  /** Against the month's goal of 2000, a day is achieved exactly when it has 1800 to 2200 kcal. */
  lemma AchievedRange(cals: seq<int>, i: int)
    requires |cals| == MonthLength && 0 <= i < MonthLength
    ensures Achieved(MonthData(cals)[i]) <==> 1800 <= cals[i] <= 2200
  {
    RateMatchesBand(cals[i], MonthGoal);
    WithinBandInt(cals[i], MonthGoal);
  }
}
