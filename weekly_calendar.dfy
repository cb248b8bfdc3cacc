/**
 * The weekly calendar (src/pages/WeeklyCalendarPage.js): the Sunday-to-Saturday window
 * around the viewed date, moving it by a week, and the week's rows and statistics.
 *
 * Days are whole numbers counted from Thursday 1 January 1970 (day 0), so the weekday
 * of day `d` is `(d + 4) % 7` with Sunday 0. The date library's `startOfWeek` /
 * `endOfWeek` / `eachDayOfInterval` with `weekStartsOn: 0` are assumed to return the
 * seven local days from the Sunday on or before the date; `WeekDates` states that
 * behaviour. The calorie values (random in the page) are an input.
 */
module WeeklyCalendar {
  import opened JsValues
  import opened GoalStore
  import opened Aggregates

  /** The weekly page's default goal when nothing usable is stored. */
  const DefaultGoal: int := 2000

  /** 0 for Sunday up to 6 for Saturday. */
  function Weekday(d: int): (w: int)
    ensures 0 <= w < 7
  {
    (d + 4) % 7
  }

  /** `startOfWeek(d, { weekStartsOn: 0 })`: the Sunday on or before `d`. */
  function StartOfWeek(d: int): (s: int)
    ensures Weekday(s) == 0 && s <= d < s + 7
  {
    d - Weekday(d)
  }

  /** `eachDayOfInterval` from the week's start to its end: seven consecutive days, a Sunday first, `d` among them. */
  function WeekDates(d: int): (r: seq<int>)
    ensures |r| == 7 && Weekday(r[0]) == 0
    ensures forall i :: 0 <= i < 7 ==> r[i] == r[0] + i
    ensures r[0] <= d <= r[6]
  {
    var s := StartOfWeek(d);
    seq(7, i => s + i)
  }

  /** Day `i` of the window is weekday `i`. */
  lemma WeekdaysInOrder(d: int)
    ensures forall i :: 0 <= i < 7 ==> Weekday(WeekDates(d)[i]) == i
  {
  }

  /** Every day in a window has that same window. */
  lemma SameWeek(d: int, e: int)
    requires e in WeekDates(d)
    ensures WeekDates(e) == WeekDates(d)
  {
    var s := WeekDates(d)[0];
    assert s <= e < s + 7;
    assert StartOfWeek(e) == s;
  }

  /** Moving the date by a week moves every day of the window by exactly seven days. */
  lemma WeekShift(d: int)
    ensures forall i :: 0 <= i < 7 ==> WeekDates(d + 7)[i] == WeekDates(d)[i] + 7
  {
    assert Weekday(d + 7) == Weekday(d);
  }

  /** The page state: the viewed date (`currentDate`) and the goal read once at mount. */
  class WeekView {
    var current: int
    /** `goalCalories`: may be NaN when the stored text is not a number. */
    var goal: Number

    /** Mounting the page on day `today` with the stored goal (2000 if absent or empty). */
    constructor (today: int, saved: Store)
      ensures current == today && goal == ReadGoal(saved, DefaultGoal)
    {
      current := today;
      goal := ReadGoal(saved, DefaultGoal);
    }

    /** `handlePrevWeek`: `subWeeks(currentDate, 1)`. */
    method PrevWeek()
      modifies this`current
      ensures current == old(current) - 7
      ensures WeekDates(current)[0] == WeekDates(old(current))[0] - 7
    {
      WeekShift(current - 7);
      current := current - 7;
    }

    /** `handleNextWeek`: `addWeeks(currentDate, 1)`. */
    method NextWeek()
      modifies this`current
      ensures current == old(current) + 7
      ensures WeekDates(current)[0] == WeekDates(old(current))[0] + 7
    {
      WeekShift(current);
      current := current + 7;
    }
  }

  /** Going back a week and forward again shows the same date. */
  method PrevThenNextRestores(v: WeekView)
    modifies v
    ensures v.current == old(v.current) && v.goal == old(v.goal)
  {
    v.PrevWeek();
    v.NextWeek();
  }

  // ---------------------------------------------------------------------------
  // Rows and statistics
  // ---------------------------------------------------------------------------

  /**
   * `weekDates.map(...)`, one entry of `dummyWeekData` per day (the formatted labels are
   * left out): row `i` falls on weekday `i`, the rows are consecutive days around `d`,
   * and each carries its calorie input and the page's goal.
   */
  function WeekRows(d: int, cals: seq<int>, goal: Number): (rows: seq<DayRecord>)
    requires |cals| == 7
    ensures |rows| == 7
    ensures forall i :: 0 <= i < 7 ==>
      Weekday(rows[i].date) == i && rows[i].date == rows[0].date + i
      && rows[i].calories == cals[i] && rows[i].goal == goal
    ensures rows[0].date <= d <= rows[6].date
  {
    var days := WeekDates(d);
    WeekdaysInOrder(d);
    seq(7, i requires 0 <= i < 7 => DayRecord(days[i], cals[i], goal))
  }

  /** The rows carry exactly the calorie input, and are the window of every one of their days. */
  lemma RowsCalories(d: int, cals: seq<int>, goal: Number)
    requires |cals| == 7
    ensures CaloriesOf(WeekRows(d, cals, goal)) == cals
    ensures forall i :: 0 <= i < 7 ==> WeekDates(WeekRows(d, cals, goal)[i].date)[0] == WeekRows(d, cals, goal)[0].date
  {
    var rows := WeekRows(d, cals, goal);
    forall i | 0 <= i < 7
      ensures WeekDates(rows[i].date)[0] == rows[0].date
    {
      SameWeek(d, rows[i].date);
    }
  }

  /** `avgCalories` of a week of `Math.floor(Math.random() * 500) + 1700` values lies in 1700..2199. */
  lemma AverageOfRandomWeek(cals: seq<int>)
    requires |cals| == 7
    requires forall i :: 0 <= i < 7 ==> 1700 <= cals[i] <= 2199
    ensures 1700 <= RoundedMean(cals).value <= 2199
  {
    MeanBetween(cals, 1700, 2199);
  }

  /** How many rows of the table get status `s` (`rate` from each row's own calories and goal). */
  function CountRowStatus(rows: seq<DayRecord>, s: Status): (n: nat)
    ensures n <= |rows|
  {
    if rows == [] then 0
    else (if RateStatus(rows[0].calories, rows[0].goal) == s then 1 else 0) + CountRowStatus(rows[1..], s)
  }

  /**
   * For a positive or NaN goal, the "success" rows of the table are exactly as many as
   * `achievedDays` (`dummyWeekData.filter(day => within band).length`).
   */
  lemma {:induction false} SuccessRowsAreAchievedDays(rows: seq<DayRecord>, g: Number)
    requires g.NaN? || g.value > 0
    requires forall i :: 0 <= i < |rows| ==> rows[i].goal == g
    ensures CountRowStatus(rows, Success) == CountWithinBand(CaloriesOf(rows), g)
  {
    if rows != [] {
      SuccessIsBand(rows[0].calories, g);
      SuccessRowsAreAchievedDays(rows[1..], g);
      CaloriesOfCons(rows);
      assert CaloriesOf(rows)[1..] == CaloriesOf(rows[1..]);
    }
  }

  /**
   * A stored goal that is not a number makes the goal NaN: no day is achieved, every row
   * is "over", and every difference `dayData.calories - dayData.goal` is NaN.
   */
  lemma {:induction false} NaNGoalWeek(rows: seq<DayRecord>)
    requires forall i :: 0 <= i < |rows| ==> rows[i].goal == NaN
    ensures CountWithinBand(CaloriesOf(rows), NaN) == 0
    ensures CountRowStatus(rows, Over) == |rows|
    ensures forall i :: 0 <= i < |rows| ==> Minus(Int(rows[i].calories), rows[i].goal) == NaN
  {
    NaNGoalCountsNothing(CaloriesOf(rows));
    if rows != [] {
      NaNGoalStatus(rows[0].calories);
      NaNGoalWeek(rows[1..]);
    }
  }

  /** The diff cell's class: "over" when `diff >= 0`, which a NaN difference is not. */
  predicate DiffOver(d: Number) {
    AtMost(Finite(0.0), ToFloat(d))
  }

  /** The diff cell's text before " kcal": `String(NaN)` is "NaN". */
  function DiffText(d: Number): (t: string)
    ensures d.Int? ==> ParseInt(t) == d
    ensures t != [] && (t[0] == '+' <==> DiffOver(d))
  {
    if d.NaN? then "NaN" else (SignedTextParses(d.value); SignedText(d.value))
  }

  /** For a positive goal an "over" row always has an "over" difference, and an "under" row never does. */
  lemma RowAndDiffAgree(c: int, g: int)
    requires g > 0
    ensures RateStatus(c, Int(g)) == Over ==> DiffOver(Minus(Int(c), Int(g)))
    ensures RateStatus(c, Int(g)) == Under ==> !DiffOver(Minus(Int(c), Int(g)))
  {
    RateMatchesBand(c, g);
  }

  /** `Math.round((achievedDays / 7) * 100)` */
  function AchievementRate(k: int): int {
    Round(k as real / 7.0 * 100.0)
  }

  /** For 0 to 7 achieved days the rate is a whole percentage from 0 to 100, both ends reached. */
  lemma AchievementRateRange(k: int)
    requires 0 <= k <= 7
    ensures 0 <= AchievementRate(k) <= 100
    ensures AchievementRate(0) == 0 && AchievementRate(7) == 100
  {
    var x := k as real / 7.0 * 100.0;
    assert 0.0 <= k as real / 7.0 <= 1.0;
    RoundMonotone(0.0, x);
    RoundMonotone(x, 100.0);
  }

  /** More achieved days never lower the percentage. */
  lemma AchievementRateMonotone(j: int, k: int)
    requires j <= k
    ensures AchievementRate(j) <= AchievementRate(k)
  {
    RoundMonotone(j as real / 7.0 * 100.0, k as real / 7.0 * 100.0);
  }

  /** Seven days of the week at 1, 2, …, 6 achieved days give 14, 29, 43, 57, 71, 86 percent. */
  lemma AchievementRates()
    ensures AchievementRate(1) == 14 && AchievementRate(2) == 29 && AchievementRate(3) == 43
    ensures AchievementRate(4) == 57 && AchievementRate(5) == 71 && AchievementRate(6) == 86
  {
    RoundUnique(100.0 / 7.0, 14);
    RoundUnique(200.0 / 7.0, 29);
    RoundUnique(300.0 / 7.0, 43);
    RoundUnique(400.0 / 7.0, 57);
    RoundUnique(500.0 / 7.0, 71);
    RoundUnique(600.0 / 7.0, 86);
  }

  /** `(goalCalories - avgCalories) * 7`: the week's calories below the goal (negative when above). */
  function WeekShortfall(goal: Number, avg: int): (s: Number)
    ensures s.NaN? <==> goal.NaN?
    ensures s.Int? ==> (s.value >= 0 <==> avg <= goal.value) && s.value % 7 == 0
  {
    if goal.NaN? then NaN else Int((goal.value - avg) * 7)
  }

  /**
   * The summary's "so far" text, as the corrected signed label: it reads back as the week's
   * calories past the goal. A NaN goal prints "NaN".
   */
  function WeekSummaryText(goal: Number, avg: int): (t: string)
    ensures goal.Int? ==> ParseInt(t) == Int((avg - goal.value) * 7)
    ensures goal.Int? && avg < goal.value ==> t == ShortfallLabelAsWritten(WeekShortfall(goal, avg).value)
  {
    if goal.NaN? then "NaN" else ShortfallLabel(WeekShortfall(goal, avg).value)
  }
}
