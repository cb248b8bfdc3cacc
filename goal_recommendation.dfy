/**
 * The daily calorie recommendation of the today page: the Mifflin–St Jeor resting-energy
 * equation, an activity factor, a 500 kcal step toward the target weight, and
 * `Math.round`. All constants are exact rationals (6.25, 1.2, 1.55, 1.725).
 */
module GoalRecommendation {
  import opened Wrappers
  import opened JsValues

  /** Resting energy: 10·weight + 6.25·height − 5·age, then +5 for "male" and −161 for any other value. */
  function RestingEnergy(w: real, h: real, a: real, gender: string): real {
    var bmr := 10.0 * w + 6.25 * h - 5.0 * a;
    if gender == "male" then bmr + 5.0 else bmr - 161.0
  }

  /** 1.2 for "low", 1.725 for "high", and 1.55 for "medium" or any other value. */
  function ActivityFactor(activity: string): real {
    if activity == "low" then 1.2 else if activity == "high" then 1.725 else 1.55
  }

  /**
   * The step toward the target weight `tw`: none when `tw` is 0 (blank), −500 when the
   * current weight is above it, +500 when below, none when equal.
   */
  function TargetAdjustment(w: real, tw: real): real {
    if tw == 0.0 then 0.0
    else if w - tw > 0.0 then -500.0
    else if w - tw < 0.0 then 500.0
    else 0.0
  }

  /** The exact (unrounded) daily energy need. */
  function DailyNeed(w: real, h: real, a: real, tw: real, gender: string, activity: string): real {
    RestingEnergy(w, h, a, gender) * ActivityFactor(activity) + TargetAdjustment(w, tw)
  }

  /**
   * `handleRecommendGoal` as a value: None (the alert) when weight, height or age is 0,
   * which is what a blank number input converts to; otherwise the daily need rounded to
   * the nearest integer.
   */
  function Recommend(w: real, h: real, a: real, tw: real, gender: string, activity: string): (r: Option<int>)
    ensures r.None? <==> w == 0.0 || h == 0.0 || a == 0.0
    ensures r.Some? ==> DailyNeed(w, h, a, tw, gender, activity) - 0.5 < r.value as real
                        <= DailyNeed(w, h, a, tw, gender, activity) + 0.5
  {
    if w == 0.0 || h == 0.0 || a == 0.0 then None
    else Some(Round(DailyNeed(w, h, a, tw, gender, activity)))
  }

  /** 70 kg, 170 cm, 30 years, female, medium activity: 2250, or 1750 / 2750 toward 60 / 80 kg. */
  lemma WorkedExample()
    ensures Recommend(70.0, 170.0, 30.0, 0.0, "female", "medium") == Some(2250)
    ensures Recommend(70.0, 170.0, 30.0, 60.0, "female", "medium") == Some(1750)
    ensures Recommend(70.0, 170.0, 30.0, 80.0, "female", "medium") == Some(2750)
  {
    assert RestingEnergy(70.0, 170.0, 30.0, "female") == 1451.5;
    assert DailyNeed(70.0, 170.0, 30.0, 0.0, "female", "medium") == 2249.825;
    RoundUnique(2249.825, 2250);
    RoundUnique(1749.825, 1750);
    RoundUnique(2749.825, 2750);
  }

  /**
   * A target weight moves the rounded recommendation by exactly 500 kcal: down when the
   * current weight is above it, up when below, not at all when equal.
   */
  lemma TargetShift(w: real, h: real, a: real, tw: real, gender: string, activity: string)
    requires Recommend(w, h, a, 0.0, gender, activity).Some? && tw != 0.0
    ensures var base := Recommend(w, h, a, 0.0, gender, activity).value;
      Recommend(w, h, a, tw, gender, activity)
        == Some(if w > tw then base - 500 else if w < tw then base + 500 else base)
  {
    var need := RestingEnergy(w, h, a, gender) * ActivityFactor(activity);
    assert DailyNeed(w, h, a, 0.0, gender, activity) == need;
    RoundShift(need, -500);
    RoundShift(need, 500);
  }

  /** With non-negative resting energy, more activity never lowers the recommendation. */
  lemma MoreActivityNeverLower(w: real, h: real, a: real, tw: real, gender: string)
    requires RestingEnergy(w, h, a, gender) >= 0.0
    requires w != 0.0 && h != 0.0 && a != 0.0
    ensures Recommend(w, h, a, tw, gender, "low").value <= Recommend(w, h, a, tw, gender, "medium").value
    ensures Recommend(w, h, a, tw, gender, "medium").value <= Recommend(w, h, a, tw, gender, "high").value
  {
    var e := RestingEnergy(w, h, a, gender);
    var adj := TargetAdjustment(w, tw);
    RoundMonotone(e * 1.2 + adj, e * 1.55 + adj);
    RoundMonotone(e * 1.55 + adj, e * 1.725 + adj);
  }

  /** Any activity value other than "low" and "high" is treated as "medium". */
  lemma OtherActivityIsMedium(w: real, h: real, a: real, tw: real, gender: string, activity: string)
    requires activity != "low" && activity != "high"
    ensures Recommend(w, h, a, tw, gender, activity) == Recommend(w, h, a, tw, gender, "medium")
  {
  }
}
