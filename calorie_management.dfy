/**
 * The nutrition dashboard (src/pages/CalorieManagement.js): the goal card with its edit
 * toggle, the macro targets derived from the goal, and the stat cards' difference and
 * colour. The week's calorie and macro values are inputs; their averages and the
 * achieved-day count are `Aggregates.RoundedMean` and `Aggregates.CountWithinBand`.
 */
module CalorieManagement {
  import opened Wrappers
  import opened JsValues
  import opened Aggregates

  /** The dashboard's starting goal; it is not read from the store. */
  const InitialGoal: int := 2000

  /** Lower bound a new goal must exceed. */
  const MinGoal: int := 500

  // ---------------------------------------------------------------------------
  // Macro targets
  // ---------------------------------------------------------------------------

  /** Protein, carbohydrate and maximum sugar targets in grams. */
  datatype Macros = Macros(protein: int, carbs: int, sugarMax: int)

  /**
   * `Math.round(g * 0.25 / 4)`, `Math.round(g * 0.55 / 4)`, `Math.round(g * 0.1 / 4)`:
   * 25%, 55% and 10% of the goal's energy at 4 kcal per gram, each the integer nearest to
   * g/16, 11g/80 and g/40.
   */
  function MacroTargets(g: int): (m: Macros)
    ensures g - 8 < 16 * m.protein <= g + 8
    ensures 11 * g - 40 < 80 * m.carbs <= 11 * g + 40
    ensures g - 20 < 40 * m.sugarMax <= g + 20
  {
    var p := Round(g as real * 0.25 / 4.0);
    var c := Round(g as real * 0.55 / 4.0);
    var s := Round(g as real * 0.1 / 4.0);
    assert g as real * 0.25 / 4.0 == g as real / 16 as real;
    assert g as real * 0.55 / 4.0 == (11 * g) as real / 80 as real;
    assert g as real * 0.1 / 4.0 == g as real / 40 as real;
    MeanScale(g, 16, p);
    MeanScale(11 * g, 80, c);
    MeanScale(g, 40, s);
    Macros(p, c, s)
  }

  /** For a non-negative goal the carbohydrate target is at least the protein target, which is at least the sugar cap. */
  lemma MacroOrder(g: int)
    requires g >= 0
    ensures MacroTargets(g).carbs >= MacroTargets(g).protein >= MacroTargets(g).sugarMax >= 0
  {
    RoundMonotone(g as real * 0.25 / 4.0, g as real * 0.55 / 4.0);
    RoundMonotone(g as real * 0.1 / 4.0, g as real * 0.25 / 4.0);
    RoundMonotone(0.0, g as real * 0.1 / 4.0);
  }

  /** The default goal of 2000 kcal gives 125 g protein, 275 g carbohydrate and at most 50 g sugar. */
  lemma DefaultMacros()
    ensures MacroTargets(InitialGoal) == Macros(125, 275, 50)
  {
  }

  // ---------------------------------------------------------------------------
  // Stat cards
  // ---------------------------------------------------------------------------

  /** The colour of a stat card's difference. */
  datatype Tone = Red | Blue | Gray

  /** `goalValue ? value - goalValue : null`: no difference without a goal or with a goal of 0. */
  function StatDiff(value: int, goalValue: Option<int>): (d: Option<int>)
    ensures d.None? <==> goalValue == None || goalValue == Some(0)
    ensures d.Some? ==> d.value + goalValue.value == value
    ensures d.Some? ==> (d.value > 0 <==> value > goalValue.value) && (d.value < 0 <==> value < goalValue.value)
  {
    if goalValue.Some? && goalValue.value != 0 then Some(value - goalValue.value) else None
  }

  /** Red above the goal, blue below it, gray when equal or when there is no difference (`null` compares false). */
  function StatTone(value: int, goalValue: Option<int>): (t: Tone)
    ensures t == Red <==> goalValue.Some? && goalValue.value != 0 && value > goalValue.value
    ensures t == Blue <==> goalValue.Some? && goalValue.value != 0 && value < goalValue.value
  {
    var d := StatDiff(value, goalValue);
    if d.Some? && d.value > 0 then Red else if d.Some? && d.value < 0 then Blue else Gray
  }

  /** The "(+d unit)" text, shown only when the goal value is positive. */
  function DiffLabel(value: int, goalValue: Option<int>): (l: Option<string>)
    ensures l.Some? <==> goalValue.Some? && goalValue.value > 0
  {
    if goalValue.Some? && goalValue.value > 0 then Some(SignedText(value - goalValue.value)) else None
  }

  /**
   * A shown label reads back as the difference, starts with "+" unless the card is blue,
   * and a red card never shows "+0".
   */
  lemma DiffLabelAgreesWithTone(value: int, goal: int)
    requires goal > 0
    ensures ParseInt(DiffLabel(value, Some(goal)).value) == Int(value - goal)
    ensures DiffLabel(value, Some(goal)).value[0] == '+' <==> StatTone(value, Some(goal)) != Blue
    ensures DiffLabel(value, Some(goal)).value[0] == '-' <==> StatTone(value, Some(goal)) == Blue
  {
    SignedTextParses(value - goal);
  }

  // ---------------------------------------------------------------------------
  // The goal card
  // ---------------------------------------------------------------------------

  /**
   * `handleGoalUpdate`'s new goal: the draft read by `parseInt(newGoal, 10)` when that is a
   * number above 500 and different from the goal, the old goal otherwise (NaN fails the
   * comparison).
   */
  function UpdatedGoal(goal: int, draft: string): (g: int)
    ensures g == goal || (g > MinGoal && ParseInt(draft) == Int(g))
    ensures (ParseInt(draft).Int? && ParseInt(draft).value > MinGoal) ==> ParseInt(draft) == Int(g)
  {
    var p := ParseInt(draft);
    if p.Int? && p.value > MinGoal && p.value != goal then p.value else goal
  }

  /** Typing the number `p` and saving: `p` becomes the goal when above 500, otherwise nothing changes. */
  lemma UpdateWithTyped(goal: int, p: int)
    ensures UpdatedGoal(goal, IntToString(p)) == if p > MinGoal then p else goal
  {
    ParseIntIntToString(p);
  }

  /** Saving the draft the edit button filled in keeps the goal. */
  lemma UpdateUntouched(goal: int)
    ensures UpdatedGoal(goal, IntToString(goal)) == goal
  {
    UpdateWithTyped(goal, goal);
  }

  /** Saving the same draft twice changes nothing the second time. */
  lemma UpdateIdempotent(goal: int, draft: string)
    ensures UpdatedGoal(UpdatedGoal(goal, draft), draft) == UpdatedGoal(goal, draft)
  {
  }

  /** The goal card: `goalCalories`, `newGoal` and `isEditingGoal`. */
  class GoalCard {
    var goal: int
    /** `newGoal`, as the text the number input holds. */
    var draft: string
    var editing: bool

    /** The goal is always above 500: it starts at 2000 and only a parsed draft above 500 replaces it. */
    ghost predicate Valid()
      reads this
    {
      goal > MinGoal
    }

    constructor ()
      ensures Valid()
      ensures goal == InitialGoal && draft == IntToString(InitialGoal) && !editing
    {
      goal := InitialGoal;
      draft := IntToString(InitialGoal);
      editing := false;
    }

    /** The edit button: `setNewGoal(goalCalories); setIsEditingGoal(true)`. */
    method StartEdit()
      requires Valid()
      modifies this`draft, this`editing
      ensures Valid()
      ensures draft == IntToString(goal) && editing
    {
      draft := IntToString(goal);
      editing := true;
    }

    /** The goal input's `onChange`. */
    method ChangeDraft(v: string)
      requires Valid()
      modifies this`draft
      ensures Valid()
      ensures draft == v
    {
      draft := v;
    }

    /** The save button (`handleGoalUpdate`): applies the draft when it parses above 500 and always leaves edit mode. */
    method UpdateGoal()
      requires Valid()
      modifies this`goal, this`editing
      ensures Valid()
      ensures goal == UpdatedGoal(old(goal), draft) && !editing
    {
      goal := UpdatedGoal(goal, draft);
      editing := false;
    }
  }

  /** Starting an edit and saving it at once leaves the goal as it was. */
  method EditThenSaveKeepsGoal(card: GoalCard)
    requires card.Valid()
    modifies card
    ensures card.goal == old(card.goal) && !card.editing
  {
    card.StartEdit();
    UpdateUntouched(card.goal);
    card.UpdateGoal();
  }
}
