/**
 * The earlier today page (`TodayDietPage` in src/App.jsx): a meal list that can only be
 * appended to, with the same add form and id counter as the later page.
 */
module TodayDietAddOnly {
  import opened JsValues
  import opened MealRecords

  class AddOnlyDietPage {
    /** `meals` */
    var meals: seq<Meal>
    /** `nextId.current` */
    var nextId: int
    /** Every id the page has handed out, the seed ids included. */
    ghost var issued: set<int>
    /** `newMeal` */
    var draft: Draft

    /** Ids are distinct, were all handed out, and every handed-out id is below the counter. */
    ghost predicate Valid()
      reads this
    {
      && LedgerInvariant(meals, issued, nextId)
    }

    /** Mounting the page: the three seed meals and a counter at 4. */
    constructor ()
      ensures Valid()
      ensures meals == InitialMeals && nextId == FirstFreeId && nextId == 4
      ensures issued == {1, 2, 3} && draft == EmptyDraft
    {
      meals := InitialMeals;
      nextId := FirstFreeId;
      issued := {1, 2, 3};
      draft := EmptyDraft;
    }

    /** `handleInputChange` */
    method ChangeDraft(f: Field, v: string)
      requires Valid()
      modifies this`draft
      ensures Valid()
      ensures draft == DraftWith(old(draft), f, v)
    {
      draft := DraftWith(draft, f, v);
    }

    /**
     * `handleAddMeal`: with a non-empty name and calorie text, appends one record under the
     * counter's id, bumps the counter and resets the form; otherwise changes nothing. Either
     * way the earlier records stay as they were: the list only grows.
     */
    method AddMeal()
      requires Valid()
      modifies this`meals, this`nextId, this`issued, this`draft
      ensures Valid()
      ensures old(meals) <= meals
      ensures Submittable(old(draft)) ==>
        && meals == old(meals) + [NewRecord(old(draft), old(nextId))]
        && old(nextId) !in old(issued)
        && nextId == old(nextId) + 1
        && issued == old(issued) + {old(nextId)}
        && draft == EmptyDraft
      ensures !Submittable(old(draft)) ==>
        meals == old(meals) && nextId == old(nextId) && issued == old(issued) && draft == old(draft)
    {
      if Submittable(draft) {
        var rec := NewRecord(draft, nextId);
        AppendFresh(meals, rec, issued, nextId);
        meals := meals + [rec];
        issued := issued + {nextId};
        nextId := nextId + 1;
        draft := EmptyDraft;
      }
    }
  }

  /** The first meal added to a fresh page gets id 4, with blank carbs and sugar stored as 0; without a name or calories nothing is added. */
  method FirstAddGetsIdFour(name: string, calories: string) returns (meals: seq<Meal>, nextId: int)
    ensures name != "" && calories != "" ==>
      meals == InitialMeals + [Meal(4, name, ParseInt(calories), Int(0), Int(0))] && nextId == 5
    ensures name == "" || calories == "" ==> meals == InitialMeals && nextId == 4
  {
    var page := new AddOnlyDietPage();
    page.ChangeDraft(NameField, name);
    page.ChangeDraft(CaloriesField, calories);
    page.AddMeal();
    meals, nextId := page.meals, page.nextId;
  }
}
