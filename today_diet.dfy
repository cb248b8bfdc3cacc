/**
 * The today page (`TodayDietPage` in src/App.js): the meal list with add, edit and
 * delete, the id counter, the calorie goal and its persisted copy.
 */
module TodayDiet {
  import opened Wrappers
  import opened JsValues
  import opened MealRecords
  import opened GoalStore
  import GoalRecommendation

  /** The page's default goal when nothing usable is stored. */
  const DefaultGoal: int := 1800

  class TodayDietPage {
    /** `meals` */
    var meals: seq<Meal>
    /** `nextId.current`: the id the next added meal receives. */
    var nextId: int
    /** Every id the page has handed out, the seed ids included. */
    ghost var issued: set<int>
    /** `newMeal`: the add form. */
    var draft: Draft
    /** `editingId`: the id of the meal being edited, or null. */
    var editingId: Option<int>
    /** `editMeal`: the edit form. */
    var editBuffer: EditBuffer
    /** `goalCalories`: NaN when the stored text is not a number. */
    var goal: Number
    /** The browser's key-value store. */
    var store: Store

    /**
     * Ids are distinct, every id in the list was handed out, every handed-out id is below
     * the counter (so the counter never hands out an id twice), and the edit form belongs
     * to the meal being edited.
     */
    ghost predicate Valid()
      reads this
    {
      && LedgerInvariant(meals, issued, nextId)
      && (editingId.Some? ==> editBuffer.id == editingId.value)
    }

    /** Mounting the page: seed meals, counter 4, goal read from the store (1800 if absent or empty). */
    constructor (saved: Store)
      ensures Valid()
      ensures meals == InitialMeals && nextId == FirstFreeId && nextId == 4
      ensures issued == {1, 2, 3}
      ensures draft == EmptyDraft && editingId == None && editBuffer == BlankEdit
      ensures goal == ReadGoal(saved, DefaultGoal) && store == saved
    {
      meals := InitialMeals;
      nextId := FirstFreeId;
      issued := {1, 2, 3};
      draft := EmptyDraft;
      editingId := None;
      editBuffer := BlankEdit;
      goal := ReadGoal(saved, DefaultGoal);
      store := saved;
    }

    /** `handleInputChange`: one add-form field takes the input's text. */
    method ChangeDraft(f: Field, v: string)
      requires Valid()
      modifies this`draft
      ensures Valid()
      ensures draft == DraftWith(old(draft), f, v)
    {
      draft := DraftWith(draft, f, v);
    }

    /**
     * `handleAddMeal`: with a non-empty name and calorie text, appends one record under the
     * counter's id (never handed out before), bumps the counter, raises the total by the
     * record's calories and clears the form; otherwise changes nothing.
     */
    method AddMeal()
      requires Valid()
      modifies this`meals, this`nextId, this`issued, this`draft
      ensures Valid()
      ensures Submittable(old(draft)) ==>
        && meals == old(meals) + [NewRecord(old(draft), old(nextId))]
        && old(nextId) !in old(issued)
        && nextId == old(nextId) + 1
        && issued == old(issued) + {old(nextId)}
        && draft == EmptyDraft
        && TotalCalories(meals) == TotalCalories(old(meals)) + meals[|meals| - 1].calories.OrZero()
      ensures !Submittable(old(draft)) ==>
        meals == old(meals) && nextId == old(nextId) && issued == old(issued) && draft == old(draft)
    {
      if Submittable(draft) {
        var rec := NewRecord(draft, nextId);
        AppendFresh(meals, rec, issued, nextId);
        TotalAppend(meals, rec);
        meals := meals + [rec];
        issued := issued + {nextId};
        nextId := nextId + 1;
        draft := EmptyDraft;
      }
    }

    /** `handleDelete`: removes the meals carrying `id` and keeps the rest in order. */
    method Delete(id: int)
      requires Valid()
      modifies this`meals
      ensures Valid()
      ensures meals == RemoveById(old(meals), id)
      ensures forall i :: 0 <= i < |old(meals)| && old(meals)[i].id == id ==>
        meals == old(meals)[..i] + old(meals)[i + 1..]
          && TotalCalories(meals) == TotalCalories(old(meals)) - old(meals)[i].calories.OrZero()
      ensures (forall i :: 0 <= i < |old(meals)| ==> old(meals)[i].id != id) ==> meals == old(meals)
    {
      RemoveKeepsLedger(meals, issued, nextId, id);
      forall i | 0 <= i < |meals| && meals[i].id == id
        ensures RemoveById(meals, id) == meals[..i] + meals[i + 1..]
        ensures TotalCalories(RemoveById(meals, id)) == TotalCalories(meals) - meals[i].calories.OrZero()
      {
        RemovePresent(meals, i);
        TotalRemove(meals, i);
      }
      if forall i :: 0 <= i < |meals| ==> meals[i].id != id {
        RemoveAbsent(meals, id);
      }
      meals := RemoveById(meals, id);
    }

    /** `handleEditStart`: the shown meal becomes the one being edited and fills the edit form. */
    method EditStart(m: Meal)
      requires Valid()
      modifies this`editingId, this`editBuffer
      ensures Valid()
      ensures editingId == Some(m.id) && editBuffer == CopyOf(m)
    {
      editingId := Some(m.id);
      editBuffer := CopyOf(m);
    }

    /** `handleEditChange`: one edit-form field takes the input's text. */
    method ChangeEdit(f: Field, v: string)
      requires Valid()
      modifies this`editBuffer
      ensures Valid()
      ensures editBuffer == EditWith(old(editBuffer), f, v)
    {
      editBuffer := EditWith(editBuffer, f, v);
    }

    /** The cancel button: `setEditingId(null)`. */
    method CancelEdit()
      requires Valid()
      modifies this`editingId
      ensures Valid()
      ensures editingId == None
    {
      editingId := None;
    }

    /**
     * `handleEditSave`: the meal being edited is replaced by the edit form with its numbers
     * coerced by `Number`; length, order and every id stay as they were, and no edit is in
     * progress afterwards.
     */
    method EditSave()
      requires Valid()
      modifies this`meals, this`editingId
      ensures Valid()
      ensures meals == ReplaceById(old(meals), old(editingId), SavedRecord(editBuffer))
      ensures |meals| == |old(meals)|
      ensures forall i :: 0 <= i < |meals| ==> meals[i].id == old(meals)[i].id
      ensures forall i :: 0 <= i < |meals| ==>
        meals[i] == if old(editingId) == Some(old(meals)[i].id) then SavedRecord(editBuffer) else old(meals)[i]
      ensures editingId == None
    {
      var rec := SavedRecord(editBuffer);
      if editingId.Some? {
        ReplaceKeepsIds(meals, editingId.value, rec);
      } else {
        ReplaceNothing(meals, rec);
      }
      meals := ReplaceById(meals, editingId, rec);
      editingId := None;
    }

    /** `handleGoalCaloriesChange`: the goal becomes `Number(v) || 0` and is written to the store. */
    method SetGoal(v: string)
      requires Valid()
      modifies this`goal, this`store
      ensures Valid()
      ensures goal == Int(NumberOf(v).OrZero())
      ensures store == WriteGoal(old(store), NumberOf(v).OrZero())
    {
      var g := NumberOf(v).OrZero();
      goal := Int(g);
      store := WriteGoal(store, g);
    }

    /**
     * `handleRecommendGoal` with the form's weight, height, age and target weight already
     * converted by `Number` (0 when blank): rejected, with goal and store unchanged, when
     * weight, height or age is 0; otherwise the rounded recommendation becomes the goal and
     * is written to the store.
     */
    method RecommendGoal(w: real, h: real, a: real, tw: real, gender: string, activity: string)
      returns (accepted: bool)
      requires Valid()
      modifies this`goal, this`store
      ensures Valid()
      ensures accepted <==> GoalRecommendation.Recommend(w, h, a, tw, gender, activity).Some?
      ensures accepted ==>
        goal == Int(GoalRecommendation.Recommend(w, h, a, tw, gender, activity).value)
        && store == WriteGoal(old(store), goal.value)
      ensures !accepted ==> goal == old(goal) && store == old(store)
    {
      var r := GoalRecommendation.Recommend(w, h, a, tw, gender, activity);
      if r.None? {
        accepted := false;
        return;
      }
      accepted := true;
      goal := Int(r.value);
      store := WriteGoal(store, r.value);
    }

    /** `totalCalories` */
    function Total(): int
      reads this
    {
      TotalCalories(meals)
    }

    /** The summary line under the goal: calories left, or the excess. */
    function Summary(): (b: Balance)
      reads this
      ensures b.ExcessNaN? <==> goal.NaN?
      ensures goal.Int? ==> (b.Remaining? <==> Total() <= goal.value)
      ensures goal.Int? ==> b.kcal == if Total() <= goal.value then goal.value - Total() else Total() - goal.value
    {
      BalanceOf(goal, Total())
    }
  }
}
