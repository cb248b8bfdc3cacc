/**
 * Meal records, the add and edit forms, and the list operations the today page applies
 * to its meal list (append, filter by id, map by id, calorie sum).
 */
module MealRecords {
  import opened Wrappers
  import opened JsValues

  /** One entry of the meal list. Calories, carbs and sugar are NaN when their text did not parse. */
  datatype Meal = Meal(id: int, name: string, calories: Number, carbs: Number, sugar: Number)

  /** The seed list: three entries with ids 1, 2 and 3. */
  const InitialMeals: seq<Meal> := [
    Meal(1, "사과", Int(60), Int(30), Int(2)),
    Meal(2, "고구마", Int(60), Int(30), Int(2)),
    Meal(3, "상추", Int(60), Int(30), Int(2))
  ]

  /** `initialMeals.length + 1`: the first id the counter hands out. */
  const FirstFreeId: int := |InitialMeals| + 1

  /** The named inputs of both meal forms. */
  datatype Field = NameField | CaloriesField | CarbsField | SugarField

  // ---------------------------------------------------------------------------
  // The add form
  // ---------------------------------------------------------------------------

  /** The add form (`newMeal`): each field holds the text of its input. */
  datatype Draft = Draft(name: string, calories: string, carbs: string, sugar: string)

  const EmptyDraft: Draft := Draft("", "", "", "")

  /** `setNewMeal(prev => ({ ...prev, [name]: value }))` */
  function DraftWith(d: Draft, f: Field, v: string): Draft {
    match f
    case NameField => d.(name := v)
    case CaloriesField => d.(calories := v)
    case CarbsField => d.(carbs := v)
    case SugarField => d.(sugar := v)
  }

  /** `newMeal.name && newMeal.calories`: both strings are non-empty (so "0" passes). */
  predicate Submittable(d: Draft) {
    d.name != "" && d.calories != ""
  }

  /** `parseInt(text || 0)`: an empty field is parsed as the number 0. */
  function ParseOrZero(text: string): (n: Number)
    ensures text == "" ==> n == Int(0)
    ensures text != "" ==> n == ParseInt(text)
  {
    ParseIntIntToString(0);
    ParseInt(if text == "" then "0" else text)
  }

  /** The record `handleAddMeal` appends for draft `d` under id `id`. */
  function NewRecord(d: Draft, id: int): Meal {
    Meal(id, d.name, ParseInt(d.calories), ParseOrZero(d.carbs), ParseOrZero(d.sugar))
  }

  // ---------------------------------------------------------------------------
  // The edit form
  // ---------------------------------------------------------------------------

  /**
   * A number field of the edit form: the number copied from the meal by `{ ...meal }`,
   * or the text typed into the input since.
   */
  datatype EditField = Kept(number: Number) | Typed(text: string)

  /** The edit form (`editMeal`): a copy of the meal being edited, field by field. */
  datatype EditBuffer = EditBuffer(id: int, name: string, calories: EditField, carbs: EditField, sugar: EditField)

  /**
   * The edit form before any edit starts. In the source it has no id at all; the id here
   * is never read, since saving with no edit in progress matches no meal.
   */
  const BlankEdit: EditBuffer := EditBuffer(0, "", Typed(""), Typed(""), Typed(""))

  /** `{ ...meal }`, as `handleEditStart` loads it. */
  function CopyOf(m: Meal): EditBuffer {
    EditBuffer(m.id, m.name, Kept(m.calories), Kept(m.carbs), Kept(m.sugar))
  }

  /** `setEditMeal(prev => ({ ...prev, [name]: value }))`: the input's text replaces the field. */
  function EditWith(b: EditBuffer, f: Field, v: string): (r: EditBuffer)
    ensures r.id == b.id
  {
    match f
    case NameField => b.(name := v)
    case CaloriesField => b.(calories := Typed(v))
    case CarbsField => b.(carbs := Typed(v))
    case SugarField => b.(sugar := Typed(v))
  }

  /**
   * `Number(x)` on an edit field: a kept number stays itself, typed text is read with
   * `Number`, so a field cleared to nothing or to white space saves 0.
   */
  function Coerce(f: EditField): (n: Number)
    ensures f.Kept? ==> n == f.number
    ensures f.Typed? && Trim(f.text) == [] ==> n == Int(0)
  {
    match f
    case Kept(n) => n
    case Typed(t) => NumberOf(t)
  }

  /** `{ ...editMeal, calories: Number(..), carbs: Number(..), sugar: Number(..) }` */
  function SavedRecord(b: EditBuffer): Meal {
    Meal(b.id, b.name, Coerce(b.calories), Coerce(b.carbs), Coerce(b.sugar))
  }

  /** Saving an edit that changed nothing gives back the meal it started from. */
  lemma SaveUntouchedCopy(m: Meal)
    ensures SavedRecord(CopyOf(m)) == m
  {
  }

  /** Typing an integer's text into the calorie input saves exactly that integer. */
  lemma SaveTypedCalories(m: Meal, n: int)
    ensures SavedRecord(EditWith(CopyOf(m), CaloriesField, IntToString(n))) == m.(calories := Int(n))
  {
    NumberOfIntToString(n);
  }

  // ---------------------------------------------------------------------------
  // Ids
  // ---------------------------------------------------------------------------

  ghost predicate DistinctIds(ms: seq<Meal>) {
    forall i, j :: 0 <= i < j < |ms| ==> ms[i].id != ms[j].id
  }

  lemma InitialIdsDistinct()
    ensures DistinctIds(InitialMeals)
    ensures forall i :: 0 <= i < |InitialMeals| ==> 1 <= InitialMeals[i].id < FirstFreeId
  {
  }

  /**
   * The ledger invariant: distinct ids, each one handed out, and every handed-out id below
   * the counter, so the counter never hands out an id twice.
   */
  ghost predicate LedgerInvariant(ms: seq<Meal>, issued: set<int>, next: int) {
    && DistinctIds(ms)
    && (forall i :: 0 <= i < |ms| ==> ms[i].id in issued)
    && (forall id :: id in issued ==> id < next)
  }

  /** Appending a record under the counter's id and bumping the counter keeps the invariant; the id was never used. */
  lemma AppendFresh(ms: seq<Meal>, rec: Meal, issued: set<int>, next: int)
    requires LedgerInvariant(ms, issued, next)
    requires rec.id == next
    ensures next !in issued
    ensures LedgerInvariant(ms + [rec], issued + {next}, next + 1)
  {
    var r := ms + [rec];
    forall i, j | 0 <= i < j < |r|
      ensures r[i].id != r[j].id
    {
      if j == |ms| {
        assert r[i].id in issued;
      } else {
        assert r[i] == ms[i] && r[j] == ms[j];
      }
    }
    assert forall i :: 0 <= i < |r| ==> r[i].id in issued + {next};
  }

  // ---------------------------------------------------------------------------
  // Delete: `meals.filter(meal => meal.id !== id)`
  // ---------------------------------------------------------------------------

  /** The meals whose id differs from `id`, in their original order. */
  function RemoveById(ms: seq<Meal>, id: int): (r: seq<Meal>)
    ensures |r| <= |ms|
  {
    if ms == [] then []
    else (if ms[0].id == id then [] else [ms[0]]) + RemoveById(ms[1..], id)
  }

  /** Deleting keeps exactly the meals with another id: none with this id is left. */
  lemma {:induction false} RemoveMembers(ms: seq<Meal>, id: int)
    ensures forall m :: m in RemoveById(ms, id) <==> m in ms && m.id != id
  {
    if ms != [] {
      RemoveMembers(ms[1..], id);
      assert forall m :: m in ms <==> m == ms[0] || m in ms[1..];
    }
  }

  lemma {:induction false} RemoveConcat(a: seq<Meal>, b: seq<Meal>, id: int)
    ensures RemoveById(a + b, id) == RemoveById(a, id) + RemoveById(b, id)
  {
    if a != [] {
      assert (a + b)[1..] == a[1..] + b;
      RemoveConcat(a[1..], b, id);
    } else {
      assert a + b == b;
    }
  }

  /** Deleting an id that no meal carries leaves the list exactly as it was. */
  lemma {:induction false} RemoveAbsent(ms: seq<Meal>, id: int)
    requires forall i :: 0 <= i < |ms| ==> ms[i].id != id
    ensures RemoveById(ms, id) == ms
  {
    if ms != [] {
      RemoveAbsent(ms[1..], id);
    }
  }

  /**
   * With distinct ids, deleting the id of the meal at position `k` removes that one meal
   * and keeps the others in order.
   */
  lemma {:induction false} RemovePresent(ms: seq<Meal>, k: nat)
    requires DistinctIds(ms) && k < |ms|
    ensures RemoveById(ms, ms[k].id) == ms[..k] + ms[k + 1..]
  {
    var id := ms[k].id;
    var tail := ms[1..];
    assert DistinctIds(tail) by {
      forall i, j | 0 <= i < j < |tail| ensures tail[i].id != tail[j].id {
        assert tail[i] == ms[i + 1] && tail[j] == ms[j + 1];
      }
    }
    if k == 0 {
      forall i | 0 <= i < |tail| ensures tail[i].id != id {
        assert tail[i] == ms[i + 1];
      }
      RemoveAbsent(tail, id);
    } else {
      assert tail[k - 1] == ms[k];
      assert ms[0].id != id;
      RemovePresent(tail, k - 1);
      assert ms[..k] == [ms[0]] + tail[..k - 1];
      assert ms[k + 1..] == tail[k..];
    }
  }

  /** Deleting keeps the ids distinct. */
  lemma {:induction false} RemoveKeepsDistinct(ms: seq<Meal>, id: int)
    requires DistinctIds(ms)
    ensures DistinctIds(RemoveById(ms, id))
  {
    if ms != [] {
      RemoveKeepsDistinct(ms[1..], id);
      RemoveMembers(ms[1..], id);
      var rest := RemoveById(ms[1..], id);
      assert forall m :: m in rest ==> m in ms[1..];
      assert forall j :: 0 <= j < |rest| ==> rest[j] in ms[1..] && rest[j].id != ms[0].id;
    }
  }

  /** Deleting keeps the ledger invariant: the ids left are distinct and were all handed out. */
  lemma RemoveKeepsLedger(ms: seq<Meal>, issued: set<int>, next: int, id: int)
    requires LedgerInvariant(ms, issued, next)
    ensures LedgerInvariant(RemoveById(ms, id), issued, next)
  {
    RemoveKeepsDistinct(ms, id);
    RemoveMembers(ms, id);
    var r := RemoveById(ms, id);
    assert forall j :: 0 <= j < |r| ==> r[j] in ms;
  }

  // ---------------------------------------------------------------------------
  // Edit-save: `prev.map(meal => meal.id === editingId ? record : meal)`
  // ---------------------------------------------------------------------------

  /** Every meal whose id equals the edited id is replaced by `rec`; the rest stay in place. */
  function ReplaceById(ms: seq<Meal>, editing: Option<int>, rec: Meal): (r: seq<Meal>)
    ensures |r| == |ms|
  {
    seq(|ms|, i requires 0 <= i < |ms| => if editing == Some(ms[i].id) then rec else ms[i])
  }

  /**
   * When the new record keeps the edited id, every position keeps its id, so the ids stay
   * distinct; with distinct ids at most one meal is replaced.
   */
  lemma ReplaceKeepsIds(ms: seq<Meal>, id: int, rec: Meal)
    requires rec.id == id
    ensures forall i :: 0 <= i < |ms| ==> ReplaceById(ms, Some(id), rec)[i].id == ms[i].id
    ensures DistinctIds(ms) ==> DistinctIds(ReplaceById(ms, Some(id), rec))
    ensures DistinctIds(ms) ==> forall i, j ::
      0 <= i < j < |ms| && ReplaceById(ms, Some(id), rec)[i] != ms[i] ==> ReplaceById(ms, Some(id), rec)[j] == ms[j]
  {
  }

  /** With no edit in progress, saving changes nothing. */
  lemma ReplaceNothing(ms: seq<Meal>, rec: Meal)
    ensures ReplaceById(ms, None, rec) == ms
  {
  }

  // ---------------------------------------------------------------------------
  // Totals
  // ---------------------------------------------------------------------------

  /** `meals.reduce((sum, meal) => sum + (meal.calories || 0), 0)`: NaN calories count as 0. */
  function TotalCalories(ms: seq<Meal>): int {
    if ms == [] then 0 else ms[0].calories.OrZero() + TotalCalories(ms[1..])
  }

  lemma {:induction false} TotalConcat(a: seq<Meal>, b: seq<Meal>)
    ensures TotalCalories(a + b) == TotalCalories(a) + TotalCalories(b)
  {
    if a != [] {
      assert (a + b)[1..] == a[1..] + b;
      TotalConcat(a[1..], b);
    } else {
      assert a + b == b;
    }
  }

  /** Appending a meal raises the total by its calories (0 when they are NaN). */
  lemma TotalAppend(ms: seq<Meal>, m: Meal)
    ensures TotalCalories(ms + [m]) == TotalCalories(ms) + m.calories.OrZero()
  {
    TotalConcat(ms, [m]);
  }

  /** The total of a list split around one meal. */
  lemma TotalSplit(before: seq<Meal>, m: Meal, after: seq<Meal>)
    ensures TotalCalories(before + [m] + after) == TotalCalories(before) + m.calories.OrZero() + TotalCalories(after)
  {
    TotalAppend(before, m);
    TotalConcat(before + [m], after);
  }

  /** Deleting one meal lowers the total by its calories (0 when they are NaN). */
  lemma TotalRemove(ms: seq<Meal>, k: nat)
    requires DistinctIds(ms) && k < |ms|
    ensures TotalCalories(RemoveById(ms, ms[k].id)) == TotalCalories(ms) - ms[k].calories.OrZero()
  {
    RemovePresent(ms, k);
    var before, after := ms[..k], ms[k + 1..];
    assert ms == before + [ms[k]] + after;
    TotalSplit(before, ms[k], after);
    TotalConcat(before, after);
  }

  /**
   * What the summary card shows: calories left, or the excess as a positive amount; with a
   * NaN goal the difference is NaN, fails `>= 0`, and the excess shows as NaN.
   */
  datatype Balance = Remaining(kcal: int) | Excess(kcal: int) | ExcessNaN

  /**
   * `goalCalories - totalCalories`, shown as "remaining" when it is at least 0 and as the
   * absolute excess otherwise.
   */
  function BalanceOf(goal: Number, total: int): (b: Balance)
    ensures b.ExcessNaN? <==> goal.NaN?
    ensures goal.Int? ==>
      && b.kcal >= 0
      && (b.Remaining? <==> total <= goal.value)
      && (b.Remaining? ==> total + b.kcal == goal.value)
      && (b.Excess? ==> goal.value + b.kcal == total)
  {
    if goal.NaN? then ExcessNaN
    else
      var remaining := goal.value - total;
      if remaining >= 0 then Remaining(remaining) else Excess(-remaining)
  }
}
