/** The `goalCalories` entry of the browser's key-value store, shared by the pages. */
module GoalStore {
  import opened JsValues

  /** The key-value store: every value is a string. */
  type Store = map<string, string>

  const GoalKey: string := "goalCalories"

  /**
   * `saved ? Number(saved) : fallback` where `saved` is the stored entry: a missing or
   * empty entry gives the page's default, any other entry is read with `Number`.
   */
  function ReadGoal(store: Store, fallback: int): Number {
    if GoalKey !in store || store[GoalKey] == "" then Int(fallback) else NumberOf(store[GoalKey])
  }

  /**
   * `localStorage.setItem('goalCalories', g)`: the goal is stored as its decimal text and
   * every other entry is left alone.
   */
  function WriteGoal(store: Store, g: int): (s: Store)
    ensures s.Keys == store.Keys + {GoalKey}
    ensures forall k :: k in store && k != GoalKey ==> s[k] == store[k]
  {
    store[GoalKey := IntToString(g)]
  }

  /** A written goal reads back unchanged, whatever default the reading page uses. */
  lemma ReadAfterWrite(store: Store, g: int, fallback: int)
    ensures ReadGoal(WriteGoal(store, g), fallback) == Int(g)
  {
    IntToStringShape(g);
    NumberOfIntToString(g);
  }
}
