/**
 * The nutrition lookup (src/api/edamam.js): the configuration check, the food-name check,
 * the request parameters, and the four values taken from the response. The HTTP call is
 * a function parameter from request to response, and the decoded JSON body is a record
 * whose optional fields stand for properties that may be missing.
 */
module Edamam {
  import opened Wrappers
  import opened JsValues

  /** `REACT_APP_EDAMAM_ID` and `REACT_APP_EDAMAM_KEY`; an unset variable is the empty string. */
  datatype Config = Config(appId: string, appKey: string)

  /** Why a lookup throws. */
  datatype NutritionError =
    | MissingConfig          // the environment check
    | EmptyFoodName          // nothing but white space to look up
    | RequestFailed(status: int)

  /** The query parameters `app_id`, `app_key` and `ingr`. */
  datatype Request = Request(appId: string, appKey: string, ingr: string)

  /** A nutrient entry of `totalNutrients`; `quantity` may be missing. */
  datatype Nutrient = Nutrient(quantity: Option<real>)

  /** The decoded body: `calories` and `totalNutrients` may each be missing. */
  datatype Body = Body(calories: Option<real>, totalNutrients: Option<map<string, Nutrient>>)

  datatype Response = Response(ok: bool, status: int, body: Body)

  /** What the lookup returns: exactly these four whole numbers. */
  datatype Nutrition = Nutrition(calories: int, carbs: int, sugar: int, protein: int)

  /** `ensureEnv`: both variables must be non-empty. */
  function EnsureEnv(cfg: Config): Result<(), NutritionError> {
    if cfg.appId == "" || cfg.appKey == "" then Failure(MissingConfig) else Success(())
  }

  /**
   * The checks in their order and the request they lead to: the configuration first, then
   * a food name that trims to nothing (it is empty or white space only), and otherwise a
   * request for the trimmed name with the configured id and key.
   */
  function BuildRequest(cfg: Config, foodName: string): (r: Result<Request, NutritionError>)
    ensures (cfg.appId == "" || cfg.appKey == "") ==> r == Failure(MissingConfig)
    ensures cfg.appId != "" && cfg.appKey != "" ==> (r == Failure(EmptyFoodName) <==> Trim(foodName) == [])
    ensures r.Success? ==> r.value == Request(cfg.appId, cfg.appKey, Trim(foodName)) && r.value.ingr != []
  {
    match EnsureEnv(cfg)
    case Failure(e) => Failure(e)
    case Success(_) =>
      if foodName == [] || Trim(foodName) == [] then Failure(EmptyFoodName)
      else Success(Request(cfg.appId, cfg.appKey, Trim(foodName)))
  }

  /** `x || 0` on a number that may be missing. */
  function RealOrZero(x: Option<real>): real {
    if x.Some? then x.value else 0.0
  }

  /** `g` is what `Math.round(x || 0)` promises: the integer nearest `x`, or 0 when `x` is missing. */
  predicate NearestOrZero(g: int, x: Option<real>) {
    match x
    case None => g == 0
    case Some(q) => q - 0.5 < g as real <= q + 0.5
  }

  /** The quantity a response gives for nutrient `key`, if `totalNutrients`, the entry and its quantity are all there. */
  function Quantity(nutrients: Option<map<string, Nutrient>>, key: string): Option<real> {
    if nutrients.Some? && key in nutrients.value then nutrients.value[key].quantity else None
  }

  /**
   * `nutrients.K ? Math.round(nutrients.K.quantity || 0) : 0`: the whole number nearest the
   * entry's quantity, and 0 when the entry or its quantity is missing.
   */
  function NutrientAmount(nutrients: map<string, Nutrient>, key: string): (g: int)
    ensures key !in nutrients || nutrients[key].quantity.None? ==> g == 0
    ensures key in nutrients && nutrients[key].quantity.Some? ==>
      var q := nutrients[key].quantity.value;
      q - 0.5 < g as real <= q + 0.5
  {
    if key in nutrients then Round(RealOrZero(nutrients[key].quantity)) else 0
  }

  /**
   * The response's part: a status that is not OK fails with that status; otherwise each of
   * the four values is the whole number nearest the response's figure (`calories`, and
   * the `CHOCDF`, `SUGAR` and `PROCNT` quantities), or 0 when that figure is missing.
   */
  function Extract(res: Response): (r: Result<Nutrition, NutritionError>)
    ensures !res.ok <==> r == Failure(RequestFailed(res.status))
    ensures res.ok ==>
      && r.Success?
      && NearestOrZero(r.value.calories, res.body.calories)
      && NearestOrZero(r.value.carbs, Quantity(res.body.totalNutrients, "CHOCDF"))
      && NearestOrZero(r.value.sugar, Quantity(res.body.totalNutrients, "SUGAR"))
      && NearestOrZero(r.value.protein, Quantity(res.body.totalNutrients, "PROCNT"))
  {
    if !res.ok then Failure(RequestFailed(res.status))
    else
      var nutrients := if res.body.totalNutrients.Some? then res.body.totalNutrients.value else map[];
      Success(Nutrition(
        Round(RealOrZero(res.body.calories)),
        NutrientAmount(nutrients, "CHOCDF"),
        NutrientAmount(nutrients, "SUGAR"),
        NutrientAmount(nutrients, "PROCNT")))
  }

  /** A failed status is reported before the body is read: the body makes no difference. */
  lemma FailureIgnoresBody(res: Response, b: Body)
    requires !res.ok
    ensures Extract(res.(body := b)) == Extract(res)
  {
  }

  /** The four values are determined by the four figures: responses that agree on them give the same result. */
  lemma ExtractDependsOnFigures(res: Response, other: Response)
    requires res.ok && other.ok
    requires res.body.calories == other.body.calories
    requires forall k :: k in ["CHOCDF", "SUGAR", "PROCNT"] ==>
      Quantity(res.body.totalNutrients, k) == Quantity(other.body.totalNutrients, k)
    ensures Extract(res) == Extract(other)
  {
    var a := Extract(res).value;
    var b := Extract(other).value;
    NearestUnique(a.calories, b.calories, res.body.calories);
    assert "CHOCDF" in ["CHOCDF", "SUGAR", "PROCNT"];
    assert "SUGAR" in ["CHOCDF", "SUGAR", "PROCNT"];
    assert "PROCNT" in ["CHOCDF", "SUGAR", "PROCNT"];
    NearestUnique(a.carbs, b.carbs, Quantity(res.body.totalNutrients, "CHOCDF"));
    NearestUnique(a.sugar, b.sugar, Quantity(res.body.totalNutrients, "SUGAR"));
    NearestUnique(a.protein, b.protein, Quantity(res.body.totalNutrients, "PROCNT"));
  }

  /** At most one integer is nearest. */
  lemma NearestUnique(g: int, h: int, x: Option<real>)
    requires NearestOrZero(g, x) && NearestOrZero(h, x)
    ensures g == h
  {
  }

  /**
   * `fetchNutritionFromEdamam(foodName)` with the HTTP round trip as `fetch`: a missing
   * variable is reported first, whatever the food name and the network do; then a blank
   * name; otherwise the one request for the trimmed name decides the outcome.
   */
  function FetchNutrition(cfg: Config, foodName: string, fetch: Request -> Response): (r: Result<Nutrition, NutritionError>)
    ensures (cfg.appId == "" || cfg.appKey == "") ==> r == Failure(MissingConfig)
    ensures cfg.appId != "" && cfg.appKey != "" && Trim(foodName) == [] ==> r == Failure(EmptyFoodName)
    ensures cfg.appId != "" && cfg.appKey != "" && Trim(foodName) != [] ==>
      r == Extract(fetch(Request(cfg.appId, cfg.appKey, Trim(foodName))))
  {
    match BuildRequest(cfg, foodName)
    case Failure(e) => Failure(e)
    case Success(req) => Extract(fetch(req))
  }

  /** A blank food name fails before the request: the outcome does not depend on the network at all. */
  lemma BlankNameMakesNoRequest(cfg: Config, foodName: string, f: Request -> Response, g: Request -> Response)
    requires cfg.appId != "" && cfg.appKey != ""
    requires forall i :: 0 <= i < |foodName| ==> IsSpace(foodName[i])
    ensures FetchNutrition(cfg, foodName, f) == Failure(EmptyFoodName)
    ensures FetchNutrition(cfg, foodName, f) == FetchNutrition(cfg, foodName, g)
  {
  }

  /** Otherwise the network sees exactly one request, for the trimmed name, and its answer decides the outcome. */
  lemma RequestForTrimmedName(cfg: Config, foodName: string, fetch: Request -> Response)
    requires cfg.appId != "" && cfg.appKey != ""
    requires exists i :: 0 <= i < |foodName| && !IsSpace(foodName[i])
    ensures FetchNutrition(cfg, foodName, fetch) == Extract(fetch(Request(cfg.appId, cfg.appKey, Trim(foodName))))
  {
  }

  /** Trimming twice is trimming once. */
  lemma TrimIdempotent(s: string)
    ensures Trim(Trim(s)) == Trim(s)
  {
    var r := Trim(s);
    if r != [] {
      assert TrimStart(r) == r;
      assert TrimEnd(r) == r;
    }
  }

  /** Surrounding white space makes no difference: the checks and the request are those of the trimmed name. */
  lemma PaddingIrrelevant(cfg: Config, foodName: string)
    ensures BuildRequest(cfg, Trim(foodName)) == BuildRequest(cfg, foodName)
  {
    if cfg.appId != "" && cfg.appKey != "" {
      if Trim(foodName) == [] {
        assert BuildRequest(cfg, foodName) == Failure(EmptyFoodName);
        assert BuildRequest(cfg, Trim(foodName)) == Failure(EmptyFoodName);
      } else {
        TrimIdempotent(foodName);
        assert BuildRequest(cfg, foodName) == Success(Request(cfg.appId, cfg.appKey, Trim(foodName)));
        assert BuildRequest(cfg, Trim(foodName)) == Success(Request(cfg.appId, cfg.appKey, Trim(foodName)));
      }
    }
  }

  /** An OK response without any nutrient data gives four zeros. */
  lemma EmptyBodyGivesZeros(status: int)
    ensures Extract(Response(true, status, Body(None, None))) == Success(Nutrition(0, 0, 0, 0))
  {
  }
}
