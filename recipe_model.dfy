/**
 * recipe/models.py: the Recipe entity, its field constraints, its string
 * form and detail URL, and the decision table of `calculate_difficulty`.
 * The part of `calculate_difficulty` that counts linked ingredients reads
 * the link table and is in module Intermediary.
 */
module RecipeModel {
  import opened Common
  import opened Text

  /** The keys of RECIPE_TYPES, in declaration order. */
  const RECIPE_TYPES: seq<string> := [
    "breakfast", "lunch", "dinner", "appetizer", "dessert", "snack", "drink", "cocktail", "other"
  ]

  const TITLE_MAX_LENGTH: nat := 255
  const DEFAULT_SMALL_DESC: string := "No Description has been added currently."
  const DEFAULT_PIC: string := "no_picture.jpg"

  /**
   * The columns a recipe form fills in: every column except the id, the
   * owner, the picture and the ingredient links. `null=True` columns are
   * options.
   */
  datatype RecipeFields = RecipeFields(
    title: string,
    directions: string,
    cookingTime: Option<int>,
    starCount: Option<int>,
    recipeType: string,
    adaptedLink: Option<string>,
    servings: Option<int>,
    yieldAmount: Option<int>,
    allergens: string,
    smallDesc: string)

  /** A saved recipe: its primary key, its owner's id, its columns and its picture. */
  datatype Recipe = Recipe(id: nat, user: nat, fields: RecipeFields, pic: string)

  /** A `PositiveIntegerField(null=True, blank=False)` value that validation accepts. */
  predicate PresentNonNegative(v: Option<int>) {
    v.Some? && v.value >= 0
  }

  /** The names of the fields that `clean_fields()` rejects. */
  function FieldErrors(f: RecipeFields): (errors: set<string>)
    ensures errors <= {"title", "directions", "cooking_time", "star_count", "recipe_type", "servings", "small_desc"}
  {
    (if f.title == "" || |f.title| > TITLE_MAX_LENGTH then {"title"} else {})
    + (if f.directions == "" then {"directions"} else {})
    + (if !PresentNonNegative(f.cookingTime) then {"cooking_time"} else {})
    + (if f.starCount.None? || !(1 <= f.starCount.value <= 5) then {"star_count"} else {})
    + (if f.recipeType !in RECIPE_TYPES then {"recipe_type"} else {})
    + (if !PresentNonNegative(f.servings) then {"servings"} else {})
    + (if f.smallDesc == "" then {"small_desc"} else {})
  }

  /**
   * The columns pass validation exactly when the title is non-blank and at
   * most 255 characters, directions are non-blank, cooking time and servings
   * are present and non-negative, the star count is present and in 1..5 and
   * the type is one of RECIPE_TYPES, and the short description is non-blank.
   * Nothing constrains `allergens`, nor `yield_amount` within the integer
   * column's range (the database backend's bounds are not modelled).
   */
  lemma FieldsValidIff(f: RecipeFields)
    ensures FieldErrors(f) == {} <==>
      1 <= |f.title| <= TITLE_MAX_LENGTH && f.directions != ""
      && PresentNonNegative(f.cookingTime) && PresentNonNegative(f.servings)
      && f.starCount.Some? && 1 <= f.starCount.value <= 5
      && f.recipeType in RECIPE_TYPES && f.smallDesc != ""
  {
    if FieldErrors(f) == {} {
      assert "title" !in FieldErrors(f) && "directions" !in FieldErrors(f);
      assert "cooking_time" !in FieldErrors(f) && "servings" !in FieldErrors(f);
      assert "star_count" !in FieldErrors(f) && "recipe_type" !in FieldErrors(f);
      assert "small_desc" !in FieldErrors(f);
    }
  }

  /**
   * `yield_amount` carries no validator of its own: any value within the
   * integer column's range, negative or absent, is accepted.
   */
  lemma YieldAmountUnconstrained(f: RecipeFields, y: Option<int>)
    ensures FieldErrors(f.(yieldAmount := y)) == FieldErrors(f)
  {
  }

  /** `recipe/tests.py`: cooking time -10, star count -2 or servings -3 each fail validation. */
  lemma NegativeColumnsRejected(f: RecipeFields)
    ensures "cooking_time" in FieldErrors(f.(cookingTime := Some(-10)))
    ensures "star_count" in FieldErrors(f.(starCount := Some(-2)))
    ensures "servings" in FieldErrors(f.(servings := Some(-3)))
  {
  }

  /** `__str__` is the title. */
  function Str(r: Recipe): string {
    r.fields.title
  }

  /** `get_absolute_url()`: the detail route "/detail/{pk}". */
  function AbsoluteUrl(id: nat): (url: string)
    ensures StartsWith(url, "/detail/")
    ensures ParseNat(url[|"/detail/"|..]) == Some(id)
  {
    var url := "/detail/" + NatToString(id);
    assert url[|"/detail/"|..] == NatToString(id);
    NatToStringRoundTrip(id);
    url
  }

  /** Distinct recipes have distinct detail URLs, and a URL names its recipe. */
  lemma AbsoluteUrlInjective(a: nat, b: nat)
    ensures AbsoluteUrl(a) == AbsoluteUrl(b) <==> a == b
  {
  }

  // ---------------------------------------------------------------
  // calculate_difficulty: the decision table
  // ---------------------------------------------------------------

  const EASY: string := "Easy"
  const MEDIUM: string := "Medium"
  const INTERMEDIATE: string := "Intermediate"
  const HARD: string := "Hard"
  const TIERS: set<string> := {EASY, MEDIUM, INTERMEDIATE, HARD}

  /** What the method returns when it cannot compare (no cooking time, unsaved recipe). */
  const MISSING_DATA: string := "Missing cooking time or ingredients."

  /**
   * The `if`/`elif` chain of `calculate_difficulty` as written. `None` is the
   * Python `None` the method falls through to when no branch fires.
   */
  function Classify(cookingTime: int, ingredientsLen: nat): Option<string> {
    if cookingTime < 10 && ingredientsLen < 4 then Some(EASY)
    else if cookingTime < 10 && ingredientsLen > 4 then Some(MEDIUM)
    else if cookingTime >= 10 && ingredientsLen < 4 then Some(INTERMEDIATE)
    else if cookingTime >= 10 && ingredientsLen >= 4 then Some(HARD)
    else None
  }

  /** The tiers of the table, for every input the chain covers. */
  lemma ClassifyTable(cookingTime: int, ingredientsLen: nat)
    ensures cookingTime < 10 && ingredientsLen < 4 ==> Classify(cookingTime, ingredientsLen) == Some(EASY)
    ensures cookingTime < 10 && ingredientsLen > 4 ==> Classify(cookingTime, ingredientsLen) == Some(MEDIUM)
    ensures cookingTime >= 10 && ingredientsLen < 4 ==> Classify(cookingTime, ingredientsLen) == Some(INTERMEDIATE)
    ensures cookingTime >= 10 && ingredientsLen >= 4 ==> Classify(cookingTime, ingredientsLen) == Some(HARD)
  {
  }

  /**
   * The chain returns a tier everywhere except at a cooking time under 10
   * with exactly four ingredients, where it returns `None`; it never returns
   * the sentinel.
   */
  lemma ClassifyGap(cookingTime: int, ingredientsLen: nat)
    ensures Classify(cookingTime, ingredientsLen).None? <==> cookingTime < 10 && ingredientsLen == 4
    ensures Classify(cookingTime, ingredientsLen).Some? ==> Classify(cookingTime, ingredientsLen).value in TIERS
  {
  }

  /** The concrete input that exhibits the gap: 3 minutes and four ingredients. */
  lemma ClassifyGapWitness()
    ensures Classify(3, 4) == None
  {
  }

  /**
   * The table the chain evidently intends: under 10 minutes, fewer than four
   * ingredients is Easy and four or more is Medium; from 10 minutes on,
   * fewer than four is Intermediate and four or more is Hard.
   */
  function ClassifyIntended(cookingTime: int, ingredientsLen: nat): (tier: string)
    ensures tier in TIERS
    ensures (tier == EASY || tier == MEDIUM) <==> cookingTime < 10
    ensures (tier == EASY || tier == INTERMEDIATE) <==> ingredientsLen < 4
  {
    if cookingTime < 10 then (if ingredientsLen < 4 then EASY else MEDIUM)
    else (if ingredientsLen < 4 then INTERMEDIATE else HARD)
  }

  /** The corrected table agrees with the chain wherever the chain returns a tier. */
  lemma ClassifyIntendedExtends(cookingTime: int, ingredientsLen: nat)
    ensures Classify(cookingTime, ingredientsLen).Some? ==>
      Classify(cookingTime, ingredientsLen) == Some(ClassifyIntended(cookingTime, ingredientsLen))
  {
  }
}
