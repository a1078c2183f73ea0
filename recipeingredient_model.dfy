/**
 * recipeingredient/models.py: an Ingredient (a name) and a RecipeIngredient,
 * the quantified use of an ingredient (calories, amount and unit, cost,
 * supplier, grams) that recipes link to.
 */
module RecipeIngredientModel {
  import opened Text

  /**
   * A `DecimalField(max_digits=8, decimal_places=2)` value, held exactly as a
   * whole number of hundredths (2040 is 20.40).
   */
  type Hundredths = int

  /** Eight digits, two after the point: at most six before it. */
  const DECIMAL_BOUND: int := 100_000_000

  /** The decimal validator of `max_digits=8, decimal_places=2`. */
  predicate FitsDecimal(v: Hundredths) {
    -DECIMAL_BOUND < v < DECIMAL_BOUND
  }

  /** The keys of AMOUNT_TYPES, in declaration order. */
  const AMOUNT_TYPES: seq<string> := [
    "cup", "teaspoon", "tablespoon", "fluid ounce", "pint", "quart", "gallon",
    "milliliter", "liter", "ounce", "pound", "gram", "kilogram", "each", "other"
  ]

  const SUPPLIER_MAX_LENGTH: nat := 255

  /** ingredient.Ingredient: a name that recipe ingredients refer to. */
  datatype Ingredient = Ingredient(id: nat, name: string)

  datatype RecipeIngredient = RecipeIngredient(
    id: nat,
    ingredient: nat,           // the Ingredient's id
    calorieContent: Hundredths,
    amount: Hundredths,
    amountType: string,
    cost: Hundredths,
    supplier: string,
    grams: Hundredths)

  /** The names of the fields that `full_clean()` rejects. */
  function FieldErrors(ri: RecipeIngredient): (errors: set<string>)
    ensures errors <= {"calorie_content", "amount", "amount_type", "cost", "supplier", "grams"}
  {
    (if !FitsDecimal(ri.calorieContent) then {"calorie_content"} else {})
    + (if ri.amount < 0 || !FitsDecimal(ri.amount) then {"amount"} else {})
    + (if ri.amountType !in AMOUNT_TYPES then {"amount_type"} else {})
    + (if ri.cost < 0 || !FitsDecimal(ri.cost) then {"cost"} else {})
    + (if ri.supplier == "" || |ri.supplier| > SUPPLIER_MAX_LENGTH then {"supplier"} else {})
    + (if ri.grams < 0 || !FitsDecimal(ri.grams) then {"grams"} else {})
  }

  /**
   * A record passes validation exactly when amount, cost and grams are
   * non-negative, every decimal fits eight digits, the unit is one of the
   * fifteen AMOUNT_TYPES and the supplier is non-blank and at most 255
   * characters. Calorie content has no lower bound.
   */
  lemma ValidIff(ri: RecipeIngredient)
    ensures FieldErrors(ri) == {} <==>
      0 <= ri.amount < DECIMAL_BOUND && 0 <= ri.cost < DECIMAL_BOUND && 0 <= ri.grams < DECIMAL_BOUND
      && FitsDecimal(ri.calorieContent)
      && ri.amountType in AMOUNT_TYPES
      && 1 <= |ri.supplier| <= SUPPLIER_MAX_LENGTH
  {
    if FieldErrors(ri) == {} {
      assert "amount" !in FieldErrors(ri) && "cost" !in FieldErrors(ri) && "grams" !in FieldErrors(ri);
      assert "calorie_content" !in FieldErrors(ri) && "amount_type" !in FieldErrors(ri);
      assert "supplier" !in FieldErrors(ri);
    }
  }

  /** A negative calorie content is accepted when everything else is valid. */
  lemma NegativeCaloriesAccepted(ri: RecipeIngredient)
    requires FieldErrors(ri) == {}
    ensures FieldErrors(ri.(calorieContent := -ri.calorieContent)) == {}
  {
  }

  /** `recipeingredient/tests.py`: cost -10.50, grams -10.75 or a blank supplier fail `full_clean()`. */
  lemma NegativeOrBlankRejected(ri: RecipeIngredient)
    ensures "cost" in FieldErrors(ri.(cost := -1050))
    ensures "grams" in FieldErrors(ri.(grams := -1075))
    ensures "supplier" in FieldErrors(ri.(supplier := ""))
  {
  }

  /** `__str__`: "Recipe Ingredient: {id} - {ingredient name}". */
  function Str(ri: RecipeIngredient, ingredientName: string): (s: string)
    ensures StartsWith(s, "Recipe Ingredient: ")
    ensures |s| >= |ingredientName| && s[|s| - |ingredientName|..] == ingredientName
  {
    "Recipe Ingredient: " + NatToString(ri.id) + " - " + ingredientName
  }

  /** For one ingredient name, the label tells the records apart by id. */
  lemma StrDeterminesId(a: RecipeIngredient, b: RecipeIngredient, name: string)
    ensures Str(a, name) == Str(b, name) <==> a.id == b.id
  {
    var p := "Recipe Ingredient: ";
    var x, y := NatToString(a.id), NatToString(b.id);
    if Str(a, name) == Str(b, name) {
      assert |x| == |y|;
      assert Str(a, name)[|p|..|p| + |x|] == x;
      assert Str(b, name)[|p|..|p| + |y|] == y;
      NatToStringInjective(a.id, b.id);
    }
  }
}
