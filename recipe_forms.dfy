/**
 * recipe/forms.py: the search form, the add-ingredient form, and the
 * `base64_string` rules of the create and edit forms. Every form field is a
 * Django `forms.CharField`, `ChoiceField`, `DecimalField` or `IntegerField`;
 * a field's errors are reported under its name.
 *
 * Text inputs are what the browser posted (`None` when the key is absent);
 * decimal inputs are already read as whole hundredths (`None` when absent).
 * A `forms.CharField` strips its text before validating it, and refuses a
 * NUL character; the recipe forms' text columns are cleaned by CleanFields.
 */
module RecipeForms {
  import opened Common
  import opened Text
  import opened RecipeModel
  import opened RecipeIngredientModel

  // ---------------------------------------------------------------
  // RecipeSearchForm
  // ---------------------------------------------------------------

  /** The keys of SEARCH__CHOICES. */
  const SEARCH_MODES: seq<string> := ["#1", "#2", "#3"]
  const SEARCH_MAX_LENGTH: nat := 150

  /**
   * A required `ChoiceField`: an absent or empty value is "required", any
   * other value outside the choices is "invalid_choice"; both land on the
   * field. The value is not stripped.
   */
  predicate ChoiceRejected(raw: Option<string>, choices: seq<string>) {
    raw.None? || raw.value == "" || raw.value !in choices
  }

  function SearchFormErrors(searchMode: Option<string>, search: Option<string>): (errors: set<string>)
    ensures errors <= {"search_mode", "search"}
  {
    (if ChoiceRejected(searchMode, SEARCH_MODES) then {"search_mode"} else {})
    + (if |CleanChar(search)| > SEARCH_MAX_LENGTH || NUL in CleanChar(search) then {"search"} else {})
  }

  /**
   * `search_mode` passes exactly when it is one of "#1", "#2", "#3";
   * `search` may be absent or empty and passes exactly when its stripped
   * text is at most 150 characters and it holds no NUL character.
   */
  lemma SearchFormIff(searchMode: Option<string>, search: Option<string>)
    ensures "search_mode" !in SearchFormErrors(searchMode, search) <==>
      searchMode.Some? && searchMode.value in SEARCH_MODES
    ensures "search" !in SearchFormErrors(searchMode, search) <==>
      |CleanChar(search)| <= SEARCH_MAX_LENGTH && (search.None? || NUL !in search.value)
    ensures "search" !in SearchFormErrors(searchMode, None)
    ensures "search" !in SearchFormErrors(searchMode, Some(""))
  {
    assert "" !in SEARCH_MODES;
  }

  /** `recipe/tests.py`: a blank or unknown search mode is rejected. */
  lemma BlankOrUnknownModeRejected(search: Option<string>)
    ensures "search_mode" in SearchFormErrors(Some(""), search)
    ensures "search_mode" in SearchFormErrors(Some("#4"), search)
  {
  }

  // ---------------------------------------------------------------
  // RecipeIngredientIntermediaryForm
  // ---------------------------------------------------------------

  const INGREDIENT_MAX_LENGTH: nat := 255

  /** What the add-ingredient page posts; `recipe_id` comes from a hidden input. */
  datatype IngredientInput = IngredientInput(
    recipeId: Option<int>,
    ingredient: Option<string>,
    calorieContent: Option<Hundredths>,
    amount: Option<Hundredths>,
    amountType: Option<string>,
    cost: Option<Hundredths>,
    supplier: Option<string>,
    grams: Option<Hundredths>)

  /** A required `CharField(max_length=n)`: blank after stripping, too long, or holding a NUL character. */
  predicate TextRejected(raw: Option<string>, maxLength: nat) {
    CleanChar(raw) == "" || |CleanChar(raw)| > maxLength || NUL in CleanChar(raw)
  }

  /** A required `DecimalField(max_digits=8, decimal_places=2)`, optionally with `MinValueValidator(0)`. */
  predicate DecimalRejected(v: Option<Hundredths>, nonNegative: bool) {
    v.None? || !FitsDecimal(v.value) || (nonNegative && v.value < 0)
  }

  /** The fields of the add-ingredient form that can fail (`recipe_id` cannot). */
  datatype IngredientField =
    IngredientNameField | CalorieContentField | AmountField | AmountTypeField | CostField | SupplierField | GramsField

  /** The key Django reports an error of the field under. */
  function FieldName(field: IngredientField): string {
    match field
    case IngredientNameField => "ingredient"
    case CalorieContentField => "calorie_content"
    case AmountField => "amount"
    case AmountTypeField => "amount_type"
    case CostField => "cost"
    case SupplierField => "supplier"
    case GramsField => "grams"
  }

  /** Whether the field's own validation rejects what was posted for it. */
  predicate FieldRejected(f: IngredientInput, field: IngredientField) {
    match field
    case IngredientNameField => TextRejected(f.ingredient, INGREDIENT_MAX_LENGTH)
    case CalorieContentField => DecimalRejected(f.calorieContent, false)
    case AmountField => DecimalRejected(f.amount, true)
    case AmountTypeField => ChoiceRejected(f.amountType, AMOUNT_TYPES)
    case CostField => DecimalRejected(f.cost, true)
    case SupplierField => TextRejected(f.supplier, SUPPLIER_MAX_LENGTH)
    case GramsField => DecimalRejected(f.grams, true)
  }

  /** `form.errors` of `RecipeIngredientIntermediaryForm`: every field that fails, each on its own. */
  function IngredientFormErrors(f: IngredientInput): (errors: set<IngredientField>)
    ensures forall field :: field in errors <==> FieldRejected(f, field)
  {
    set field: IngredientField | FieldRejected(f, field)
  }

  /**
   * The form is valid exactly when the ingredient name and supplier are
   * non-blank, at most 255 characters once stripped and free of NUL
   * characters, every decimal is present and fits,
   * amount, cost and grams are non-negative, and the unit is one of the
   * fifteen AMOUNT_TYPES. `recipe_id` never fails, and calorie content has no
   * lower bound.
   */
  lemma IngredientFormValidIff(f: IngredientInput)
    ensures IngredientFormErrors(f) == {} <==>
      1 <= |CleanChar(f.ingredient)| <= INGREDIENT_MAX_LENGTH && NUL !in f.ingredient.value
      && 1 <= |CleanChar(f.supplier)| <= SUPPLIER_MAX_LENGTH && NUL !in f.supplier.value
      && f.calorieContent.Some? && FitsDecimal(f.calorieContent.value)
      && f.amount.Some? && 0 <= f.amount.value < DECIMAL_BOUND
      && f.cost.Some? && 0 <= f.cost.value < DECIMAL_BOUND
      && f.grams.Some? && 0 <= f.grams.value < DECIMAL_BOUND
      && f.amountType.Some? && f.amountType.value in AMOUNT_TYPES
  {
    assert "" !in AMOUNT_TYPES;
    var e := IngredientFormErrors(f);
    if e == {} {
      assert IngredientNameField !in e && SupplierField !in e && CalorieContentField !in e;
      assert AmountField !in e && CostField !in e && GramsField !in e && AmountTypeField !in e;
    } else {
      var field :| field in e;
      assert FieldRejected(f, field);
    }
  }

  /**
   * `recipe/tests.py`: posting only calorie content and grams leaves exactly
   * the five fields ingredient, amount, amount_type, cost and supplier in
   * error.
   */
  lemma MissingFieldsFiveErrors(recipeId: Option<int>, calories: Hundredths, grams: Hundredths)
    requires FitsDecimal(calories) && 0 <= grams < DECIMAL_BOUND
    ensures IngredientFormErrors(IngredientInput(recipeId, None, Some(calories), None, None, None, None, Some(grams)))
      == {IngredientNameField, AmountField, AmountTypeField, CostField, SupplierField}
    ensures |IngredientFormErrors(IngredientInput(recipeId, None, Some(calories), None, None, None, None, Some(grams)))| == 5
  {
    var f := IngredientInput(recipeId, None, Some(calories), None, None, None, None, Some(grams));
    var e := IngredientFormErrors(f);
    assert !FieldRejected(f, CalorieContentField) && !FieldRejected(f, GramsField);
    assert e == {IngredientNameField, AmountField, AmountTypeField, CostField, SupplierField};
  }

  /** `recipe/tests.py`: the unit "grams" is not a choice, while "gram" is. */
  lemma GramsIsNotAUnit(f: IngredientInput)
    ensures AmountTypeField in IngredientFormErrors(f.(amountType := Some("grams")))
    ensures AmountTypeField !in IngredientFormErrors(f.(amountType := Some("gram")))
  {
    assert ChoiceRejected(Some("grams"), AMOUNT_TYPES) by {
      forall i | 0 <= i < |AMOUNT_TYPES| ensures AMOUNT_TYPES[i] != "grams" {
      }
    }
    assert !ChoiceRejected(Some("gram"), AMOUNT_TYPES) by {
      assert AMOUNT_TYPES[11] == "gram";
    }
  }

  /** Negative amount, cost or grams fail; a negative calorie content alone does not. */
  lemma NegativeQuantities(f: IngredientInput, v: Hundredths)
    requires v < 0
    ensures AmountField in IngredientFormErrors(f.(amount := Some(v)))
    ensures CostField in IngredientFormErrors(f.(cost := Some(v)))
    ensures GramsField in IngredientFormErrors(f.(grams := Some(v)))
    ensures FitsDecimal(v) ==> CalorieContentField !in IngredientFormErrors(f.(calorieContent := Some(v)))
  {
    assert DecimalRejected(Some(v), true);
  }

  /** A valid form carries every decimal and a unit. */
  lemma FormValues(f: IngredientInput)
    requires IngredientFormErrors(f) == {}
    ensures f.calorieContent.Some? && f.amount.Some? && f.amountType.Some? && f.cost.Some? && f.grams.Some?
  {
    var e := IngredientFormErrors(f);
    assert CalorieContentField !in e && AmountField !in e && AmountTypeField !in e;
    assert CostField !in e && GramsField !in e;
  }

  /**
   * The record `IngredientAddView` builds from a valid form, with the given
   * primary key and ingredient id.
   */
  function RecordFrom(f: IngredientInput, id: nat, ingredientId: nat): (ri: RecipeIngredient)
    requires IngredientFormErrors(f) == {}
    ensures ri.id == id && ri.ingredient == ingredientId
  {
    FormValues(f);
    RecipeIngredient(id, ingredientId, f.calorieContent.value, f.amount.value, f.amountType.value,
      f.cost.value, CleanChar(f.supplier), f.grams.value)
  }

  /** A record built from a valid form passes the model's own validation. */
  lemma ValidFormGivesValidRecord(f: IngredientInput, id: nat, ingredientId: nat)
    requires IngredientFormErrors(f) == {}
    ensures RecipeIngredientModel.FieldErrors(RecordFrom(f, id, ingredientId)) == {}
  {
    IngredientFormValidIff(f);
    ValidIff(RecordFrom(f, id, ingredientId));
  }

  // ---------------------------------------------------------------
  // RecipeForm and RecipeEditForm
  // ---------------------------------------------------------------

  const SMALL_DESC_MAX_LENGTH: nat := 200

  /**
   * `base64_string`: required in `RecipeForm`, optional (`required=False`)
   * in `RecipeEditForm`; in both it may hold no NUL character.
   */
  function Base64Errors(raw: Option<string>, required: bool): (errors: set<string>)
    ensures errors == {} || errors == {"base64_string"}
  {
    if (required && CleanChar(raw) == "") || NUL in CleanChar(raw) then {"base64_string"} else {}
  }

  /**
   * The create form needs a non-blank picture string; the edit form accepts
   * none or an empty one. Neither accepts a NUL character.
   */
  lemma Base64RequiredOnlyOnCreate(raw: Option<string>)
    ensures Base64Errors(raw, true) == {} <==> raw.Some? && !IsBlank(raw.value) && NUL !in raw.value
    ensures Base64Errors(raw, false) == {} <==> raw.None? || NUL !in raw.value
    ensures Base64Errors(None, false) == {} && Base64Errors(Some(""), false) == {}
    ensures Base64Errors(Some(""), true) == {"base64_string"}
  {
    assert NUL !in "";
  }

  /**
   * The columns as the ModelForm cleans them: `title`, `directions`,
   * `allergens` and `small_desc` are `forms.CharField`s, which strip the
   * posted text; `recipe_type` is a choice and keeps its value as posted.
   */
  function CleanFields(f: RecipeFields): RecipeFields {
    f.(title := Strip(f.title), directions := Strip(f.directions),
       allergens := Strip(f.allergens), smallDesc := Strip(f.smallDesc))
  }

  /** Cleaning cleaned columns changes nothing. */
  lemma CleanFieldsIdempotent(f: RecipeFields)
    ensures CleanFields(CleanFields(f)) == CleanFields(f)
  {
    StripIdempotent(f.title);
    StripIdempotent(f.directions);
    StripIdempotent(f.allergens);
    StripIdempotent(f.smallDesc);
  }

  /** The text columns whose cleaned text holds a NUL character. */
  function NulErrors(c: RecipeFields): set<string> {
    (if NUL in c.title then {"title"} else {})
    + (if NUL in c.directions then {"directions"} else {})
    + (if NUL in c.allergens then {"allergens"} else {})
    + (if NUL in c.smallDesc then {"small_desc"} else {})
  }

  /**
   * The errors of the create (`required` true) or edit form, all judged on
   * the cleaned columns: the model's field validation, the 200-character
   * limit the form takes from `small_desc`, the NUL characters the text
   * fields refuse, and the picture string rule. Title uniqueness needs the
   * store and is checked by the views.
   */
  function RecipeFormErrors(f: RecipeFields, base64: Option<string>, required: bool): set<string> {
    CleanedFormErrors(CleanFields(f), base64, required)
  }

  /** The form's errors once its columns `c` are cleaned. */
  function CleanedFormErrors(c: RecipeFields, base64: Option<string>, required: bool): (errors: set<string>)
    ensures errors == {} <==>
      RecipeModel.FieldErrors(c) == {} && |c.smallDesc| <= SMALL_DESC_MAX_LENGTH
      && NulErrors(c) == {} && Base64Errors(base64, required) == {}
  {
    RecipeModel.FieldErrors(c)
    + (if |c.smallDesc| > SMALL_DESC_MAX_LENGTH then {"small_desc"} else {})
    + NulErrors(c)
    + Base64Errors(base64, required)
  }

  /**
   * In terms of what was posted: the form is valid exactly when the title
   * is not blank and at most 255 characters once stripped, directions and
   * the short description are not blank, the short description is at most
   * 200 characters once stripped, no text column holds a NUL character, the
   * integer columns and the type pass the model's checks, and the picture
   * string rule holds.
   */
  lemma RecipeFormValidIff(f: RecipeFields, base64: Option<string>, required: bool)
    ensures RecipeFormErrors(f, base64, required) == {} <==>
      !IsBlank(f.title) && |Strip(f.title)| <= TITLE_MAX_LENGTH
      && !IsBlank(f.directions) && !IsBlank(f.smallDesc) && |Strip(f.smallDesc)| <= SMALL_DESC_MAX_LENGTH
      && NUL !in f.title && NUL !in f.directions && NUL !in f.allergens && NUL !in f.smallDesc
      && PresentNonNegative(f.cookingTime) && PresentNonNegative(f.servings)
      && f.starCount.Some? && 1 <= f.starCount.value <= 5
      && f.recipeType in RECIPE_TYPES
      && Base64Errors(base64, required) == {}
  {
    CleanFieldsValidIff(f);
    CleanFieldsNulFree(f);
  }

  /** The model's field checks on the cleaned columns, in terms of what was posted. */
  lemma CleanFieldsValidIff(f: RecipeFields)
    ensures RecipeModel.FieldErrors(CleanFields(f)) == {} <==>
      !IsBlank(f.title) && |Strip(f.title)| <= TITLE_MAX_LENGTH
      && !IsBlank(f.directions) && !IsBlank(f.smallDesc)
      && PresentNonNegative(f.cookingTime) && PresentNonNegative(f.servings)
      && f.starCount.Some? && 1 <= f.starCount.value <= 5
      && f.recipeType in RECIPE_TYPES
  {
    FieldsValidIff(CleanFields(f));
    StripEmptyIffBlank(f.title);
    StripEmptyIffBlank(f.directions);
    StripEmptyIffBlank(f.smallDesc);
  }

  /** The cleaned columns hold a NUL character exactly where the posted ones do. */
  lemma CleanFieldsNulFree(f: RecipeFields)
    ensures NulErrors(CleanFields(f)) == {} <==>
      NUL !in f.title && NUL !in f.directions && NUL !in f.allergens && NUL !in f.smallDesc
  {
    NulErrorsEmptyIff(CleanFields(f));
    CleanedTitle(f);
    CleanedTextNul(f);
  }

  /** Cleaning keeps the NUL characters of directions, allergens and the short description. */
  lemma CleanedTextNul(f: RecipeFields)
    ensures (NUL in CleanFields(f).directions) == (NUL in f.directions)
    ensures (NUL in CleanFields(f).allergens) == (NUL in f.allergens)
    ensures (NUL in CleanFields(f).smallDesc) == (NUL in f.smallDesc)
  {
    StripKeeps(f.directions, NUL);
    StripKeeps(f.allergens, NUL);
    StripKeeps(f.smallDesc, NUL);
  }

  lemma NulErrorsEmptyIff(c: RecipeFields)
    ensures NulErrors(c) == {} <==>
      NUL !in c.title && NUL !in c.directions && NUL !in c.allergens && NUL !in c.smallDesc
  {
    if NulErrors(c) == {} {
      assert "title" !in NulErrors(c) && "directions" !in NulErrors(c);
      assert "allergens" !in NulErrors(c) && "small_desc" !in NulErrors(c);
    }
  }

  /** The title's own errors: on the cleaned title, empty, too long, or holding a NUL character. */
  lemma TitleFormErrorIff(c: RecipeFields, base64: Option<string>, required: bool)
    ensures "title" in CleanedFormErrors(c, base64, required) <==>
      c.title == "" || |c.title| > TITLE_MAX_LENGTH || NUL in c.title
  {
    assert "title" in RecipeModel.FieldErrors(c) <==> c.title == "" || |c.title| > TITLE_MAX_LENGTH;
    assert "title" in NulErrors(c) <==> NUL in c.title;
    assert "title" !in Base64Errors(base64, required);
  }

  /** The title's own errors, in terms of the posted title. */
  lemma PostedTitleFormErrorIff(f: RecipeFields, base64: Option<string>, required: bool)
    ensures "title" in RecipeFormErrors(f, base64, required) <==>
      IsBlank(f.title) || |Strip(f.title)| > TITLE_MAX_LENGTH || NUL in f.title
  {
    TitleFormErrorIff(CleanFields(f), base64, required);
    CleanedTitle(f);
  }

  /** The cleaned title is empty iff the posted one is blank, and holds a NUL character iff the posted one does. */
  lemma CleanedTitle(f: RecipeFields)
    ensures (CleanFields(f).title == "") == IsBlank(f.title)
    ensures (NUL in CleanFields(f).title) == (NUL in f.title)
  {
    StripEmptyIffBlank(f.title);
    StripKeeps(f.title, NUL);
  }

  /** The form judges the cleaned columns: posting them again gives the same errors. */
  lemma RecipeFormSeesCleaned(f: RecipeFields, base64: Option<string>, required: bool)
    ensures RecipeFormErrors(CleanFields(f), base64, required) == RecipeFormErrors(f, base64, required)
  {
    CleanFieldsIdempotent(f);
  }

  /**
   * Whitespace-only title, directions or short description count as
   * missing, and one space on each side of a valid title is not counted
   * against its limit.
   */
  lemma WhitespaceIsNotText(f: RecipeFields, base64: Option<string>, required: bool, blank: string)
    requires IsBlank(blank)
    ensures "title" in RecipeFormErrors(f.(title := blank), base64, required)
    ensures "directions" in RecipeFormErrors(f.(directions := blank), base64, required)
    ensures "small_desc" in RecipeFormErrors(f.(smallDesc := blank), base64, required)
    ensures Strip(f.title) == f.title ==>
      ("title" in RecipeFormErrors(f.(title := " " + f.title + " "), base64, required)
       <==> "title" in RecipeFormErrors(f, base64, required))
  {
    StripEmptyIffBlank(blank);
    if Strip(f.title) == f.title {
      StripPadded(f.title);
      var g := f.(title := " " + f.title + " ");
      assert CleanFields(g).title == CleanFields(f).title;
      assert NUL in CleanFields(g).title <==> NUL in CleanFields(f).title;
    }
  }

  /**
   * `RecipeEditForm.__init__`: the hidden picture input starts out holding
   * the instance's picture when it has one, and empty otherwise.
   */
  function InitialBase64(pic: string): (initial: Option<string>)
    ensures initial.None? <==> pic == ""
    ensures initial.Some? ==> initial.value == pic
  {
    if pic != "" then Some(pic) else None
  }

  /**
   * `form_valid` of the create and edit views: the picture is replaced only
   * by a non-empty cleaned `base64_string`, and kept otherwise.
   */
  function ChoosePicture(current: string, base64: Option<string>): (pic: string)
    ensures CleanChar(base64) != "" ==> pic == CleanChar(base64)
    ensures CleanChar(base64) == "" ==> pic == current
  {
    var cleaned := CleanChar(base64);
    if cleaned != "" then cleaned else current
  }

  /**
   * Re-submitting the edit form with the pre-filled hidden input unchanged
   * keeps the recipe's picture (for a picture string without surrounding
   * whitespace, which stripping would otherwise trim).
   */
  lemma PrefilledEditKeepsPicture(pic: string)
    requires Strip(pic) == pic
    ensures ChoosePicture(pic, InitialBase64(pic)) == pic
  {
  }
}
