/**
 * recipe/views.py, the views that change the store: adding an ingredient
 * to a recipe (and where to go afterwards), deleting one of its ingredients,
 * deleting a recipe, and creating or editing a recipe with its picture.
 *
 * Each view is a method over the `Database`; the HTTP outcome is a
 * `Response`. Login checks happen before these methods run and are not part
 * of this model: `actor` is the logged-in user's id.
 */
module RecipeViews {
  import opened Common
  import opened Text
  import opened RecipeModel
  import opened RecipeIngredientModel
  import opened Intermediary
  import opened RecipeForms

  /** A redirect, a 404 page, an unhandled exception (500), or the form page re-rendered with its errors. */
  datatype Response = Redirect(url: string) | NotFound | ServerError | Rendered(errors: set<string>)

  /** The literal `success_url` of `RecipeCreateView` and `IngredientAddView` (no trailing slash). */
  const YOUR_RECIPES: string := "/your_recipes"

  /** `reverse_lazy("recipe:your_recipes")`: the route `your_recipes/` of the recipe app, mounted at the site root. */
  const YOUR_RECIPES_ROUTE: string := "/your_recipes/"

  // ---------------------------------------------------------------
  // IngredientAddView.get_success_url
  // ---------------------------------------------------------------

  /** `request.build_absolute_uri("/")[:-1]`: the absolute root without its last character. */
  function SiteRoot(absoluteRoot: string): (prefix: string)
    ensures absoluteRoot != [] ==> |prefix| == |absoluteRoot| - 1 && StartsWith(absoluteRoot, prefix)
  {
    if absoluteRoot == [] then [] else absoluteRoot[..|absoluteRoot| - 1]
  }

  /**
   * Where the add-ingredient view sends the user: back to the referring
   * page when there is one on this site, otherwise to "/your_recipes".
   * "On this site" is tested as written, by a plain prefix test against the
   * root without its trailing slash.
   */
  function SuccessUrl(referer: Option<string>, absoluteRoot: string): (url: string)
    ensures url == YOUR_RECIPES
      || (referer.Some? && url == referer.value && url != "" && StartsWith(url, SiteRoot(absoluteRoot)))
    ensures referer.Some? && referer.value != "" && StartsWith(referer.value, SiteRoot(absoluteRoot)) ==>
      url == referer.value
  {
    if referer.Some? && referer.value != "" && StartsWith(referer.value, SiteRoot(absoluteRoot)) then referer.value
    else YOUR_RECIPES
  }

  /**
   * The prefix test accepts a different host whose name merely extends the
   * site's: with root "http://example.com/" the referer
   * "http://example.com.evil.net/" is followed.
   */
  lemma SuccessUrlFollowsLookalikeHost()
    ensures SuccessUrl(Some("http://example.com.evil.net/"), "http://example.com/") == "http://example.com.evil.net/"
  {
    assert SiteRoot("http://example.com/") == "http://example.com";
    assert "http://example.com.evil.net/"[..|"http://example.com"|] == "http://example.com";
  }

  /** The referer is on the site: the root itself, with or without its slash, or a path under it. */
  predicate OnSite(url: string, absoluteRoot: string) {
    url == SiteRoot(absoluteRoot) || StartsWith(url, absoluteRoot)
  }

  /** The redirect choice the prefix test evidently intends: follow the referer only when it is on the site. */
  function SuccessUrlIntended(referer: Option<string>, absoluteRoot: string): (url: string)
    ensures url == YOUR_RECIPES || (referer.Some? && url == referer.value && OnSite(url, absoluteRoot))
    ensures referer.Some? && referer.value != "" && OnSite(referer.value, absoluteRoot) ==> url == referer.value
  {
    if referer.Some? && referer.value != "" && OnSite(referer.value, absoluteRoot) then referer.value
    else YOUR_RECIPES
  }

  /**
   * The intended rule follows a referer only where the written one does too,
   * and it refuses the lookalike host.
   */
  lemma SuccessUrlIntendedNarrows(referer: Option<string>, absoluteRoot: string)
    ensures SuccessUrlIntended(referer, absoluteRoot) != YOUR_RECIPES ==>
      SuccessUrl(referer, absoluteRoot) == SuccessUrlIntended(referer, absoluteRoot)
    ensures SuccessUrlIntended(Some("http://example.com.evil.net/"), "http://example.com/") == YOUR_RECIPES
  {
    var root := "http://example.com/";
    var lookalike := "http://example.com.evil.net/";
    assert lookalike[..|root|] != root by {
      assert lookalike[..|root|][|root| - 1] == '.';
    }
    if referer.Some? && OnSite(referer.value, absoluteRoot) && absoluteRoot != [] {
      assert StartsWith(referer.value, absoluteRoot) ==> referer.value[..|absoluteRoot| - 1] == SiteRoot(absoluteRoot);
    }
  }

  // ---------------------------------------------------------------
  // IngredientAddView.form_valid
  // ---------------------------------------------------------------

  /** `Recipe.objects.get(id=recipe_id)`: no recipe for an absent or unknown id. */
  function TargetRecipe(t: Tables, recipeId: Option<int>): (r: Option<Recipe>)
    ensures r.Some? ==> r.value in t.recipes && recipeId == Some(r.value.id)
    ensures r.None? <==> recipeId.None? || recipeId.value < 0 || recipeId.value !in Ids(t.recipes, RecipeKey)
  {
    if recipeId.None? || recipeId.value < 0 then None
    else Find(t.recipes, RecipeKey, recipeId.value)
  }

  function NamedExactly(name: string): Ingredient -> bool { (i: Ingredient) => i.name == name }

  /** `Ingredient.objects.filter(name=name)`: an exact, case-sensitive match. */
  function Named(ingredients: seq<Ingredient>, name: string): (found: seq<Ingredient>)
    ensures forall i :: i in found <==> i in ingredients && i.name == name
  {
    Filter(ingredients, NamedExactly(name))
  }

  /**
   * `Ingredient.objects.get(name=name)`, creating the ingredient when the
   * lookup finds none; `None` when several ingredients share the name (the
   * lookup raises, and nothing is written).
   */
  method GetOrCreateIngredient(db: Database, name: string) returns (ingredient: Option<Ingredient>)
    requires db.Valid()
    modifies db
    ensures db.Valid()
    ensures ingredient.None? <==> |Named(old(db.ingredients), name)| > 1
    ensures ingredient.None? ==> db.Snapshot() == old(db.Snapshot())
    ensures ingredient.Some? ==>
      ingredient.value.name == name
      && Find(db.ingredients, IngredientKey, ingredient.value.id) == ingredient
      && db.recipes == old(db.recipes) && db.recipeIngredients == old(db.recipeIngredients) && db.links == old(db.links)
    ensures |Named(old(db.ingredients), name)| == 1 ==> db.ingredients == old(db.ingredients)
    ensures |Named(old(db.ingredients), name)| == 0 ==>
      ingredient.Some? && db.ingredients == old(db.ingredients) + [ingredient.value]
  {
    var named := Named(db.ingredients, name);
    if |named| > 1 {
      return None;
    }
    var found: Ingredient;
    if |named| == 1 {
      found := named[0];
      assert found in named;
    } else {
      found := db.CreateIngredient(name);
    }
    FindUnique(db.ingredients, IngredientKey, found);
    ingredient := Some(found);
  }

  /**
   * Adds an ingredient to a recipe from a valid add-ingredient form: looks
   * the ingredient up by its exact name and creates it when there is none,
   * creates one new recipe ingredient with the form's values, and links it to
   * the recipe, so the recipe's link count grows by one. An unknown recipe,
   * or a name shared by several ingredients, raises before anything is
   * written.
   */
  method AddIngredient(db: Database, f: IngredientInput, referer: Option<string>, absoluteRoot: string)
    returns (resp: Response)
    requires db.Valid()
    requires IngredientFormErrors(f) == {}
    modifies db
    ensures db.Valid()
    ensures resp == ServerError <==>
      TargetRecipe(old(db.Snapshot()), f.recipeId).None? || |Named(old(db.ingredients), CleanChar(f.ingredient))| > 1
    ensures resp == ServerError ==> db.Snapshot() == old(db.Snapshot())
    ensures resp != ServerError ==>
      resp == Redirect(SuccessUrl(referer, absoluteRoot))
      && db.recipes == old(db.recipes)
      && (|Named(old(db.ingredients), CleanChar(f.ingredient))| == 1 ==> db.ingredients == old(db.ingredients))
      && (|Named(old(db.ingredients), CleanChar(f.ingredient))| == 0 ==>
            |db.ingredients| == |old(db.ingredients)| + 1
            && db.ingredients[..|old(db.ingredients)|] == old(db.ingredients)
            && db.ingredients[|old(db.ingredients)|].name == CleanChar(f.ingredient))
      && |db.recipeIngredients| == |old(db.recipeIngredients)| + 1
      && db.recipeIngredients[..|old(db.recipeIngredients)|] == old(db.recipeIngredients)
      && |db.links| == |old(db.links)| + 1
      && db.links[..|old(db.links)|] == old(db.links)
    ensures resp != ServerError ==>
      var ri := db.recipeIngredients[|old(db.recipeIngredients)|];
      var l := db.links[|old(db.links)|];
      var target := TargetRecipe(old(db.Snapshot()), f.recipeId).value.id;
      ri == RecordFrom(f, ri.id, ri.ingredient)
      && ri.id !in Ids(old(db.recipeIngredients), RecipeIngredientKey)
      && IngredientName(db.Snapshot(), ri) == Some(CleanChar(f.ingredient))
      && l.recipe == target && l.recipeIngredient == ri.id
      && LinkCount(db.Snapshot(), target) == LinkCount(old(db.Snapshot()), target) + 1
      && forall r :: r != target ==> LinkCount(db.Snapshot(), r) == LinkCount(old(db.Snapshot()), r)
  {
    var target := TargetRecipe(db.Snapshot(), f.recipeId);
    if target.None? {
      return ServerError;
    }
    var name := CleanChar(f.ingredient);
    var ingredient := GetOrCreateIngredient(db, name);
    if ingredient.None? {
      return ServerError;
    }
    FormValues(f);
    var ri := db.CreateRecipeIngredient(
      ingredient.value.id, f.calorieContent.value, f.amount.value, f.amountType.value,
      f.cost.value, CleanChar(f.supplier), f.grams.value);
    ghost var before := db.Snapshot();
    var l := db.CreateLink(target.value.id, ri.id);
    AddLinkCounts(before, l);
    assert db.recipeIngredients[|old(db.recipeIngredients)|] == ri;
    assert db.links[|old(db.links)|] == l;
    resp := Redirect(SuccessUrl(referer, absoluteRoot));
  }

  // ---------------------------------------------------------------
  // RecipeIngredientDeleteView.form_valid
  // ---------------------------------------------------------------

  /** The first of `ris` whose ingredient is called `name`, scanning in link order. */
  function FirstNamed(t: Tables, ris: seq<RecipeIngredient>, name: string): Option<RecipeIngredient>
    decreases |ris|
  {
    if ris == [] then None
    else if IngredientName(t, ris[0]) == Some(name) then Some(ris[0])
    else FirstNamed(t, ris[1..], name)
  }

  /**
   * The scan finds nothing exactly when no record has the name, and what it
   * finds is a record with the name that no earlier record shares.
   */
  lemma {:induction false} FirstNamedIsFirst(t: Tables, ris: seq<RecipeIngredient>, name: string)
    ensures FirstNamed(t, ris, name).None? <==> forall ri :: ri in ris ==> IngredientName(t, ri) != Some(name)
    ensures FirstNamed(t, ris, name).Some? ==>
      exists k :: 0 <= k < |ris| && ris[k] == FirstNamed(t, ris, name).value
        && IngredientName(t, ris[k]) == Some(name)
        && (forall j :: 0 <= j < k ==> IngredientName(t, ris[j]) != Some(name))
    decreases |ris|
  {
    if ris != [] && IngredientName(t, ris[0]) != Some(name) {
      var rest := ris[1..];
      FirstNamedIsFirst(t, rest, name);
      assert forall ri :: ri in ris <==> ri == ris[0] || ri in rest;
      var r := FirstNamed(t, rest, name);
      if r.Some? {
        var k :| 0 <= k < |rest| && rest[k] == r.value && IngredientName(t, rest[k]) == Some(name)
          && (forall j :: 0 <= j < k ==> IngredientName(t, rest[j]) != Some(name));
        assert ris[k + 1] == r.value;
        forall j | 0 <= j < k + 1 ensures IngredientName(t, ris[j]) != Some(name) {
          if j > 0 { assert ris[j] == rest[j - 1]; }
        }
      }
    } else if ris != [] {
      assert ris[0] in ris;
    }
  }

  /**
   * Deletes, from the recipe with primary key `pk`, the first linked record
   * whose ingredient is called `ingredientName`; deleting it cascades to
   * every link naming it. When no record matches the store is unchanged. The
   * view then always redirects to "/your_recipes/"; an unknown recipe is a
   * 404 before any of this runs.
   */
  method DeleteIngredient(db: Database, pk: nat, ingredientName: string) returns (resp: Response)
    requires db.Valid()
    modifies db
    ensures db.Valid()
    ensures pk !in Ids(old(db.recipes), RecipeKey) ==> resp == NotFound && db.Snapshot() == old(db.Snapshot())
    ensures pk in Ids(old(db.recipes), RecipeKey) ==>
      resp == Redirect(YOUR_RECIPES_ROUTE)
      && db.Snapshot() ==
        match FirstNamed(old(db.Snapshot()), LinkedRecipeIngredients(old(db.Snapshot()), pk), ingredientName)
        case None => old(db.Snapshot())
        case Some(ri) => WithoutRecipeIngredient(old(db.Snapshot()), ri.id)
  {
    if Find(db.recipes, RecipeKey, pk).None? {
      return NotFound;
    }
    var t := db.Snapshot();
    var ris := LinkedRecipeIngredients(t, pk);
    var found: Option<RecipeIngredient> := None;
    var i := 0;
    while i < |ris|
      invariant 0 <= i <= |ris|
      invariant found.None? ==> FirstNamed(t, ris, ingredientName) == FirstNamed(t, ris[i..], ingredientName)
      invariant found.Some? ==> found == FirstNamed(t, ris, ingredientName)
    {
      assert ris[i..][1..] == ris[i + 1..];
      if IngredientName(t, ris[i]) == Some(ingredientName) {
        found := Some(ris[i]);
        break;
      }
      i := i + 1;
    }
    if found.Some? {
      db.DeleteRecipeIngredient(found.value.id);
    }
    resp := Redirect(YOUR_RECIPES_ROUTE);
  }

  // ---------------------------------------------------------------
  // RecipeDeleteView
  // ---------------------------------------------------------------

  /** Deletes a recipe and, by cascade, its link rows; the recipe ingredients stay. */
  method DeleteRecipeView(db: Database, pk: nat) returns (resp: Response)
    requires db.Valid()
    modifies db
    ensures db.Valid()
    ensures pk !in Ids(old(db.recipes), RecipeKey) ==> resp == NotFound && db.Snapshot() == old(db.Snapshot())
    ensures pk in Ids(old(db.recipes), RecipeKey) ==>
      resp == Redirect(YOUR_RECIPES_ROUTE) && db.Snapshot() == WithoutRecipe(old(db.Snapshot()), pk)
  {
    if Find(db.recipes, RecipeKey, pk).None? {
      return NotFound;
    }
    db.DeleteRecipe(pk);
    resp := Redirect(YOUR_RECIPES_ROUTE);
  }

  // ---------------------------------------------------------------
  // RecipeCreateView and RecipeEditView
  // ---------------------------------------------------------------

  /** `validate_unique` on the title: another row, other than the one being edited, holds it. */
  predicate TitleTaken(rs: seq<Recipe>, title: string, editing: Option<nat>) {
    exists r :: r in rs && r.fields.title == title && (editing.None? || r.id != editing.value)
  }

  /**
   * On create, the uniqueness check is exactly what keeps titles unique: a
   * new row (with a fresh key) keeps them unique iff no row holds its title.
   */
  lemma TitleCheckOnCreate(rs: seq<Recipe>, r: Recipe)
    requires TitlesUnique(rs) && r !in rs
    ensures TitlesUnique(rs + [r]) <==> !TitleTaken(rs, r.fields.title, None)
  {
    if !TitleTaken(rs, r.fields.title, None) {
      forall a, b | a in rs + [r] && b in rs + [r] && a != b ensures a.fields.title != b.fields.title {
        assert a in rs || a == r;
        assert b in rs || b == r;
      }
    } else {
      var x :| x in rs && x.fields.title == r.fields.title;
      assert x in rs + [r] && r in rs + [r] && x != r;
    }
  }

  /**
   * On edit, the check skips the edited row itself: rewriting row `r.id`
   * keeps titles unique iff no other row holds the new title.
   */
  lemma TitleCheckOnEdit(rs: seq<Recipe>, r: Recipe)
    requires TitlesUnique(rs) && r.id in Ids(rs, RecipeKey)
    ensures TitlesUnique(ReplaceRecipe(rs, r)) <==> !TitleTaken(rs, r.fields.title, Some(r.id))
  {
    var after := ReplaceRecipe(rs, r);
    if !TitleTaken(rs, r.fields.title, Some(r.id)) {
      ReplaceRecipeTitles(rs, r);
    } else {
      var x :| x in rs && x.fields.title == r.fields.title && x.id != r.id;
      var i :| 0 <= i < |rs| && rs[i] == x;
      assert after[i] == x;
      var j :| 0 <= j < |rs| && rs[j].id == r.id;
      assert after[j] == r;
      assert x in after && r in after && x != r;
    }
  }

  /**
   * Everything the create (`editing` absent) or edit form reports; the
   * uniqueness check runs on the cleaned title.
   */
  function RecipeViewErrors(t: Tables, f: RecipeFields, base64: Option<string>, editing: Option<nat>): set<string> {
    RecipeFormErrors(f, base64, editing.None?)
    + (if TitleTaken(t.recipes, CleanFields(f).title, editing) then {"title"} else {})
  }

  /**
   * The title is in error exactly when, once stripped, it is empty, longer
   * than 255 characters, holds a NUL character, or is held by a stored
   * recipe other than the one being edited.
   */
  lemma TitleErrorIff(t: Tables, f: RecipeFields, base64: Option<string>, editing: Option<nat>)
    ensures "title" in RecipeViewErrors(t, f, base64, editing) <==>
      IsBlank(f.title) || |Strip(f.title)| > TITLE_MAX_LENGTH || NUL in f.title
      || TitleTaken(t.recipes, Strip(f.title), editing)
  {
    PostedTitleFormErrorIff(f, base64, editing.None?);
  }

  /**
   * Posting a stored title with a space on each side is refused as a
   * duplicate, since the check sees the stripped title.
   */
  lemma PaddedTitleIsTaken(t: Tables, f: RecipeFields, base64: Option<string>, editing: Option<nat>, other: Recipe)
    requires other in t.recipes && (editing.None? || other.id != editing.value)
    requires Strip(other.fields.title) == other.fields.title
    ensures "title" in RecipeViewErrors(t, f.(title := " " + other.fields.title + " "), base64, editing)
  {
    var g := f.(title := " " + other.fields.title + " ");
    StripPadded(other.fields.title);
    assert TitleTaken(t.recipes, CleanFields(g).title, editing);
  }

  /**
   * `RecipeCreateView`: a valid form inserts a recipe owned by the actor,
   * holding the cleaned columns, whose picture is the submitted picture
   * string; an invalid one re-renders the page with its errors and writes
   * nothing.
   */
  method CreateRecipeView(db: Database, actor: nat, f: RecipeFields, base64: Option<string>) returns (resp: Response)
    requires db.Valid()
    modifies db
    ensures db.Valid()
    ensures RecipeViewErrors(old(db.Snapshot()), f, base64, None) != {} ==>
      resp == Rendered(RecipeViewErrors(old(db.Snapshot()), f, base64, None)) && db.Snapshot() == old(db.Snapshot())
    ensures RecipeViewErrors(old(db.Snapshot()), f, base64, None) == {} ==>
      resp == Redirect(YOUR_RECIPES)
      && |db.recipes| == |old(db.recipes)| + 1
      && db.Snapshot() == old(db.Snapshot()).(recipes := old(db.recipes) + [db.recipes[|old(db.recipes)|]])
      && var r := db.recipes[|old(db.recipes)|];
         r.id !in Ids(old(db.recipes), RecipeKey) && r.user == actor && r.fields == CleanFields(f)
         && r.pic == CleanChar(base64) && r.pic != ""
         && RecipeModel.FieldErrors(r.fields) == {}
  {
    var errors := RecipeViewErrors(db.Snapshot(), f, base64, None);
    if errors != {} {
      return Rendered(errors);
    }
    var r := db.CreateRecipe(actor, CleanFields(f), ChoosePicture(DEFAULT_PIC, base64));
    resp := Redirect(YOUR_RECIPES);
  }

  /**
   * `RecipeEditView`: a valid form rewrites the recipe's columns with the
   * cleaned ones, hands the recipe to the editing user, and replaces the
   * picture only when a non-empty picture string was submitted. An unknown recipe is a 404; an
   * invalid form re-renders with its errors and writes nothing. An absent `yield_amount`
   * key is read as a blank one.
   */
  method EditRecipeView(db: Database, actor: nat, pk: nat, f: RecipeFields, base64: Option<string>)
    returns (resp: Response)
    requires db.Valid()
    modifies db
    ensures db.Valid()
    ensures pk !in Ids(old(db.recipes), RecipeKey) ==> resp == NotFound && db.Snapshot() == old(db.Snapshot())
    ensures pk in Ids(old(db.recipes), RecipeKey) && RecipeViewErrors(old(db.Snapshot()), f, base64, Some(pk)) != {} ==>
      resp == Rendered(RecipeViewErrors(old(db.Snapshot()), f, base64, Some(pk))) && db.Snapshot() == old(db.Snapshot())
    ensures pk in Ids(old(db.recipes), RecipeKey) && RecipeViewErrors(old(db.Snapshot()), f, base64, Some(pk)) == {} ==>
      resp == Redirect(YOUR_RECIPES_ROUTE)
      && db.Snapshot() == old(db.Snapshot()).(recipes := ReplaceRecipe(old(db.recipes),
           Recipe(pk, actor, CleanFields(f), ChoosePicture(Find(old(db.recipes), RecipeKey, pk).value.pic, base64))))
  {
    var existing := Find(db.recipes, RecipeKey, pk);
    if existing.None? {
      return NotFound;
    }
    var errors := RecipeViewErrors(db.Snapshot(), f, base64, Some(pk));
    if errors != {} {
      return Rendered(errors);
    }
    db.UpdateRecipe(Recipe(pk, actor, CleanFields(f), ChoosePicture(existing.value.pic, base64)));
    resp := Redirect(YOUR_RECIPES_ROUTE);
  }
}
