/**
 * recipe/views.py, the read-only listings: `RecipeSearchView.get_queryset`
 * and the title-to-URL map its `form_valid` builds, and the owner listing of
 * `YourRecipesView`.
 *
 * A search in mode "#1" (the actor's own recipes) or "#2" (all recipes)
 * first looks for recipes whose title contains the query, ignoring case; only
 * when there is none does it fall back to recipes linked to an ingredient
 * whose name contains the query. Mode "#3", and any other mode, lists every
 * recipe.
 */
module RecipeSearch {
  import opened Common
  import opened Text
  import opened RecipeModel
  import opened RecipeIngredientModel
  import opened Intermediary

  function OwnedBy(user: nat): Recipe -> bool { (r: Recipe) => r.user == user }
  function TitleContains(query: string): Recipe -> bool { (r: Recipe) => IContains(r.fields.title, query) }

  /** `recipe_ingredients__ingredient__name__icontains=query` for one linked record. */
  function NameContains(t: Tables, query: string): RecipeIngredient -> bool {
    (ri: RecipeIngredient) => IngredientName(t, ri).Some? && IContains(IngredientName(t, ri).value, query)
  }

  /** `YourRecipesView.get_queryset`: the user's recipes, by id. */
  function OwnedRecipes(t: Tables, user: nat): (rs: seq<Recipe>)
    ensures forall r :: r in rs <==> r in t.recipes && r.user == user
  {
    Filter(t.recipes, OwnedBy(user))
  }

  /** The owner listing comes out in primary-key order, as `order_by("id")` asks. */
  lemma OwnedRecipesById(t: Tables, user: nat)
    requires WellFormed(t)
    ensures Increasing(OwnedRecipes(t, user), RecipeKey)
  {
    FilterIncreasing(t.recipes, OwnedBy(user), RecipeKey);
  }

  /**
   * How many rows the ingredient-name join yields for one recipe: one per
   * link whose record's ingredient name contains the query.
   */
  function MatchingLinkCount(t: Tables, recipeId: nat, query: string): nat {
    |Filter(LinkedRecipeIngredients(t, recipeId), NameContains(t, query))|
  }

  /** A recipe appears in the join exactly when one of its linked records names a matching ingredient. */
  lemma MatchingLinkCountPositive(t: Tables, recipeId: nat, query: string)
    ensures MatchingLinkCount(t, recipeId, query) > 0 <==>
      exists ri :: ri in LinkedRecipeIngredients(t, recipeId) && NameContains(t, query)(ri)
  {
    FilterEmpty(LinkedRecipeIngredients(t, recipeId), NameContains(t, query));
  }

  /**
   * The fallback query over `scope`: the join repeats a recipe once per
   * matching link, recipes in table order.
   */
  function IngredientMatches(t: Tables, scope: seq<Recipe>, query: string): (rs: seq<Recipe>)
    ensures forall r :: r in rs <==> r in scope && MatchingLinkCount(t, r.id, query) > 0
    decreases |scope|
  {
    if scope == [] then []
    else
      var n := MatchingLinkCount(t, scope[0].id, query);
      var copies := seq(n, _ => scope[0]);
      assert forall r :: r in copies <==> n > 0 && r == scope[0] by {
        if n > 0 { assert copies[0] == scope[0]; }
      }
      assert forall r :: r in scope <==> r == scope[0] || r in scope[1..];
      copies + IngredientMatches(t, scope[1..], query)
  }

  /** The search in mode "#1" or "#2" once the scope is fixed. */
  function ScopedSearch(t: Tables, scope: seq<Recipe>, query: string): (rs: seq<Recipe>)
    ensures forall r :: r in rs ==> r in scope
  {
    if Strip(query) == [] then []
    else
      var byTitle := Filter(scope, TitleContains(query));
      if byTitle != [] then byTitle else IngredientMatches(t, scope, query)
  }

  /** The recipes a mode searches: the actor's own for "#1", all for the others. */
  function Scope(t: Tables, actor: Option<nat>, mode: string): (scope: seq<Recipe>)
    ensures forall r :: r in scope ==> r in t.recipes
    ensures forall r :: r in scope <==> r in t.recipes && (mode == "#1" ==> actor.Some? && r.user == actor.value)
    ensures mode != "#1" ==> scope == t.recipes
  {
    if mode == "#1" then (if actor.None? then [] else OwnedRecipes(t, actor.value)) else t.recipes
  }

  /** `RecipeSearchView.get_queryset` for an actor (`None` when anonymous), a mode and a cleaned query. */
  function Search(t: Tables, actor: Option<nat>, mode: string, query: string): (rs: seq<Recipe>)
    ensures forall r :: r in rs ==> r in t.recipes
    ensures mode == "#1" ==> actor.Some? || rs == []
    ensures mode == "#1" ==> forall r :: r in rs ==> r.user == actor.value
    ensures (mode == "#1" || mode == "#2") && IsBlank(query) ==> rs == []
    ensures mode != "#1" && mode != "#2" ==> rs == t.recipes
  {
    StripEmptyIffBlank(query);
    if mode == "#1" && actor.None? then []
    else if mode == "#1" then ScopedSearch(t, Scope(t, actor, mode), query)
    else if mode == "#2" then ScopedSearch(t, Scope(t, actor, mode), query)
    else t.recipes
  }

  /** An anonymous search of one's own recipes finds nothing, whatever the query. */
  lemma AnonymousOwnSearchEmpty(t: Tables, query: string)
    ensures Search(t, None, "#1", query) == []
  {
  }

  /** "Show All Recipes" lists every recipe, even for a blank query. */
  lemma ShowAllListsEverything(t: Tables, actor: Option<nat>, query: string)
    ensures Search(t, actor, "#3", query) == t.recipes
  {
  }

  /**
   * What modes "#1" and "#2" find for a non-blank query: if some recipe in
   * scope has a title containing the query, exactly those recipes, in table
   * order; otherwise exactly the recipes in scope with a linked ingredient
   * whose name contains it.
   */
  lemma SearchFinds(t: Tables, actor: Option<nat>, mode: string, query: string)
    requires mode == "#1" || mode == "#2"
    requires mode == "#1" ==> actor.Some?
    requires !IsBlank(query)
    ensures (exists r :: r in Scope(t, actor, mode) && IContains(r.fields.title, query)) ==>
      Search(t, actor, mode, query) == Filter(Scope(t, actor, mode), TitleContains(query))
    ensures forall r :: r in Search(t, actor, mode, query) <==>
      r in Scope(t, actor, mode)
      && if exists y :: y in Scope(t, actor, mode) && IContains(y.fields.title, query)
         then IContains(r.fields.title, query)
         else exists ri :: ri in LinkedRecipeIngredients(t, r.id) && NameContains(t, query)(ri)
  {
    StripEmptyIffBlank(query);
    var scope := Scope(t, actor, mode);
    var byTitle := Filter(scope, TitleContains(query));
    FilterEmpty(scope, TitleContains(query));
    forall r | r in scope {
      MatchingLinkCountPositive(t, r.id, query);
    }
  }

  // ---------------------------------------------------------------
  // The title-to-URL map of the search results page
  // ---------------------------------------------------------------

  function Titles(rs: seq<Recipe>): set<string> {
    set r | r in rs :: r.fields.title
  }

  /**
   * `{recipe.title: recipe.get_absolute_url() for recipe in queryset}`:
   * later rows overwrite earlier ones with the same title.
   */
  function UrlMap(rs: seq<Recipe>): (m: map<string, string>)
    ensures m.Keys == Titles(rs)
    decreases |rs|
  {
    if rs == [] then map[]
    else
      var last := rs[|rs| - 1];
      var m := UrlMap(rs[..|rs| - 1]);
      assert forall r :: r in rs <==> r in rs[..|rs| - 1] || r == last;
      m[last.fields.title := AbsoluteUrl(last.id)]
  }

  /** With unique titles the map loses nothing: every result's title leads to its own detail page. */
  lemma {:induction false} UrlMapOfUniqueTitles(rs: seq<Recipe>)
    requires TitlesUnique(rs)
    ensures forall r :: r in rs ==> UrlMap(rs)[r.fields.title] == AbsoluteUrl(r.id)
    decreases |rs|
  {
    if rs != [] {
      var init := rs[..|rs| - 1];
      var last := rs[|rs| - 1];
      assert rs == init + [last];
      assert TitlesUnique(init) by {
        forall a, b | a in init && b in init && a != b
          ensures a.fields.title != b.fields.title
        {
          assert a in rs && b in rs;
        }
      }
      UrlMapOfUniqueTitles(init);
      var m := UrlMap(init);
      assert UrlMap(rs) == m[last.fields.title := AbsoluteUrl(last.id)];
      forall r | r in rs
        ensures UrlMap(rs)[r.fields.title] == AbsoluteUrl(r.id)
      {
        if r != last {
          assert r in init;
          assert r.fields.title != last.fields.title;
        }
      }
    }
  }

  /**
   * On a well-formed store, the URL map of any search result sends each
   * found recipe's title to that recipe's detail page, from which its
   * primary key reads back.
   */
  lemma SearchUrlsLeadToResults(t: Tables, actor: Option<nat>, mode: string, query: string)
    requires WellFormed(t)
    ensures forall r :: r in Search(t, actor, mode, query) ==>
      UrlMap(Search(t, actor, mode, query))[r.fields.title] == AbsoluteUrl(r.id)
      && ParseNat(UrlMap(Search(t, actor, mode, query))[r.fields.title][|"/detail/"|..]) == Some(r.id)
  {
    var rs := Search(t, actor, mode, query);
    assert TitlesUnique(rs);
    UrlMapOfUniqueTitles(rs);
  }
}
