/**
 * recipeingredientintermediary/models.py and the tables it joins.
 *
 * The object-relational store is four tables kept in primary-key order:
 * recipes, ingredients, recipe ingredients and the intermediary links. A
 * link names one recipe and one recipe ingredient; both foreign keys
 * cascade, so deleting either end deletes the link rows that point at it.
 * The pair is not unique: the same recipe may link the same record twice,
 * and `recipe.recipe_ingredients.all()` then yields it twice.
 */
module Intermediary {
  import opened Common
  import opened Text
  import opened RecipeModel
  import opened RecipeIngredientModel

  /** One RecipeIngredientIntermediary row. */
  datatype Link = Link(id: nat, recipe: nat, recipeIngredient: nat)

  /** The rows of the four tables, each in primary-key order. */
  datatype Tables = Tables(
    recipes: seq<Recipe>,
    ingredients: seq<Ingredient>,
    recipeIngredients: seq<RecipeIngredient>,
    links: seq<Link>)

  function RecipeKey(r: Recipe): nat { r.id }
  function IngredientKey(i: Ingredient): nat { i.id }
  function RecipeIngredientKey(ri: RecipeIngredient): nat { ri.id }
  function LinkKey(l: Link): nat { l.id }

  // ---------------------------------------------------------------
  // Sequences of rows
  // ---------------------------------------------------------------

  /** The rows of `s` that `keep` selects, in their original order (a WHERE clause). */
  function Filter<T(==,!new)>(s: seq<T>, keep: T -> bool): (r: seq<T>)
    ensures |r| <= |s|
    ensures forall x :: x in r <==> x in s && keep(x)
    decreases |s|
  {
    if s == [] then []
    else (if keep(s[0]) then [s[0]] else []) + Filter(s[1..], keep)
  }

  /** Nothing is dropped exactly when every row is selected. */
  lemma {:induction false} FilterKeepsAll<T(!new)>(s: seq<T>, keep: T -> bool)
    ensures |Filter(s, keep)| == |s| <==> forall x :: x in s ==> keep(x)
    decreases |s|
  {
    if s != [] {
      FilterKeepsAll(s[1..], keep);
      assert forall x :: x in s[1..] ==> x in s;
      assert forall x :: x in s ==> x == s[0] || x in s[1..];
    }
  }

  /** Nothing is selected exactly when no row satisfies the condition. */
  lemma FilterEmpty<T(!new)>(s: seq<T>, keep: T -> bool)
    ensures Filter(s, keep) == [] <==> forall x :: x in s ==> !keep(x)
  {
    var r := Filter(s, keep);
    if r != [] {
      assert r[0] in r;
    }
  }

  lemma {:induction false} FilterAppend<T(!new)>(a: seq<T>, b: seq<T>, keep: T -> bool)
    ensures Filter(a + b, keep) == Filter(a, keep) + Filter(b, keep)
    decreases |a|
  {
    if a == [] {
      assert a + b == b;
    } else {
      assert (a + b)[1..] == a[1..] + b;
      FilterAppend(a[1..], b, keep);
    }
  }

  lemma {:induction false} FilterCommute<T(!new)>(s: seq<T>, p: T -> bool, q: T -> bool)
    ensures Filter(Filter(s, p), q) == Filter(Filter(s, q), p)
    decreases |s|
  {
    if s != [] {
      FilterCommute(s[1..], p, q);
      var hp := if p(s[0]) then [s[0]] else [];
      var hq := if q(s[0]) then [s[0]] else [];
      FilterAppend(hp, Filter(s[1..], p), q);
      FilterAppend(hq, Filter(s[1..], q), p);
    }
  }

  /** Keys strictly increase along `s`: the table is in primary-key order and keys are unique. */
  ghost predicate Increasing<T(!new)>(s: seq<T>, key: T -> nat) {
    forall i, j :: 0 <= i < j < |s| ==> key(s[i]) < key(s[j])
  }

  /** Every key in `s` is below `bound` (the next value of the AutoField). */
  ghost predicate Below<T(!new)>(s: seq<T>, key: T -> nat, bound: nat) {
    forall x :: x in s ==> key(x) < bound
  }

  lemma FilterBelow<T(!new)>(s: seq<T>, keep: T -> bool, key: T -> nat, bound: nat)
    requires Below(s, key, bound)
    ensures Below(Filter(s, keep), key, bound)
  {
  }

  function Ids<T(==,!new)>(s: seq<T>, key: T -> nat): set<nat> {
    set x | x in s :: key(x)
  }

  /** A table stays in key order when a row with a smaller key is put in front. */
  lemma ConsIncreasing<T(!new)>(h: T, rest: seq<T>, key: T -> nat)
    requires Increasing(rest, key)
    requires forall x :: x in rest ==> key(h) < key(x)
    ensures Increasing([h] + rest, key)
  {
    var t := [h] + rest;
    forall i, j | 0 <= i < j < |t| ensures key(t[i]) < key(t[j]) {
      assert t[j] == rest[j - 1];
      if i == 0 {
        assert t[j] in rest;
      } else {
        assert t[i] == rest[i - 1];
      }
    }
  }

  /** The rows after the first of an ordered table are ordered, and all have larger keys. */
  lemma TailIncreasing<T(!new)>(s: seq<T>, key: T -> nat)
    requires Increasing(s, key) && s != []
    ensures Increasing(s[1..], key)
    ensures forall x :: x in s[1..] ==> key(s[0]) < key(x)
  {
    var tail := s[1..];
    forall i, j | 0 <= i < j < |tail| ensures key(tail[i]) < key(tail[j]) {
      assert tail[i] == s[i + 1] && tail[j] == s[j + 1];
    }
    forall x | x in tail ensures key(s[0]) < key(x) {
      var j :| 0 <= j < |tail| && tail[j] == x;
      assert s[j + 1] == x;
    }
  }

  /** A WHERE clause keeps a table in key order. */
  lemma {:induction false} FilterIncreasing<T(!new)>(s: seq<T>, keep: T -> bool, key: T -> nat)
    requires Increasing(s, key)
    ensures Increasing(Filter(s, keep), key)
    decreases |s|
  {
    if s != [] {
      TailIncreasing(s, key);
      FilterIncreasing(s[1..], keep, key);
      var rest := Filter(s[1..], keep);
      if keep(s[0]) {
        assert Filter(s, keep) == [s[0]] + rest;
        ConsIncreasing(s[0], rest, key);
      } else {
        assert Filter(s, keep) == [] + rest == rest;
      }
    }
  }

  lemma AppendIncreasing<T(!new)>(s: seq<T>, x: T, key: T -> nat)
    requires Increasing(s, key) && Below(s, key, key(x))
    ensures Increasing(s + [x], key)
    ensures Ids(s + [x], key) == Ids(s, key) + {key(x)}
  {
    var t := s + [x];
    forall i, j | 0 <= i < j < |t| ensures key(t[i]) < key(t[j]) {
      if j == |s| {
        assert t[i] == s[i] && s[i] in s;
      } else {
        assert t[i] == s[i] && t[j] == s[j];
      }
    }
  }

  /** The row of `s` with key `id`, if any (`objects.get(pk=id)`). */
  function Find<T(==,!new)>(s: seq<T>, key: T -> nat, id: nat): (r: Option<T>)
    ensures r.Some? ==> r.value in s && key(r.value) == id
    ensures r.None? <==> id !in Ids(s, key)
    decreases |s|
  {
    if s == [] then None
    else if key(s[0]) == id then Some(s[0])
    else Find(s[1..], key, id)
  }

  /** In a table with unique keys, looking a row up by its own key finds that row. */
  lemma FindUnique<T(!new)>(s: seq<T>, key: T -> nat, x: T)
    requires Increasing(s, key) && x in s
    ensures Find(s, key, key(x)) == Some(x)
  {
    var y := Find(s, key, key(x)).value;
    var i :| 0 <= i < |s| && s[i] == x;
    var j :| 0 <= j < |s| && s[j] == y;
    assert i == j;
  }

  // ---------------------------------------------------------------
  // Selections used by the queries and the cascades
  // ---------------------------------------------------------------

  function LinkOf(recipeId: nat): Link -> bool { (l: Link) => l.recipe == recipeId }
  function LinkNotOf(recipeId: nat): Link -> bool { (l: Link) => l.recipe != recipeId }
  function LinkNotTo(riId: nat): Link -> bool { (l: Link) => l.recipeIngredient != riId }
  function RecipeOtherThan(id: nat): Recipe -> bool { (r: Recipe) => r.id != id }
  function RecordOtherThan(id: nat): RecipeIngredient -> bool { (ri: RecipeIngredient) => ri.id != id }

  // ---------------------------------------------------------------
  // Integrity of the store
  // ---------------------------------------------------------------

  /** No two recipe rows share a title (`unique=True`). */
  predicate TitlesUnique(rs: seq<Recipe>) {
    forall a, b :: a in rs && b in rs && a != b ==> a.fields.title != b.fields.title
  }

  /**
   * What the database guarantees: every table is in primary-key order with
   * unique keys, titles are unique, every recipe ingredient names an existing
   * ingredient, and every link names an existing recipe and an existing
   * recipe ingredient.
   */
  ghost predicate WellFormed(t: Tables) {
    Increasing(t.recipes, RecipeKey)
    && Increasing(t.ingredients, IngredientKey)
    && Increasing(t.recipeIngredients, RecipeIngredientKey)
    && Increasing(t.links, LinkKey)
    && TitlesUnique(t.recipes)
    && (forall ri :: ri in t.recipeIngredients ==> ri.ingredient in Ids(t.ingredients, IngredientKey))
    && (forall l :: l in t.links ==>
          l.recipe in Ids(t.recipes, RecipeKey)
          && l.recipeIngredient in Ids(t.recipeIngredients, RecipeIngredientKey))
  }

  /** `Recipe.__str__` is the title and titles are unique, so a stored recipe's string names it. */
  lemma RecipeStrIdentifies(t: Tables, a: Recipe, b: Recipe)
    requires WellFormed(t) && a in t.recipes && b in t.recipes
    ensures RecipeModel.Str(a) == RecipeModel.Str(b) <==> a == b
  {
  }

  // ---------------------------------------------------------------
  // Queries
  // ---------------------------------------------------------------

  /** The link rows of one recipe, in link order. */
  function LinksOf(t: Tables, recipeId: nat): seq<Link> {
    Filter(t.links, LinkOf(recipeId))
  }

  /** How many link rows the recipe has; duplicates of one pair count separately. */
  function LinkCount(t: Tables, recipeId: nat): nat {
    |LinksOf(t, recipeId)|
  }

  /** The recipe ingredients the links point at, in link order (an inner join). */
  function Resolve(ris: seq<RecipeIngredient>, ls: seq<Link>): (r: seq<RecipeIngredient>)
    ensures forall x :: x in r ==> x in ris
    ensures (forall l :: l in ls ==> l.recipeIngredient in Ids(ris, RecipeIngredientKey)) ==>
      |r| == |ls| && forall k :: 0 <= k < |ls| ==> r[k].id == ls[k].recipeIngredient
    decreases |ls|
  {
    if ls == [] then []
    else
      (match Find(ris, RecipeIngredientKey, ls[0].recipeIngredient)
       case Some(ri) => [ri]
       case None => [])
      + Resolve(ris, ls[1..])
  }

  /** `recipe.recipe_ingredients.all()`: one record per link row of the recipe, in link order. */
  function LinkedRecipeIngredients(t: Tables, recipeId: nat): (ris: seq<RecipeIngredient>)
    ensures forall x :: x in ris ==> x in t.recipeIngredients
    ensures WellFormed(t) ==> |ris| == LinkCount(t, recipeId)
    ensures WellFormed(t) ==>
      forall k :: 0 <= k < |ris| && k < LinkCount(t, recipeId) ==> ris[k].id == LinksOf(t, recipeId)[k].recipeIngredient
  {
    Resolve(t.recipeIngredients, LinksOf(t, recipeId))
  }

  /** The name of the ingredient a record uses (`ri.ingredient.name`). */
  function IngredientName(t: Tables, ri: RecipeIngredient): (name: Option<string>)
    ensures WellFormed(t) && ri in t.recipeIngredients ==> name.Some?
    ensures name.None? <==> ri.ingredient !in Ids(t.ingredients, IngredientKey)
    ensures name.Some? ==> exists i :: i in t.ingredients && i.id == ri.ingredient && i.name == name.value
    ensures Increasing(t.ingredients, IngredientKey) ==>
      forall i :: i in t.ingredients && i.id == ri.ingredient ==> name == Some(i.name)
  {
    match Find(t.ingredients, IngredientKey, ri.ingredient)
    case Some(ing) => Some(ing.name)
    case None => None
  }

  /**
   * `full_clean()` of a recipe ingredient against the store: the checks of
   * its own fields, and `ForeignKey.validate` on `ingredient`, which fails
   * when no stored ingredient has the key.
   */
  function FullCleanErrors(t: Tables, ri: RecipeIngredient): set<string> {
    RecipeIngredientModel.FieldErrors(ri)
    + (if ri.ingredient in Ids(t.ingredients, IngredientKey) then {} else {"ingredient"})
  }

  /**
   * A record passes `full_clean()` exactly when its fields pass and its
   * ingredient exists; the foreign key alone decides the `ingredient`
   * error, and every record of a well-formed store has it right.
   */
  lemma FullCleanIff(t: Tables, ri: RecipeIngredient)
    ensures FullCleanErrors(t, ri) == {} <==>
      RecipeIngredientModel.FieldErrors(ri) == {} && ri.ingredient in Ids(t.ingredients, IngredientKey)
    ensures "ingredient" in FullCleanErrors(t, ri) <==> ri.ingredient !in Ids(t.ingredients, IngredientKey)
    ensures WellFormed(t) && ri in t.recipeIngredients ==> "ingredient" !in FullCleanErrors(t, ri)
  {
    var own := RecipeIngredientModel.FieldErrors(ri);
    assert "ingredient" !in own;
    if FullCleanErrors(t, ri) == {} {
      assert own <= FullCleanErrors(t, ri);
    }
  }

  /** `__str__` of a link: "{recipe title} - {ingredient name}", once both ends are resolved. */
  function LinkLabel(t: Tables, l: Link): (caption: Option<string>)
    ensures WellFormed(t) && l in t.links ==> caption.Some?
    ensures caption.Some? ==> exists r :: r in t.recipes && r.id == l.recipe && StartsWith(caption.value, r.fields.title + " - ")
    ensures caption.Some? ==>
      exists r, ri :: (r in t.recipes && r.id == l.recipe
        && ri in t.recipeIngredients && ri.id == l.recipeIngredient && IngredientName(t, ri).Some?
        && caption.value == r.fields.title + " - " + IngredientName(t, ri).value)
  {
    match Find(t.recipes, RecipeKey, l.recipe)
    case None => None
    case Some(r) =>
      match Find(t.recipeIngredients, RecipeIngredientKey, l.recipeIngredient)
      case None => None
      case Some(ri) =>
        match IngredientName(t, ri)
        case None => None
        case Some(name) =>
          var text := r.fields.title + " - " + name;
          assert text[..|r.fields.title + " - "|] == r.fields.title + " - ";
          Some(text)
  }

  /**
   * `Recipe.calculate_difficulty()`. Counting the linked records of an unsaved
   * recipe raises, and so does comparing a missing cooking time with 10; the
   * handler turns both into the sentinel. Otherwise the decision table is
   * applied to the number of link rows.
   */
  function CalculateDifficulty(t: Tables, pk: Option<nat>, cookingTime: Option<int>): (d: Option<string>)
    ensures d == Some(MISSING_DATA) <==> pk.None? || cookingTime.None?
    ensures WellFormed(t) && pk.Some? && cookingTime.Some? ==>
      d == Classify(cookingTime.value, LinkCount(t, pk.value))
  {
    if pk.None? then Some(MISSING_DATA)
    else if cookingTime.None? then Some(MISSING_DATA)
    else Classify(cookingTime.value, |LinkedRecipeIngredients(t, pk.value)|)
  }

  // ---------------------------------------------------------------
  // Inserts and cascading deletes
  // ---------------------------------------------------------------

  function WithLink(t: Tables, l: Link): Tables {
    t.(links := t.links + [l])
  }

  /**
   * A new link row adds exactly one to its recipe's count, even when the
   * same (recipe, record) pair is already linked, and leaves every other
   * recipe's count alone.
   */
  lemma AddLinkCounts(t: Tables, l: Link)
    ensures LinkCount(WithLink(t, l), l.recipe) == LinkCount(t, l.recipe) + 1
    ensures forall r :: r != l.recipe ==> LinkCount(WithLink(t, l), r) == LinkCount(t, r)
  {
    forall r ensures LinksOf(WithLink(t, l), r) == LinksOf(t, r) + Filter([l], LinkOf(r)) {
      FilterAppend(t.links, [l], LinkOf(r));
    }
  }

  /** Deleting a recipe: its row and every link row naming it. */
  function WithoutRecipe(t: Tables, id: nat): Tables {
    t.(recipes := Filter(t.recipes, RecipeOtherThan(id)), links := Filter(t.links, LinkNotOf(id)))
  }

  lemma WithoutRecipeWellFormed(t: Tables, id: nat)
    requires WellFormed(t)
    ensures WellFormed(WithoutRecipe(t, id))
  {
    var u := WithoutRecipe(t, id);
    FilterIncreasing(t.recipes, RecipeOtherThan(id), RecipeKey);
    FilterIncreasing(t.links, LinkNotOf(id), LinkKey);
    forall l | l in u.links ensures l.recipe in Ids(u.recipes, RecipeKey) {
      var r :| r in t.recipes && r.id == l.recipe;
      assert r in u.recipes;
    }
  }

  lemma WithoutRecipeOtherCounts(t: Tables, id: nat, r: nat)
    requires r != id
    ensures LinkCount(WithoutRecipe(t, id), r) == LinkCount(t, r)
  {
    FilterCommute(t.links, LinkNotOf(id), LinkOf(r));
    FilterKeepsAll(Filter(t.links, LinkOf(r)), LinkNotOf(id));
  }

  /**
   * The recipe cascade removes exactly the recipe's links, leaves every
   * recipe ingredient and ingredient in place, keeps the store well formed
   * and changes no other recipe's link count.
   */
  lemma DeleteRecipeCascade(t: Tables, id: nat)
    requires WellFormed(t)
    ensures WellFormed(WithoutRecipe(t, id))
    ensures id !in Ids(WithoutRecipe(t, id).recipes, RecipeKey)
    ensures forall r :: r in WithoutRecipe(t, id).recipes <==> r in t.recipes && r.id != id
    ensures forall l :: l in WithoutRecipe(t, id).links <==> l in t.links && l.recipe != id
    ensures WithoutRecipe(t, id).recipeIngredients == t.recipeIngredients
    ensures WithoutRecipe(t, id).ingredients == t.ingredients
    ensures LinkCount(WithoutRecipe(t, id), id) == 0
    ensures forall r :: r != id ==> LinkCount(WithoutRecipe(t, id), r) == LinkCount(t, r)
  {
    WithoutRecipeWellFormed(t, id);
    forall r | r != id ensures LinkCount(WithoutRecipe(t, id), r) == LinkCount(t, r) {
      WithoutRecipeOtherCounts(t, id, r);
    }
    FilterEmpty(Filter(t.links, LinkNotOf(id)), LinkOf(id));
  }

  /** Deleting a recipe ingredient: its row and every link row naming it, from any recipe. */
  function WithoutRecipeIngredient(t: Tables, id: nat): Tables {
    t.(recipeIngredients := Filter(t.recipeIngredients, RecordOtherThan(id)),
       links := Filter(t.links, LinkNotTo(id)))
  }

  lemma WithoutRecipeIngredientWellFormed(t: Tables, id: nat)
    requires WellFormed(t)
    ensures WellFormed(WithoutRecipeIngredient(t, id))
  {
    var u := WithoutRecipeIngredient(t, id);
    FilterIncreasing(t.recipeIngredients, RecordOtherThan(id), RecipeIngredientKey);
    FilterIncreasing(t.links, LinkNotTo(id), LinkKey);
    forall l | l in u.links ensures l.recipeIngredient in Ids(u.recipeIngredients, RecipeIngredientKey) {
      var ri :| ri in t.recipeIngredients && ri.id == l.recipeIngredient;
      assert ri in u.recipeIngredients;
    }
  }

  lemma WithoutRecipeIngredientCounts(t: Tables, id: nat, r: nat)
    ensures LinkCount(WithoutRecipeIngredient(t, id), r) <= LinkCount(t, r)
    ensures (exists l :: l in LinksOf(t, r) && l.recipeIngredient == id) ==>
      LinkCount(WithoutRecipeIngredient(t, id), r) < LinkCount(t, r)
  {
    FilterCommute(t.links, LinkNotTo(id), LinkOf(r));
    FilterKeepsAll(LinksOf(t, r), LinkNotTo(id));
  }

  /**
   * The recipe-ingredient cascade removes every link to the record,
   * including links from other recipes that share it, keeps all other links,
   * recipes and ingredients, keeps the store well formed, and lowers the
   * count of every recipe that linked the record.
   */
  lemma DeleteRecipeIngredientCascade(t: Tables, id: nat)
    requires WellFormed(t)
    ensures WellFormed(WithoutRecipeIngredient(t, id))
    ensures id !in Ids(WithoutRecipeIngredient(t, id).recipeIngredients, RecipeIngredientKey)
    ensures forall ri :: ri in WithoutRecipeIngredient(t, id).recipeIngredients <==> ri in t.recipeIngredients && ri.id != id
    ensures forall l :: l in WithoutRecipeIngredient(t, id).links <==> l in t.links && l.recipeIngredient != id
    ensures WithoutRecipeIngredient(t, id).recipes == t.recipes
    ensures WithoutRecipeIngredient(t, id).ingredients == t.ingredients
    ensures forall r :: LinkCount(WithoutRecipeIngredient(t, id), r) <= LinkCount(t, r)
    ensures forall r :: (exists l :: l in LinksOf(t, r) && l.recipeIngredient == id) ==>
      LinkCount(WithoutRecipeIngredient(t, id), r) < LinkCount(t, r)
  {
    WithoutRecipeIngredientWellFormed(t, id);
    forall r ensures LinkCount(WithoutRecipeIngredient(t, id), r) <= LinkCount(t, r)
      && ((exists l :: l in LinksOf(t, r) && l.recipeIngredient == id) ==>
          LinkCount(WithoutRecipeIngredient(t, id), r) < LinkCount(t, r))
    {
      WithoutRecipeIngredientCounts(t, id, r);
    }
  }

  // ---------------------------------------------------------------
  // The store as the views change it
  // ---------------------------------------------------------------

  /** Replacing the row with `r`'s primary key by `r` (an UPDATE). */
  function ReplaceRecipe(rs: seq<Recipe>, r: Recipe): (out: seq<Recipe>)
    ensures |out| == |rs|
    ensures forall i :: 0 <= i < |rs| ==> out[i] == if rs[i].id == r.id then r else rs[i]
  {
    seq(|rs|, i requires 0 <= i < |rs| => if rs[i].id == r.id then r else rs[i])
  }

  /** An UPDATE leaves every row's key where it was. */
  lemma ReplaceRecipeKeys(rs: seq<Recipe>, r: Recipe)
    requires r.id in Ids(rs, RecipeKey)
    ensures forall i :: 0 <= i < |rs| ==> ReplaceRecipe(rs, r)[i].id == rs[i].id
    ensures Increasing(rs, RecipeKey) ==> Increasing(ReplaceRecipe(rs, r), RecipeKey)
    ensures Ids(ReplaceRecipe(rs, r), RecipeKey) == Ids(rs, RecipeKey)
  {
    var after := ReplaceRecipe(rs, r);
    forall x | x in after ensures x.id in Ids(rs, RecipeKey) {
      var i :| 0 <= i < |after| && after[i] == x;
      assert rs[i] in rs;
    }
    forall x | x in rs ensures x.id in Ids(after, RecipeKey) {
      var i :| 0 <= i < |rs| && rs[i] == x;
      assert after[i] in after;
    }
  }

  lemma ReplaceRecipeTitles(rs: seq<Recipe>, r: Recipe)
    requires TitlesUnique(rs)
    requires forall x :: x in rs && x.id != r.id ==> x.fields.title != r.fields.title
    ensures TitlesUnique(ReplaceRecipe(rs, r))
  {
    var after := ReplaceRecipe(rs, r);
    forall x | x in after ensures x == r || (x in rs && x.id != r.id) {
      var i :| 0 <= i < |after| && after[i] == x;
    }
  }

  lemma ReplaceRecipeWellFormed(t: Tables, r: Recipe)
    requires WellFormed(t)
    requires r.id in Ids(t.recipes, RecipeKey)
    requires forall x :: x in t.recipes && x.id != r.id ==> x.fields.title != r.fields.title
    ensures WellFormed(t.(recipes := ReplaceRecipe(t.recipes, r)))
    ensures Ids(ReplaceRecipe(t.recipes, r), RecipeKey) == Ids(t.recipes, RecipeKey)
  {
    ReplaceRecipeKeys(t.recipes, r);
    ReplaceRecipeTitles(t.recipes, r);
  }

  /**
   * A store together with the next primary key each AutoField will hand
   * out: the store is well formed and every key in use is below its
   * counter, so the next key is fresh.
   */
  ghost predicate Consistent(t: Tables, nextRecipe: nat, nextIngredient: nat, nextRecipeIngredient: nat, nextLink: nat) {
    WellFormed(t)
    && Below(t.recipes, RecipeKey, nextRecipe)
    && Below(t.ingredients, IngredientKey, nextIngredient)
    && Below(t.recipeIngredients, RecipeIngredientKey, nextRecipeIngredient)
    && Below(t.links, LinkKey, nextLink)
  }

  lemma InsertIngredientConsistent(t: Tables, nr: nat, ni: nat, nri: nat, nl: nat, name: string)
    requires Consistent(t, nr, ni, nri, nl)
    ensures Consistent(t.(ingredients := t.ingredients + [Ingredient(ni, name)]), nr, ni + 1, nri, nl)
    ensures Ids(t.ingredients + [Ingredient(ni, name)], IngredientKey) == Ids(t.ingredients, IngredientKey) + {ni}
  {
    AppendIncreasing(t.ingredients, Ingredient(ni, name), IngredientKey);
  }

  lemma InsertRecipeIngredientConsistent(t: Tables, nr: nat, ni: nat, nri: nat, nl: nat, ri: RecipeIngredient)
    requires Consistent(t, nr, ni, nri, nl)
    requires ri.id == nri && ri.ingredient in Ids(t.ingredients, IngredientKey)
    ensures Consistent(t.(recipeIngredients := t.recipeIngredients + [ri]), nr, ni, nri + 1, nl)
    ensures Ids(t.recipeIngredients + [ri], RecipeIngredientKey) == Ids(t.recipeIngredients, RecipeIngredientKey) + {nri}
  {
    AppendIncreasing(t.recipeIngredients, ri, RecipeIngredientKey);
  }

  lemma InsertLinkConsistent(t: Tables, nr: nat, ni: nat, nri: nat, nl: nat, l: Link)
    requires Consistent(t, nr, ni, nri, nl)
    requires l.id == nl
    requires l.recipe in Ids(t.recipes, RecipeKey) && l.recipeIngredient in Ids(t.recipeIngredients, RecipeIngredientKey)
    ensures Consistent(WithLink(t, l), nr, ni, nri, nl + 1)
  {
    AppendIncreasing(t.links, l, LinkKey);
  }

  lemma InsertRecipeConsistent(t: Tables, nr: nat, ni: nat, nri: nat, nl: nat, r: Recipe)
    requires Consistent(t, nr, ni, nri, nl)
    requires r.id == nr
    requires forall x :: x in t.recipes ==> x.fields.title != r.fields.title
    ensures Consistent(t.(recipes := t.recipes + [r]), nr + 1, ni, nri, nl)
    ensures Ids(t.recipes + [r], RecipeKey) == Ids(t.recipes, RecipeKey) + {nr}
  {
    AppendIncreasing(t.recipes, r, RecipeKey);
    var u := t.(recipes := t.recipes + [r]);
    assert forall x :: x in u.recipes ==> x in t.recipes || x == r;
  }

  lemma UpdateRecipeConsistent(t: Tables, nr: nat, ni: nat, nri: nat, nl: nat, r: Recipe)
    requires Consistent(t, nr, ni, nri, nl)
    requires r.id in Ids(t.recipes, RecipeKey)
    requires forall x :: x in t.recipes && x.id != r.id ==> x.fields.title != r.fields.title
    ensures Consistent(t.(recipes := ReplaceRecipe(t.recipes, r)), nr, ni, nri, nl)
  {
    ReplaceRecipeWellFormed(t, r);
    var after := ReplaceRecipe(t.recipes, r);
    forall x | x in after ensures x.id < nr {
      var i :| 0 <= i < |after| && after[i] == x;
      assert t.recipes[i] in t.recipes;
    }
  }

  lemma DeleteRecipeConsistent(t: Tables, nr: nat, ni: nat, nri: nat, nl: nat, id: nat)
    requires Consistent(t, nr, ni, nri, nl)
    ensures Consistent(WithoutRecipe(t, id), nr, ni, nri, nl)
  {
    WithoutRecipeWellFormed(t, id);
    FilterBelow(t.recipes, RecipeOtherThan(id), RecipeKey, nr);
    FilterBelow(t.links, LinkNotOf(id), LinkKey, nl);
  }

  lemma DeleteRecipeIngredientConsistent(t: Tables, nr: nat, ni: nat, nri: nat, nl: nat, id: nat)
    requires Consistent(t, nr, ni, nri, nl)
    ensures Consistent(WithoutRecipeIngredient(t, id), nr, ni, nri, nl)
  {
    WithoutRecipeIngredientWellFormed(t, id);
    FilterBelow(t.recipeIngredients, RecordOtherThan(id), RecipeIngredientKey, nri);
    FilterBelow(t.links, LinkNotTo(id), LinkKey, nl);
  }

  /**
   * The database. Each table is a sequence the operations reassign; each
   * AutoField keeps the next primary key to hand out (Django starts at 1).
   */
  class Database {
    var recipes: seq<Recipe>
    var ingredients: seq<Ingredient>
    var recipeIngredients: seq<RecipeIngredient>
    var links: seq<Link>
    var nextRecipeId: nat
    var nextIngredientId: nat
    var nextRecipeIngredientId: nat
    var nextLinkId: nat

    function Snapshot(): Tables
      reads this
    {
      Tables(recipes, ingredients, recipeIngredients, links)
    }

    ghost predicate Valid()
      reads this
    {
      Consistent(Snapshot(), nextRecipeId, nextIngredientId, nextRecipeIngredientId, nextLinkId)
    }

    constructor ()
      ensures Valid()
      ensures Snapshot() == Tables([], [], [], [])
    {
      recipes, ingredients, recipeIngredients, links := [], [], [], [];
      nextRecipeId, nextIngredientId, nextRecipeIngredientId, nextLinkId := 1, 1, 1, 1;
    }

    /** `Ingredient(name=...).save()` */
    method CreateIngredient(name: string) returns (ing: Ingredient)
      requires Valid()
      modifies this
      ensures Valid()
      ensures ing.name == name && ing.id !in Ids(old(ingredients), IngredientKey)
      ensures Snapshot() == old(Snapshot()).(ingredients := old(ingredients) + [ing])
      ensures Ids(ingredients, IngredientKey) == Ids(old(ingredients), IngredientKey) + {ing.id}
    {
      InsertIngredientConsistent(Snapshot(), nextRecipeId, nextIngredientId, nextRecipeIngredientId, nextLinkId, name);
      ing := Ingredient(nextIngredientId, name);
      ingredients := ingredients + [ing];
      nextIngredientId := nextIngredientId + 1;
    }

    /** `RecipeIngredient(...).save()` for an existing ingredient. */
    method CreateRecipeIngredient(
      ingredient: nat, calorieContent: Hundredths, amount: Hundredths, amountType: string,
      cost: Hundredths, supplier: string, grams: Hundredths)
      returns (ri: RecipeIngredient)
      requires Valid()
      requires ingredient in Ids(ingredients, IngredientKey)
      modifies this
      ensures Valid()
      ensures ri == RecipeIngredient(ri.id, ingredient, calorieContent, amount, amountType, cost, supplier, grams)
      ensures ri.id !in Ids(old(recipeIngredients), RecipeIngredientKey)
      ensures Snapshot() == old(Snapshot()).(recipeIngredients := old(recipeIngredients) + [ri])
      ensures Ids(recipeIngredients, RecipeIngredientKey) == Ids(old(recipeIngredients), RecipeIngredientKey) + {ri.id}
    {
      ri := RecipeIngredient(nextRecipeIngredientId, ingredient, calorieContent, amount, amountType, cost, supplier, grams);
      InsertRecipeIngredientConsistent(Snapshot(), nextRecipeId, nextIngredientId, nextRecipeIngredientId, nextLinkId, ri);
      recipeIngredients := recipeIngredients + [ri];
      nextRecipeIngredientId := nextRecipeIngredientId + 1;
    }

    /** `RecipeIngredientIntermediary(recipe=..., recipe_ingredient=...).save()` */
    method CreateLink(recipe: nat, recipeIngredient: nat) returns (l: Link)
      requires Valid()
      requires recipe in Ids(recipes, RecipeKey)
      requires recipeIngredient in Ids(recipeIngredients, RecipeIngredientKey)
      modifies this
      ensures Valid()
      ensures l.recipe == recipe && l.recipeIngredient == recipeIngredient
      ensures Snapshot() == WithLink(old(Snapshot()), l)
    {
      l := Link(nextLinkId, recipe, recipeIngredient);
      InsertLinkConsistent(Snapshot(), nextRecipeId, nextIngredientId, nextRecipeIngredientId, nextLinkId, l);
      links := links + [l];
      nextLinkId := nextLinkId + 1;
    }

    /** INSERT of a new recipe row; the unique title has been checked. */
    method CreateRecipe(user: nat, fields: RecipeFields, pic: string) returns (r: Recipe)
      requires Valid()
      requires forall x :: x in recipes ==> x.fields.title != fields.title
      modifies this
      ensures Valid()
      ensures r == Recipe(r.id, user, fields, pic) && r.id !in Ids(old(recipes), RecipeKey)
      ensures Snapshot() == old(Snapshot()).(recipes := old(recipes) + [r])
      ensures Ids(recipes, RecipeKey) == Ids(old(recipes), RecipeKey) + {r.id}
    {
      r := Recipe(nextRecipeId, user, fields, pic);
      InsertRecipeConsistent(Snapshot(), nextRecipeId, nextIngredientId, nextRecipeIngredientId, nextLinkId, r);
      recipes := recipes + [r];
      nextRecipeId := nextRecipeId + 1;
    }

    /** UPDATE of an existing recipe row; the unique title has been checked. */
    method UpdateRecipe(r: Recipe)
      requires Valid()
      requires r.id in Ids(recipes, RecipeKey)
      requires forall x :: x in recipes && x.id != r.id ==> x.fields.title != r.fields.title
      modifies this
      ensures Valid()
      ensures Snapshot() == old(Snapshot()).(recipes := ReplaceRecipe(old(recipes), r))
    {
      UpdateRecipeConsistent(Snapshot(), nextRecipeId, nextIngredientId, nextRecipeIngredientId, nextLinkId, r);
      recipes := ReplaceRecipe(recipes, r);
    }

    /** `recipe.delete()`, cascading to its link rows. */
    method DeleteRecipe(id: nat)
      requires Valid()
      modifies this
      ensures Valid()
      ensures Snapshot() == WithoutRecipe(old(Snapshot()), id)
    {
      var after := WithoutRecipe(Snapshot(), id);
      DeleteRecipeConsistent(Snapshot(), nextRecipeId, nextIngredientId, nextRecipeIngredientId, nextLinkId, id);
      recipes, links := after.recipes, after.links;
    }

    /** `recipe_ingredient.delete()`, cascading to every link row naming it. */
    method DeleteRecipeIngredient(id: nat)
      requires Valid()
      modifies this
      ensures Valid()
      ensures Snapshot() == WithoutRecipeIngredient(old(Snapshot()), id)
    {
      var after := WithoutRecipeIngredient(Snapshot(), id);
      DeleteRecipeIngredientConsistent(Snapshot(), nextRecipeId, nextIngredientId, nextRecipeIngredientId, nextLinkId, id);
      recipeIngredients, links := after.recipeIngredients, after.links;
    }
  }
}
