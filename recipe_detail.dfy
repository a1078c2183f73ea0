/**
 * recipe/views.py, `RecipeDetailView.get_context_data` and `format_cost`:
 * the per-ingredient table of a recipe's detail page. One row per distinct
 * ingredient name among the recipe's linked records, in order of first
 * appearance; each cell holds the value of the last record with that name.
 */
module RecipeDetail {
  import opened Common
  import opened Text
  import opened RecipeIngredientModel
  import opened Intermediary

  // ---------------------------------------------------------------
  // format_cost
  // ---------------------------------------------------------------

  /** Two decimal digits, with a leading zero. */
  function TwoDigits(n: nat): (s: string)
    requires n < 100
    ensures |s| == 2 && AllDigits(s) && DigitsValue(s) == n
  {
    var s := [DigitChar(n / 10), DigitChar(n % 10)];
    assert s[..1] == [s[0]] && s[..1][..0] == [];
    assert DigitValue(s[0]) == n / 10 && DigitValue(s[1]) == n % 10;
    assert DigitsValue(s[..1]) == n / 10;
    s
  }

  /** `f"${cost:.2f}"` for a cost held as whole cents: "$", a minus sign when negative, units, ".", two digits. */
  function FormatCost(cents: int): (s: string)
    ensures StartsWith(s, "$")
    ensures |s| >= 5 && s[|s| - 3] == '.'
  {
    var magnitude := if cents < 0 then -cents else cents;
    "$" + (if cents < 0 then "-" else "") + NatToString(magnitude / 100) + "." + TwoDigits(magnitude % 100)
  }

  /** Reads a rendered cost back; `None` for text `FormatCost` cannot produce. */
  function ParseCost(s: string): (cents: Option<int>)
  {
    if |s| < 5 || s[0] != '$' || s[|s| - 3] != '.' then None
    else ParseAmount(s[1..|s| - 3], s[|s| - 2..])
  }

  /** The units with an optional leading "-", and the two decimals, read as cents. */
  function ParseAmount(signedUnits: string, decimals: string): Option<int> {
    var negative := signedUnits != [] && signedUnits[0] == '-';
    match (ParseNat(if negative then signedUnits[1..] else signedUnits), ParseNat(decimals))
    case (Some(u), Some(c)) => Some(if negative then -(u * 100 + c) else u * 100 + c)
    case _ => None
  }

  /** Where the pieces of a rendered cost sit in the text. */
  lemma {:induction false} CostTextParts(sign: string, units: string, frac: string)
    requires |sign| <= 1 && |units| >= 1 && |frac| == 2
    ensures var s := "$" + sign + units + "." + frac;
      |s| >= 5 && s[0] == '$' && s[|s| - 3] == '.'
      && s[1..|s| - 3] == sign + units && s[|s| - 2..] == frac
  {
    var s := "$" + sign + units + "." + frac;
    assert s == ("$" + (sign + units)) + ("." + frac);
  }

  /** Reading back text in the shape `FormatCost` writes: "$", an optional "-", digits, "." and two digits. */
  lemma {:induction false} ParseCostOfParts(negative: bool, units: string, frac: string)
    requires units != [] && AllDigits(units) && |frac| == 2 && AllDigits(frac)
    ensures ParseCost("$" + (if negative then "-" else "") + units + "." + frac)
      == Some(if negative then -(DigitsValue(units) * 100 + DigitsValue(frac))
              else DigitsValue(units) * 100 + DigitsValue(frac))
  {
    var sign := if negative then "-" else "";
    CostTextParts(sign, units, frac);
    var signed := sign + units;
    var s := "$" + sign + units + "." + frac;
    assert ParseCost(s) == ParseAmount(signed, frac);
    var u, c := ParseNat(units), ParseNat(frac);
    assert u == Some(DigitsValue(units)) && c == Some(DigitsValue(frac));
    if negative {
      assert signed[0] == '-' && signed[1..] == units;
    } else {
      assert signed == units && IsDigit(units[0]);
    }
  }

  /** The rendering loses nothing: the cents read back from the text. */
  lemma {:induction false} FormatCostRoundTrip(cents: int)
    ensures ParseCost(FormatCost(cents)) == Some(cents)
  {
    var magnitude := if cents < 0 then -cents else cents;
    var units := NatToString(magnitude / 100);
    var frac := TwoDigits(magnitude % 100);
    NatToStringRoundTrip(magnitude / 100);
    DigitsValueOfNatToString(magnitude / 100);
    assert FormatCost(cents) == "$" + (if cents < 0 then "-" else "") + units + "." + frac;
    ParseCostOfParts(cents < 0, units, frac);
    assert DigitsValue(units) * 100 + DigitsValue(frac) == magnitude;
  }

  /** Distinct costs render differently. */
  lemma FormatCostInjective(a: int, b: int)
    ensures FormatCost(a) == FormatCost(b) <==> a == b
  {
    FormatCostRoundTrip(a);
    FormatCostRoundTrip(b);
  }

  // ---------------------------------------------------------------
  // The report
  // ---------------------------------------------------------------

  /** One linked record as the page reads it: ingredient name, calories, grams, cost. */
  datatype Entry = Entry(name: string, calories: Hundredths, grams: Hundredths, cost: Hundredths)

  /**
   * One row of the table; `None` is an empty (NaN) cell, which a row keeps
   * only until a record with its name is written into it.
   */
  datatype Row = Row(name: string, calories: Option<Hundredths>, grams: Option<Hundredths>, cost: Option<string>)

  /** `recipe.recipe_ingredients.all()` read as entries, in link order. */
  function Entries(t: Tables, ris: seq<RecipeIngredient>): (es: seq<Entry>)
    ensures (forall ri :: ri in ris ==> IngredientName(t, ri).Some?) ==>
      |es| == |ris|
      && forall k :: 0 <= k < |ris| ==>
        es[k] == Entry(IngredientName(t, ris[k]).value, ris[k].calorieContent, ris[k].grams, ris[k].cost)
    decreases |ris|
  {
    if ris == [] then []
    else
      (match IngredientName(t, ris[0])
       case Some(name) => [Entry(name, ris[0].calorieContent, ris[0].grams, ris[0].cost)]
       case None => [])
      + Entries(t, ris[1..])
  }

  function Names(es: seq<Entry>): (names: seq<string>)
    ensures |names| == |es| && forall k :: 0 <= k < |es| ==> names[k] == es[k].name
  {
    seq(|es|, k requires 0 <= k < |es| => es[k].name)
  }

  /** The distinct elements of `s`, in order of first appearance (the keys of `{n: None for n in s}`). */
  function Dedup(s: seq<string>): (d: seq<string>)
    ensures forall x :: x in d <==> x in s
    ensures |d| <= |s|
    decreases |s|
  {
    if s == [] then []
    else
      var init := s[..|s| - 1];
      assert forall x :: x in s <==> x in init || x == s[|s| - 1];
      var d := Dedup(init);
      if s[|s| - 1] in d then d else d + [s[|s| - 1]]
  }

  /** The position where `x` first occurs in `s`. */
  function FirstIndex(s: seq<string>, x: string): (i: nat)
    requires x in s
    ensures i < |s| && s[i] == x && forall k :: 0 <= k < i ==> s[k] != x
    decreases |s|
  {
    if s[0] == x then 0 else 1 + FirstIndex(s[1..], x)
  }

  lemma FirstIndexOfPrefix(s: seq<string>, c: string, x: string)
    requires x in s
    ensures FirstIndex(s + [c], x) == FirstIndex(s, x)
  {
    var i, j := FirstIndex(s + [c], x), FirstIndex(s, x);
    assert (s + [c])[j] == x;
  }

  /** No name is listed twice. */
  lemma {:induction false} DedupDistinct(s: seq<string>)
    ensures forall i, j :: 0 <= i < j < |Dedup(s)| ==> Dedup(s)[i] != Dedup(s)[j]
    decreases |s|
  {
    if s != [] {
      DedupDistinct(s[..|s| - 1]);
    }
  }

  /** The names are listed in the order they first appear in `s`. */
  lemma {:induction false} DedupFirstAppearance(s: seq<string>)
    ensures forall i, j :: 0 <= i < j < |Dedup(s)| ==> FirstIndex(s, Dedup(s)[i]) < FirstIndex(s, Dedup(s)[j])
    decreases |s|
  {
    if s != [] {
      var init, c := s[..|s| - 1], s[|s| - 1];
      assert s == init + [c];
      DedupFirstAppearance(init);
      var d := Dedup(init);
      forall x | x in d ensures FirstIndex(s, x) == FirstIndex(init, x) && FirstIndex(s, x) < |init| {
        FirstIndexOfPrefix(init, c, x);
      }
      if c !in d {
        assert FirstIndex(s, c) == |init| by {
          assert forall k :: 0 <= k < |init| ==> s[k] == init[k];
        }
      }
    }
  }

  lemma NamesOfPrefix(es: seq<Entry>)
    requires es != []
    ensures Names(es) == Names(es[..|es| - 1]) + [es[|es| - 1].name]
  {
  }

  /** The last entry of `es` with the name, if any. */
  function LastWith(es: seq<Entry>, name: string): (e: Option<Entry>)
    ensures e.None? <==> name !in Names(es)
    ensures e.Some? ==> exists k :: 0 <= k < |es| && es[k] == e.value && e.value.name == name
                                 && (forall j :: k < j < |es| ==> es[j].name != name)
    decreases |es|
  {
    if es == [] then None
    else if es[|es| - 1].name == name then
      assert Names(es)[|es| - 1] == name;
      Some(es[|es| - 1])
    else
      NamesOfPrefix(es);
      LastWith(es[..|es| - 1], name)
  }

  /** The row of a name after the records so far: empty until one is written, then the last one's values. */
  function RowAfter(name: string, last: Option<Entry>): Row {
    match last
    case None => Row(name, None, None, None)
    case Some(e) => Filled(e)
  }

  function Filled(e: Entry): Row {
    Row(e.name, Some(e.calories), Some(e.grams), Some(FormatCost(e.cost)))
  }

  function IndexOf(s: seq<string>, x: string): (i: nat)
    requires x in s
    ensures i < |s| && s[i] == x
  {
    FirstIndex(s, x)
  }

  lemma KeysStep(es: seq<Entry>, i: nat)
    requires i < |es|
    ensures Dedup(Names(es[..i + 1])) ==
      if es[i].name in Dedup(Names(es[..i])) then Dedup(Names(es[..i]))
      else Dedup(Names(es[..i])) + [es[i].name]
  {
    assert Names(es[..i + 1])[..i] == Names(es[..i]);
  }

  lemma LastWithStep(es: seq<Entry>, i: nat, name: string)
    requires i < |es|
    ensures LastWith(es[..i + 1], name) == if es[i].name == name then Some(es[i]) else LastWith(es[..i], name)
  {
    assert es[..i + 1][..i] == es[..i];
  }

  /** The table after the records of `es` have been written into rows keyed by `keys`. */
  function TableAfter(keys: seq<string>, es: seq<Entry>): (rows: seq<Row>)
    ensures |rows| == |keys|
  {
    seq(|keys|, k requires 0 <= k < |keys| => RowAfter(keys[k], LastWith(es, keys[k])))
  }

  /** Writing one more record overwrites exactly the row of its name. */
  lemma TableStep(keys: seq<string>, es: seq<Entry>, i: nat, at: nat)
    requires i < |es| && at < |keys| && keys[at] == es[i].name
    requires forall j, k :: 0 <= j < k < |keys| ==> keys[j] != keys[k]
    ensures TableAfter(keys, es[..i + 1]) == TableAfter(keys, es[..i])[at := Filled(es[i])]
  {
    var after, updated := TableAfter(keys, es[..i + 1]), TableAfter(keys, es[..i])[at := Filled(es[i])];
    forall k | 0 <= k < |keys| ensures after[k] == updated[k] {
      LastWithStep(es, i, keys[k]);
    }
  }

  /**
   * The table the detail page builds: the index is the distinct names in
   * first-appearance order, and every row holds the calories, grams and
   * formatted cost of the last record with its name.
   */
  method BuildReport(es: seq<Entry>) returns (rows: seq<Row>)
    ensures |rows| == |Dedup(Names(es))|
    ensures forall k :: 0 <= k < |rows| ==>
      LastWith(es, Dedup(Names(es))[k]).Some?
      && rows[k] == Filled(LastWith(es, Dedup(Names(es))[k]).value)
  {
    // ingredient_data = {ingredient: None for ingredient in ingredients}
    var keys: seq<string> := [];
    var i := 0;
    while i < |es|
      invariant 0 <= i <= |es|
      invariant keys == Dedup(Names(es[..i]))
    {
      KeysStep(es, i);
      if es[i].name !in keys {
        keys := keys + [es[i].name];
      }
      i := i + 1;
    }
    assert es[..|es|] == es;
    DedupDistinct(Names(es));
    rows := seq(|keys|, k requires 0 <= k < |keys| => Row(keys[k], None, None, None));
    assert rows == TableAfter(keys, es[..0]);
    // df.loc[name, column] = value, for every record in link order
    i := 0;
    while i < |es|
      invariant 0 <= i <= |es|
      invariant rows == TableAfter(keys, es[..i])
    {
      assert es[i].name in Names(es) by { assert Names(es)[i] == es[i].name; }
      var at := IndexOf(keys, es[i].name);
      TableStep(keys, es, i, at);
      rows := rows[at := Filled(es[i])];
      i := i + 1;
    }
    forall k | 0 <= k < |keys| ensures LastWith(es, keys[k]).Some? {
      assert keys[k] in Names(es);
    }
  }

  /** The entries of a recipe's detail page on the store, in link order. */
  function RecipeEntries(t: Tables, recipeId: nat): (es: seq<Entry>)
    ensures WellFormed(t) ==> |es| == LinkCount(t, recipeId)
  {
    var ris := LinkedRecipeIngredients(t, recipeId);
    Entries(t, ris)
  }
}
