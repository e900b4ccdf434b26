/**
 * What the "Gerar Lista de Compras" button computes, as a specification:
 * for every day, then every category, the cell's selected meal contributes
 * its ingredients (each `quantity * people`, under the stripped name, with
 * its unit) to the accumulator of the `Ledger` module.
 *
 * The two versions of the planner differ in one policy:
 * - versao3.py turns a selected meal missing from the catalog into one
 *   synthetic item `"<meal> (custom)"` of `people` `unidade(s)`, and keeps
 *   every catalog ingredient;
 * - versao4.py drops that fallback and leaves out every ingredient that an
 *   exclusion term matches.
 */
module Aggregation {
  import opened Wrappers
  import opened Text
  import opened Meals
  import opened Ledger

  datatype Policy =
    | CustomFallback                         // versao3.py
    | ExclusionFilter(terms: seq<string>)    // versao4.py

  /** versao4.py's `SHOPPING_LIST_EXCLUSIONS`. */
  const ShoppingListExclusions: seq<string> := ["arroz", "feijão", "(ru)", "pitada"]

  /** The unit of a synthetic custom item. */
  const CustomUnit: string := "unidade(s)"

  /** The key of the synthetic item for an uncatalogued meal. */
  function CustomKey(meal: string): string {
    meal + " (custom)"
  }

  /** `any(term in name.lower() or term in unit.lower() for term in terms)`. */
  predicate IsExcluded(ing: Ingredient, terms: seq<string>) {
    exists t :: t in terms && (Contains(Lower(ing.name), t) || Contains(Lower(ing.unit), t))
  }

  /** An ingredient is excluded exactly when some term occurs in its
      lowercased name or in its lowercased unit. */
  lemma IsExcludedMeans(ing: Ingredient, terms: seq<string>)
    ensures IsExcluded(ing, terms) <==> exists t, i :: t in terms && (OccursAt(Lower(ing.name), t, i) || OccursAt(Lower(ing.unit), t, i))
  {
    forall t | t in terms
      ensures Contains(Lower(ing.name), t) <==> exists i :: OccursAt(Lower(ing.name), t, i)
      ensures Contains(Lower(ing.unit), t) <==> exists i :: OccursAt(Lower(ing.unit), t, i)
    {
      ContainsMeans(Lower(ing.name), t);
      ContainsMeans(Lower(ing.unit), t);
    }
  }

  /** An exclusion term that occurs at `i` in an ingredient's lowercased name excludes it. */
  lemma ExcludedByName(ing: Ingredient, terms: seq<string>, t: string, i: nat)
    requires t in terms && OccursAt(Lower(ing.name), t, i)
    ensures IsExcluded(ing, terms)
  {
    ContainsMeans(Lower(ing.name), t);
  }

  /** The filter on catalog ingredients of versao4.py: rice is caught by its
      capitalised name, beans by a name with a non-ASCII letter, the sweetener
      by its unit "pitada". */
  lemma RiceExcluded()
    ensures IsExcluded(Ingredient("Arroz integral", 120, "g cozido (4 colheres)"), ShoppingListExclusions)
  {
    var rice := Ingredient("Arroz integral", 120, "g cozido (4 colheres)");
    assert Lower(rice.name)[0..5] == "arroz";
    ExcludedByName(rice, ShoppingListExclusions, "arroz", 0);
  }

  lemma BeansExcluded()
    ensures IsExcluded(Ingredient("Feijão (RU)", 60, "g (2 colheres)"), ShoppingListExclusions)
  {
    var beans := Ingredient("Feijão (RU)", 60, "g (2 colheres)");
    assert Lower(beans.name)[0..6] == "feijão";
    ExcludedByName(beans, ShoppingListExclusions, "feijão", 0);
  }

  lemma SweetenerExcluded()
    ensures IsExcluded(Ingredient("Adoçante", 1, "pitada"), ShoppingListExclusions)
  {
    var sweetener := Ingredient("Adoçante", 1, "pitada");
    assert Lower(sweetener.unit)[0..6] == "pitada";
    ContainsMeans(Lower(sweetener.unit), "pitada");
  }

  /** Eggs counted in "unidades" stay on the list: each term has a letter
      that neither "ovo" nor "unidades" holds. */
  lemma EggKept()
    ensures !IsExcluded(Ingredient("Ovo", 2, "unidades"), ShoppingListExclusions)
  {
    var egg := Ingredient("Ovo", 2, "unidades");
    assert Lower(egg.name) == "ovo" && Lower(egg.unit) == "unidades";
    assert ShoppingListExclusions[0][1] == 'r' && ShoppingListExclusions[1][0] == 'f';
    assert ShoppingListExclusions[2][0] == '(' && ShoppingListExclusions[3][0] == 'p';
    forall k | 0 <= k < 4 ensures !Contains("ovo", ShoppingListExclusions[k]) && !Contains("unidades", ShoppingListExclusions[k]) {
      var c := if k == 0 then 1 else 0;
      assert ShoppingListExclusions[k][c] !in "ovo" && ShoppingListExclusions[k][c] !in "unidades";
      MissingCharNotContained("ovo", ShoppingListExclusions[k], c);
      MissingCharNotContained("unidades", ShoppingListExclusions[k], c);
    }
  }

  /** Whether an ingredient of a selected catalog meal reaches the list. */
  predicate Kept(policy: Policy, ing: Ingredient) {
    policy.CustomFallback? || !IsExcluded(ing, policy.terms)
  }

  /** The contributions of one meal's ingredients for `people` people. */
  function IngredientEntries(policy: Policy, ings: seq<Ingredient>, people: int): seq<Entry> {
    if ings == [] then
      []
    else
      var ing := ings[|ings| - 1];
      IngredientEntries(policy, ings[..|ings| - 1], people)
        + (if Kept(policy, ing) then [Entry(Strip(ing.name), ing.quantity * people, ing.unit)] else [])
  }

  /** The contributions of one (day, category) cell. */
  function CellEntries(policy: Policy, catalog: Catalog, cell: Cell): seq<Entry> {
    match SelectedMeal(cell)
    case None => []
    case Some(meal) =>
      if meal in catalog then
        IngredientEntries(policy, catalog[meal].ingredients, People(cell))
      else if policy.CustomFallback? then
        [Entry(CustomKey(meal), People(cell), CustomUnit)]
      else
        []
  }

  /** One day's contributions, category by category. */
  function DayEntries(policy: Policy, catalog: Catalog, sel: Selections, day: string, cats: seq<string>): seq<Entry> {
    if cats == [] then
      []
    else
      DayEntries(policy, catalog, sel, day, cats[..|cats| - 1])
        + CellEntries(policy, catalog, Lookup(sel, day, cats[|cats| - 1]))
  }

  /** The week's contributions, day by day. */
  function WeekEntries(policy: Policy, catalog: Catalog, sel: Selections, cats: seq<string>, days: seq<string>): seq<Entry> {
    if days == [] then
      []
    else
      WeekEntries(policy, catalog, sel, cats, days[..|days| - 1])
        + DayEntries(policy, catalog, sel, days[|days| - 1], cats)
  }

  /** The shopping list the button stores in `lista_compras`. */
  function Aggregate(policy: Policy, catalog: Catalog, sel: Selections, cats: seq<string>, days: seq<string>): ShoppingList {
    Accumulate(WeekEntries(policy, catalog, sel, cats, days))
  }

  // ---------------------------------------------------------------------------
  // One loop step at a time

  lemma IngredientStep(policy: Policy, ings: seq<Ingredient>, i: nat, people: int)
    requires i < |ings|
    ensures IngredientEntries(policy, ings[..i + 1], people)
      == IngredientEntries(policy, ings[..i], people)
         + (if Kept(policy, ings[i]) then [Entry(Strip(ings[i].name), ings[i].quantity * people, ings[i].unit)] else [])
  {
    assert ings[..i + 1][..i] == ings[..i];
  }

  lemma DayStep(policy: Policy, catalog: Catalog, sel: Selections, day: string, cats: seq<string>, c: nat)
    requires c < |cats|
    ensures DayEntries(policy, catalog, sel, day, cats[..c + 1])
      == DayEntries(policy, catalog, sel, day, cats[..c]) + CellEntries(policy, catalog, Lookup(sel, day, cats[c]))
  {
    assert cats[..c + 1][..c] == cats[..c];
  }

  lemma WeekStep(policy: Policy, catalog: Catalog, sel: Selections, cats: seq<string>, days: seq<string>, d: nat)
    requires d < |days|
    ensures WeekEntries(policy, catalog, sel, cats, days[..d + 1])
      == WeekEntries(policy, catalog, sel, cats, days[..d]) + DayEntries(policy, catalog, sel, days[d], cats)
  {
    assert days[..d + 1][..d] == days[..d];
  }

  /** The cell of a selected catalog meal contributes that meal's ingredients. */
  lemma CatalogCell(policy: Policy, catalog: Catalog, cell: Cell)
    requires cell.meal.Some? && cell.meal.value != "" && cell.meal.value != NoMeal && cell.meal.value in catalog
    ensures CellEntries(policy, catalog, cell) == IngredientEntries(policy, catalog[cell.meal.value].ingredients, People(cell))
  {
  }

  /** Under the custom fallback, a selected meal the catalog does not know
      contributes its one custom item. */
  lemma UncataloguedCell(catalog: Catalog, cell: Cell)
    requires cell.meal.Some? && cell.meal.value != "" && cell.meal.value != NoMeal && cell.meal.value !in catalog
    ensures CellEntries(CustomFallback, catalog, cell) == [Entry(CustomKey(cell.meal.value), People(cell), CustomUnit)]
  {
  }

  /** A cell that selects nothing contributes nothing. */
  lemma UnselectedCell(policy: Policy, catalog: Catalog, cell: Cell)
    requires !(cell.meal.Some? && cell.meal.value != "" && cell.meal.value != NoMeal)
    ensures CellEntries(policy, catalog, cell) == []
  {
  }

  /** Under the exclusion filter, a cell without a selected catalog meal contributes nothing. */
  lemma NoCatalogCell(terms: seq<string>, catalog: Catalog, cell: Cell)
    requires !(cell.meal.Some? && cell.meal.value != "" && cell.meal.value != NoMeal && cell.meal.value in catalog)
    ensures CellEntries(ExclusionFilter(terms), catalog, cell) == []
  {
  }

  // ---------------------------------------------------------------------------
  // Closed forms: what each cell is worth for one key

  /** The summed quantity, over the kept ingredients of a meal, of those
      whose stripped name is `key`. */
  function IngredientQuantity(policy: Policy, ings: seq<Ingredient>, key: string): int {
    if ings == [] then
      0
    else
      var ing := ings[|ings| - 1];
      IngredientQuantity(policy, ings[..|ings| - 1], key)
        + (if Kept(policy, ing) && Strip(ing.name) == key then ing.quantity else 0)
  }

  /** What one cell adds to `key`: its people times the meal's quantity, or,
      under the custom fallback, its people when `key` is the meal's custom key. */
  function CellAmount(policy: Policy, catalog: Catalog, cell: Cell, key: string): int {
    match SelectedMeal(cell)
    case None => 0
    case Some(meal) =>
      if meal in catalog then People(cell) * IngredientQuantity(policy, catalog[meal].ingredients, key)
      else if policy.CustomFallback? && key == CustomKey(meal) then People(cell)
      else 0
  }

  function DayAmount(policy: Policy, catalog: Catalog, sel: Selections, day: string, cats: seq<string>, key: string): int {
    if cats == [] then
      0
    else
      DayAmount(policy, catalog, sel, day, cats[..|cats| - 1], key)
        + CellAmount(policy, catalog, Lookup(sel, day, cats[|cats| - 1]), key)
  }

  /** The sum, over all days and categories, of what each cell adds to `key`. */
  function WeekAmount(policy: Policy, catalog: Catalog, sel: Selections, cats: seq<string>, days: seq<string>, key: string): int {
    if days == [] then
      0
    else
      WeekAmount(policy, catalog, sel, cats, days[..|days| - 1], key)
        + DayAmount(policy, catalog, sel, days[|days| - 1], cats, key)
  }

  /** Whether a cell puts `key` on the list. */
  ghost predicate CellContributes(policy: Policy, catalog: Catalog, cell: Cell, key: string) {
    match SelectedMeal(cell)
    case None => false
    case Some(meal) =>
      if meal in catalog then
        exists ing :: ing in catalog[meal].ingredients && Kept(policy, ing) && Strip(ing.name) == key
      else
        policy.CustomFallback? && key == CustomKey(meal)
  }

  // ---------------------------------------------------------------------------
  // Totals

  /** Linearity: a meal for `people` people contributes `people` times its quantity. */
  lemma {:induction false} IngredientLinearity(policy: Policy, ings: seq<Ingredient>, people: int, key: string)
    ensures SumFor(IngredientEntries(policy, ings, people), key) == people * IngredientQuantity(policy, ings, key)
  {
    if ings != [] {
      var ing := ings[|ings| - 1];
      var init := ings[..|ings| - 1];
      IngredientLinearity(policy, init, people, key);
      var kept := Kept(policy, ing);
      var tail := if kept then [Entry(Strip(ing.name), ing.quantity * people, ing.unit)] else [];
      var prev := IngredientQuantity(policy, init, key);
      SumForAppend(IngredientEntries(policy, init, people), tail, key);
      if kept && Strip(ing.name) == key {
        assert tail[1..] == [];
        assert SumFor(tail, key) == ing.quantity * people;
        assert IngredientQuantity(policy, ings, key) == prev + ing.quantity;
        MulAdd(people, prev, ing.quantity);
        MulCommutes(ing.quantity, people);
      } else {
        assert SumFor(tail, key) == 0 by {
          if kept {
            assert tail[1..] == [];
          }
        }
        assert IngredientQuantity(policy, ings, key) == prev;
      }
    }
  }

  // MulCommutes, MulAdd and AddMul are lemmas rather than inline asserts:
  // proved apart, they keep nonlinear arithmetic out of the larger contexts
  // that use them.
  lemma MulCommutes(a: int, b: int)
    ensures a * b == b * a
  {
  }

  lemma MulAdd(a: int, b: int, c: int)
    ensures a * (b + c) == a * b + a * c
  {
  }

  lemma CellTotal(policy: Policy, catalog: Catalog, cell: Cell, key: string)
    ensures SumFor(CellEntries(policy, catalog, cell), key) == CellAmount(policy, catalog, cell, key)
  {
    match SelectedMeal(cell)
    case None =>
    case Some(meal) =>
      if meal in catalog {
        IngredientLinearity(policy, catalog[meal].ingredients, People(cell), key);
      }
  }

  lemma {:induction false} DayTotal(policy: Policy, catalog: Catalog, sel: Selections, day: string, cats: seq<string>, key: string)
    ensures SumFor(DayEntries(policy, catalog, sel, day, cats), key) == DayAmount(policy, catalog, sel, day, cats, key)
  {
    if cats != [] {
      var init := cats[..|cats| - 1];
      DayTotal(policy, catalog, sel, day, init, key);
      var cell := Lookup(sel, day, cats[|cats| - 1]);
      CellTotal(policy, catalog, cell, key);
      SumForAppend(DayEntries(policy, catalog, sel, day, init), CellEntries(policy, catalog, cell), key);
    }
  }

  lemma {:induction false} WeekTotal(policy: Policy, catalog: Catalog, sel: Selections, cats: seq<string>, days: seq<string>, key: string)
    ensures SumFor(WeekEntries(policy, catalog, sel, cats, days), key) == WeekAmount(policy, catalog, sel, cats, days, key)
  {
    if days != [] {
      var init := days[..|days| - 1];
      var day := days[|days| - 1];
      WeekTotal(policy, catalog, sel, cats, init, key);
      DayTotal(policy, catalog, sel, day, cats, key);
      SumForAppend(WeekEntries(policy, catalog, sel, cats, init), DayEntries(policy, catalog, sel, day, cats), key);
    }
  }

  /** Each total on the list is the sum, over every day and category, of
      people times the selected meal's quantity of that ingredient (plus,
      under the custom fallback, people for each uncatalogued selection). */
  lemma AggregateTotal(policy: Policy, catalog: Catalog, sel: Selections, cats: seq<string>, days: seq<string>, key: string)
    ensures TotalOf(Aggregate(policy, catalog, sel, cats, days), key) == WeekAmount(policy, catalog, sel, cats, days, key)
  {
    AccumulateTotal(WeekEntries(policy, catalog, sel, cats, days), key);
    WeekTotal(policy, catalog, sel, cats, days, key);
  }

  /** A day with one category, holding a catalog meal for `p` people. */
  lemma SingleCellDay(policy: Policy, catalog: Catalog, sel: Selections, day: string, category: string, meal: string, p: int, key: string)
    requires meal in catalog && meal != "" && meal != NoMeal
    requires Lookup(sel, day, category) == Cell(Some(meal), Some(p))
    ensures DayAmount(policy, catalog, sel, day, [category], key) == p * IngredientQuantity(policy, catalog[meal].ingredients, key)
  {
    assert [category][..0] == [];
  }

  lemma AddMul(a: int, b: int, c: int)
    ensures (a + b) * c == a * c + b * c
  {
  }

  /** The same meal chosen on two days for `p1` and `p2` people: every total
      is `(p1 + p2)` times the meal's quantity (so 2 and 3 people give 5 times). */
  lemma SameMealTwoDays(policy: Policy, catalog: Catalog, meal: string, d1: string, d2: string, category: string, p1: int, p2: int, key: string)
    requires meal in catalog && meal != "" && meal != NoMeal && d1 != d2
    ensures var sel := map[d1 := map[category := Cell(Some(meal), Some(p1))], d2 := map[category := Cell(Some(meal), Some(p2))]];
      TotalOf(Aggregate(policy, catalog, sel, [category], [d1, d2]), key)
        == (p1 + p2) * IngredientQuantity(policy, catalog[meal].ingredients, key)
  {
    var sel := map[d1 := map[category := Cell(Some(meal), Some(p1))], d2 := map[category := Cell(Some(meal), Some(p2))]];
    AggregateTotal(policy, catalog, sel, [category], [d1, d2], key);
    var q := IngredientQuantity(policy, catalog[meal].ingredients, key);
    assert Lookup(sel, d1, category) == Cell(Some(meal), Some(p1));
    assert Lookup(sel, d2, category) == Cell(Some(meal), Some(p2));
    SingleCellDay(policy, catalog, sel, d1, category, meal, p1, key);
    SingleCellDay(policy, catalog, sel, d2, category, meal, p2, key);
    assert [d1, d2][..1] == [d1] && [d1][..0] == [];
    assert WeekAmount(policy, catalog, sel, [category], [d1], key) == p1 * q;
    assert WeekAmount(policy, catalog, sel, [category], [d1, d2], key) == p1 * q + p2 * q;
    AddMul(p1, p2, q);
  }

  /** The week's amount splits over consecutive runs of days. */
  lemma {:induction false} WeekAmountAppend(policy: Policy, catalog: Catalog, sel: Selections, cats: seq<string>, a: seq<string>, b: seq<string>, key: string)
    ensures WeekAmount(policy, catalog, sel, cats, a + b, key)
      == WeekAmount(policy, catalog, sel, cats, a, key) + WeekAmount(policy, catalog, sel, cats, b, key)
  {
    if b == [] {
      assert a + b == a;
    } else {
      var init := b[..|b| - 1];
      WeekAmountAppend(policy, catalog, sel, cats, a, init, key);
      assert (a + b)[..|a + b| - 1] == a + init;
    }
  }

  /** Removing the last element on one side and one equal element on the
      other keeps two permutations permutations of each other. */
  lemma RemoveMatching(init: seq<string>, x: string, b: seq<string>, i: nat)
    requires multiset(init + [x]) == multiset(b) && i < |b| && b[i] == x
    ensures multiset(b[..i] + b[i + 1..]) == multiset(init)
  {
    assert b == b[..i] + [x] + b[i + 1..];
    forall y ensures multiset(b[..i] + b[i + 1..])[y] == multiset(init)[y] {
      assert multiset(b)[y] == multiset(b[..i])[y] + multiset{x}[y] + multiset(b[i + 1..])[y];
      assert multiset(init + [x])[y] == multiset(init)[y] + multiset{x}[y];
    }
  }

  /** Taking day `i` out of `days` takes its amount out of the week's. */
  lemma WeekAmountRemove(policy: Policy, catalog: Catalog, sel: Selections, cats: seq<string>, days: seq<string>, i: nat, key: string)
    requires i < |days|
    ensures WeekAmount(policy, catalog, sel, cats, days, key)
      == WeekAmount(policy, catalog, sel, cats, days[..i] + days[i + 1..], key) + DayAmount(policy, catalog, sel, days[i], cats, key)
  {
    var before, x, after := days[..i], days[i], days[i + 1..];
    assert days == before + [x] + after;
    WeekAmountAppend(policy, catalog, sel, cats, before, after, key);
    WeekAmountAppend(policy, catalog, sel, cats, before + [x], after, key);
    WeekAmountAppend(policy, catalog, sel, cats, before, [x], key);
    assert [x][..0] == [];
    assert WeekAmount(policy, catalog, sel, cats, [x], key) == DayAmount(policy, catalog, sel, x, cats, key);
  }

  lemma {:induction false} WeekAmountPermutation(policy: Policy, catalog: Catalog, sel: Selections, cats: seq<string>, days: seq<string>, days': seq<string>, key: string)
    requires multiset(days) == multiset(days')
    ensures WeekAmount(policy, catalog, sel, cats, days, key) == WeekAmount(policy, catalog, sel, cats, days', key)
    decreases |days|
  {
    if days == [] {
      assert |days'| == |multiset(days')| == 0;
    } else {
      var init := days[..|days| - 1];
      var x := days[|days| - 1];
      assert days == init + [x];
      assert x in multiset(days');
      var i :| 0 <= i < |days'| && days'[i] == x;
      RemoveMatching(init, x, days', i);
      WeekAmountPermutation(policy, catalog, sel, cats, init, days'[..i] + days'[i + 1..], key);
      WeekAmountRemove(policy, catalog, sel, cats, days', i, key);
    }
  }

  /** Permuting the days does not change any total (only, when two meals give
      one ingredient different units, which unit is kept). */
  lemma DayOrderIrrelevant(policy: Policy, catalog: Catalog, sel: Selections, cats: seq<string>, days: seq<string>, days': seq<string>, key: string)
    requires multiset(days) == multiset(days')
    ensures TotalOf(Aggregate(policy, catalog, sel, cats, days), key) == TotalOf(Aggregate(policy, catalog, sel, cats, days'), key)
  {
    AggregateTotal(policy, catalog, sel, cats, days, key);
    AggregateTotal(policy, catalog, sel, cats, days', key);
    WeekAmountPermutation(policy, catalog, sel, cats, days, days', key);
  }

  // ---------------------------------------------------------------------------
  // Keys and units

  lemma HasKeyAppend(a: seq<Entry>, b: seq<Entry>, key: string)
    ensures HasKey(a + b, key) <==> HasKey(a, key) || HasKey(b, key)
  {
    if HasKey(a + b, key) {
      var i :| 0 <= i < |a + b| && (a + b)[i].key == key;
      if i >= |a| {
        assert b[i - |a|].key == key;
      }
    }
    if HasKey(b, key) {
      var i :| 0 <= i < |b| && b[i].key == key;
      assert (a + b)[|a| + i].key == key;
    }
    if HasKey(a, key) {
      var i :| 0 <= i < |a| && a[i].key == key;
      assert (a + b)[i].key == key;
    }
  }

  lemma {:induction false} IngredientKeys(policy: Policy, ings: seq<Ingredient>, people: int, key: string)
    ensures HasKey(IngredientEntries(policy, ings, people), key)
      <==> exists ing :: ing in ings && Kept(policy, ing) && Strip(ing.name) == key
  {
    if ings != [] {
      var init := ings[..|ings| - 1];
      var ing := ings[|ings| - 1];
      IngredientKeys(policy, init, people, key);
      var tail := if Kept(policy, ing) then [Entry(Strip(ing.name), ing.quantity * people, ing.unit)] else [];
      HasKeyAppend(IngredientEntries(policy, init, people), tail, key);
      assert ings == init + [ing];
      if Kept(policy, ing) && Strip(ing.name) == key {
        assert tail[0].key == key;
      }
    }
  }

  lemma CellKeys(policy: Policy, catalog: Catalog, cell: Cell, key: string)
    ensures HasKey(CellEntries(policy, catalog, cell), key) <==> CellContributes(policy, catalog, cell, key)
  {
    match SelectedMeal(cell)
    case None =>
    case Some(meal) =>
      if meal in catalog {
        IngredientKeys(policy, catalog[meal].ingredients, People(cell), key);
      } else if policy.CustomFallback? && key == CustomKey(meal) {
        assert CellEntries(policy, catalog, cell)[0].key == key;
      }
  }

  lemma {:induction false} DayKeys(policy: Policy, catalog: Catalog, sel: Selections, day: string, cats: seq<string>, key: string)
    ensures HasKey(DayEntries(policy, catalog, sel, day, cats), key)
      <==> exists c :: c in cats && CellContributes(policy, catalog, Lookup(sel, day, c), key)
  {
    if cats != [] {
      var init := cats[..|cats| - 1];
      var c := cats[|cats| - 1];
      DayKeys(policy, catalog, sel, day, init, key);
      CellKeys(policy, catalog, Lookup(sel, day, c), key);
      HasKeyAppend(DayEntries(policy, catalog, sel, day, init), CellEntries(policy, catalog, Lookup(sel, day, c)), key);
      assert cats == init + [c];
    }
  }

  lemma {:induction false} WeekKeys(policy: Policy, catalog: Catalog, sel: Selections, cats: seq<string>, days: seq<string>, key: string)
    ensures HasKey(WeekEntries(policy, catalog, sel, cats, days), key)
      <==> exists d, c :: d in days && c in cats && CellContributes(policy, catalog, Lookup(sel, d, c), key)
  {
    if days != [] {
      var init := days[..|days| - 1];
      var d := days[|days| - 1];
      WeekKeys(policy, catalog, sel, cats, init, key);
      DayKeys(policy, catalog, sel, d, cats, key);
      HasKeyAppend(WeekEntries(policy, catalog, sel, cats, init), DayEntries(policy, catalog, sel, d, cats), key);
      assert days == init + [d];
    }
  }

  /** A name is on the list exactly when some day and category select a meal
      that puts it there: a kept ingredient of a catalog meal with that
      stripped name, or (custom fallback) the custom key of an uncatalogued
      meal. Every key has a unit. */
  lemma AggregateKeys(policy: Policy, catalog: Catalog, sel: Selections, cats: seq<string>, days: seq<string>, key: string)
    ensures var list := Aggregate(policy, catalog, sel, cats, days);
      && list.totals.Keys == list.units.Keys
      && (key in list.totals <==> exists d, c :: d in days && c in cats && CellContributes(policy, catalog, Lookup(sel, d, c), key))
  {
    AccumulateKeys(WeekEntries(policy, catalog, sel, cats, days));
    WeekKeys(policy, catalog, sel, cats, days, key);
  }

  /** With the exclusion filter, an excluded ingredient never becomes a key:
      every key is the stripped name of an ingredient that no term matches. */
  lemma ExcludedNeverListed(terms: seq<string>, catalog: Catalog, sel: Selections, cats: seq<string>, days: seq<string>, key: string)
    requires key in Aggregate(ExclusionFilter(terms), catalog, sel, cats, days).totals
    ensures exists meal, ing :: meal in catalog && ing in catalog[meal].ingredients && Strip(ing.name) == key && !IsExcluded(ing, terms)
  {
    AggregateKeys(ExclusionFilter(terms), catalog, sel, cats, days, key);
    var d, c :| d in days && c in cats && CellContributes(ExclusionFilter(terms), catalog, Lookup(sel, d, c), key);
    var meal := SelectedMeal(Lookup(sel, d, c)).value;
    var ing :| ing in catalog[meal].ingredients && Kept(ExclusionFilter(terms), ing) && Strip(ing.name) == key;
  }

  /** Each unit on the list is the unit of the last contribution to its key,
      in day-then-category-then-ingredient order. */
  lemma AggregateUnit(policy: Policy, catalog: Catalog, sel: Selections, cats: seq<string>, days: seq<string>, key: string)
    requires key in Aggregate(policy, catalog, sel, cats, days).units
    ensures exists i ::
              && LastFor(WeekEntries(policy, catalog, sel, cats, days), key, i)
              && WeekEntries(policy, catalog, sel, cats, days)[i].unit == Aggregate(policy, catalog, sel, cats, days).units[key]
  {
    var es := WeekEntries(policy, catalog, sel, cats, days);
    AccumulateUnit(es, key);
    var i :| LastFor(es, key, i) && es[i].unit == Accumulate(es).units[key];
    assert LastFor(es, key, i) && es[i].unit == Aggregate(policy, catalog, sel, cats, days).units[key];
  }

  /** When no cell selects a meal (every cell is missing, empty or
      "Nenhuma"), the list is empty, under either policy. */
  lemma NothingSelected(policy: Policy, catalog: Catalog, sel: Selections, cats: seq<string>, days: seq<string>)
    requires forall d, c :: d in days && c in cats ==> SelectedMeal(Lookup(sel, d, c)).None?
    ensures Aggregate(policy, catalog, sel, cats, days) == Empty
  {
    var list := Aggregate(policy, catalog, sel, cats, days);
    forall key ensures key !in list.totals {
      AggregateKeys(policy, catalog, sel, cats, days, key);
    }
    AccumulateKeys(WeekEntries(policy, catalog, sel, cats, days));
    assert list.totals.Keys == {} == list.units.Keys;
    assert list.totals == map[] && list.units == map[];
  }

  /** With the exclusion filter, a meal missing from the catalog contributes
      nothing either: cells that are missing, empty, "Nenhuma" or
      uncatalogued give an empty list. */
  lemma UncataloguedIgnored(terms: seq<string>, catalog: Catalog, sel: Selections, cats: seq<string>, days: seq<string>)
    requires forall d, c :: d in days && c in cats ==>
      SelectedMeal(Lookup(sel, d, c)).None? || SelectedMeal(Lookup(sel, d, c)).value !in catalog
    ensures Aggregate(ExclusionFilter(terms), catalog, sel, cats, days) == Empty
  {
    var list := Aggregate(ExclusionFilter(terms), catalog, sel, cats, days);
    forall key ensures key !in list.totals {
      AggregateKeys(ExclusionFilter(terms), catalog, sel, cats, days, key);
    }
    AccumulateKeys(WeekEntries(ExclusionFilter(terms), catalog, sel, cats, days));
    assert list.totals.Keys == {} == list.units.Keys;
    assert list.totals == map[] && list.units == map[];
  }

  // ---------------------------------------------------------------------------
  // The custom fallback of versao3.py

  /** The people of every cell that selects `meal`. */
  function DayPeopleFor(sel: Selections, day: string, cats: seq<string>, meal: string): int {
    if cats == [] then
      0
    else
      var cell := Lookup(sel, day, cats[|cats| - 1]);
      DayPeopleFor(sel, day, cats[..|cats| - 1], meal) + (if SelectedMeal(cell) == Some(meal) then People(cell) else 0)
  }

  function PeopleFor(sel: Selections, cats: seq<string>, days: seq<string>, meal: string): int {
    if days == [] then
      0
    else
      PeopleFor(sel, cats, days[..|days| - 1], meal) + DayPeopleFor(sel, days[|days| - 1], cats, meal)
  }

  lemma {:induction false} NoMatchingIngredient(policy: Policy, ings: seq<Ingredient>, key: string)
    requires forall ing :: ing in ings ==> Strip(ing.name) != key
    ensures IngredientQuantity(policy, ings, key) == 0
  {
    if ings != [] {
      NoMatchingIngredient(policy, ings[..|ings| - 1], key);
    }
  }

  lemma CustomCell(catalog: Catalog, cell: Cell, meal: string)
    requires meal !in catalog
    requires forall m, ing :: m in catalog && ing in catalog[m].ingredients ==> Strip(ing.name) != CustomKey(meal)
    ensures CellAmount(CustomFallback, catalog, cell, CustomKey(meal))
      == if SelectedMeal(cell) == Some(meal) then People(cell) else 0
  {
    match SelectedMeal(cell)
    case None =>
    case Some(m) =>
      if m in catalog {
        NoMatchingIngredient(CustomFallback, catalog[m].ingredients, CustomKey(meal));
      } else if CustomKey(m) == CustomKey(meal) {
        assert m == CustomKey(m)[..|m|] && meal == CustomKey(meal)[..|meal|];
      }
  }

  /** versao3.py: the custom item of an uncatalogued meal totals the people of
      every cell that selects it (unless a catalog ingredient happens to be
      named like the custom item). */
  lemma {:induction false} CustomTotal(catalog: Catalog, sel: Selections, cats: seq<string>, days: seq<string>, meal: string)
    requires meal !in catalog
    requires forall m, ing :: m in catalog && ing in catalog[m].ingredients ==> Strip(ing.name) != CustomKey(meal)
    ensures TotalOf(Aggregate(CustomFallback, catalog, sel, cats, days), CustomKey(meal)) == PeopleFor(sel, cats, days, meal)
  {
    AggregateTotal(CustomFallback, catalog, sel, cats, days, CustomKey(meal));
    CustomWeek(catalog, sel, cats, days, meal);
  }

  lemma {:induction false} CustomWeek(catalog: Catalog, sel: Selections, cats: seq<string>, days: seq<string>, meal: string)
    requires meal !in catalog
    requires forall m, ing :: m in catalog && ing in catalog[m].ingredients ==> Strip(ing.name) != CustomKey(meal)
    ensures WeekAmount(CustomFallback, catalog, sel, cats, days, CustomKey(meal)) == PeopleFor(sel, cats, days, meal)
  {
    if days != [] {
      CustomWeek(catalog, sel, cats, days[..|days| - 1], meal);
      CustomDay(catalog, sel, days[|days| - 1], cats, meal);
    }
  }

  lemma {:induction false} CustomDay(catalog: Catalog, sel: Selections, day: string, cats: seq<string>, meal: string)
    requires meal !in catalog
    requires forall m, ing :: m in catalog && ing in catalog[m].ingredients ==> Strip(ing.name) != CustomKey(meal)
    ensures DayAmount(CustomFallback, catalog, sel, day, cats, CustomKey(meal)) == DayPeopleFor(sel, day, cats, meal)
  {
    if cats != [] {
      CustomDay(catalog, sel, day, cats[..|cats| - 1], meal);
      CustomCell(catalog, Lookup(sel, day, cats[|cats| - 1]), meal);
    }
  }
}
