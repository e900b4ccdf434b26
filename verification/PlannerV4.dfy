/**
 * versao4.py: the "Gerar Lista de Compras" button with the exclusion filter,
 * and the list panel and PDF lines that show its result.
 */
module PlannerV4 {
  import opened Wrappers
  import opened Text
  import opened Sorting
  import opened Meals
  import opened Ledger
  import opened Aggregation
  import opened ShoppingView

  const PromptMessage: string := "Clique em 'Gerar Lista de Compras' na barra lateral para ver seus ingredientes."
  const EmptyMessage: string := "A lista de compras está vazia. Os itens selecionados já foram filtrados ou não precisam de compra (ex: itens do RU, arroz, feijão)."

  /** The inner loop over the ingredients of one selected catalog meal:
      each one no term excludes adds `quantity * people` under its stripped
      name, with its unit; the others are skipped. */
  method AddMealIngredients(list: ShoppingList, ghost prefix: seq<Entry>, ings: seq<Ingredient>, pessoas: int, terms: seq<string>)
    returns (result: ShoppingList)
    requires list == Accumulate(prefix)
    ensures result == Accumulate(prefix + IngredientEntries(ExclusionFilter(terms), ings, pessoas))
  {
    result := list;
    ghost var policy := ExclusionFilter(terms);
    assert prefix + [] == prefix;
    for i := 0 to |ings|
      invariant result == Accumulate(prefix + IngredientEntries(policy, ings[..i], pessoas))
    {
      var ing := ings[i];
      ghost var done := IngredientEntries(policy, ings[..i], pessoas);
      IngredientStep(policy, ings, i, pessoas);
      if !IsExcluded(ing, terms) {
        var e := Entry(Strip(ing.name), ing.quantity * pessoas, ing.unit);
        AccumulateSnoc(prefix + done, e);
        AppendAssociative(prefix, done, [e]);
        result := Add(result, e);
      } else {
        assert done + [] == done;
      }
    }
    assert ings[..|ings|] == ings;
  }

  /** The button: for each day, each category, each ingredient of the
      selected catalog meal that no term excludes, `totals[key] += quantity *
      people` and `units[key] = unit`. The button passes
      `ShoppingListExclusions` as `terms`. */
  method GenerateShoppingList(sel: Selections, cats: seq<string>, catalog: Catalog, days: seq<string>, terms: seq<string>)
    returns (list: ShoppingList)
    ensures list == Aggregate(ExclusionFilter(terms), catalog, sel, cats, days)
    ensures list.totals.Keys == list.units.Keys
  {
    list := Empty;
    ghost var policy := ExclusionFilter(terms);
    for d := 0 to |days|
      invariant list == Accumulate(WeekEntries(policy, catalog, sel, cats, days[..d]))
    {
      var dia := days[d];
      ghost var before := WeekEntries(policy, catalog, sel, cats, days[..d]);
      assert before + [] == before;
      for c := 0 to |cats|
        invariant list == Accumulate(before + DayEntries(policy, catalog, sel, dia, cats[..c]))
      {
        ghost var prefix := before + DayEntries(policy, catalog, sel, dia, cats[..c]);
        var selecao := Lookup(sel, dia, cats[c]);
        var refeicao := selecao.meal;
        var pessoas := People(selecao);
        if refeicao.Some? && refeicao.value != "" && refeicao.value != NoMeal && refeicao.value in catalog {
          CatalogCell(policy, catalog, selecao);
          list := AddMealIngredients(list, prefix, catalog[refeicao.value].ingredients, pessoas, terms);
        } else {
          NoCatalogCell(terms, catalog, selecao);
          assert prefix + [] == prefix;
        }
        DayStep(policy, catalog, sel, dia, cats, c);
        AppendAssociative(before, DayEntries(policy, catalog, sel, dia, cats[..c]), CellEntries(policy, catalog, selecao));
      }
      assert cats[..|cats|] == cats;
      WeekStep(policy, catalog, sel, cats, days, d);
    }
    assert days[..|days|] == days;
    AccumulateKeys(WeekEntries(policy, catalog, sel, cats, days));
  }

  /** The list panel's loop over `sorted(ingredientes.items())`: one
      checkbox label per item, in ascending order, the unit defaulting to
      `unidade(s)`. */
  method ChecklistLabels(list: ShoppingList) returns (items: seq<string>, labels: seq<string>)
    ensures ChecklistOf(list, items, labels)
  {
    items := SortedKeys(list.totals.Keys);
    labels := [];
    for i := 0 to |items|
      invariant labels == CheckboxLabels(list, items[..i])
    {
      var item := items[i];
      var unidade := UnitOrDefault(list.units, item);
      var quantidade := list.totals[item];
      assert items[..i + 1][..i] == items[..i];
      labels := labels + [CheckboxLabel(quantidade, unidade, item)];
    }
    assert items[..|items|] == items;
    ChecklistFromLabels(list, items);
  }

  /** The item lines of the PDF export, in the same order. */
  method PdfItemLines(list: ShoppingList) returns (items: seq<string>, lines: seq<string>)
    ensures PdfLinesOf(list, items, lines)
  {
    items := SortedKeys(list.totals.Keys);
    lines := [];
    for i := 0 to |items|
      invariant lines == PdfLines(list, items[..i])
    {
      var item := items[i];
      var unidade := UnitOrDefault(list.units, item);
      var quantidade := list.totals[item];
      assert items[..i + 1][..i] == items[..i];
      lines := lines + [PdfLine(quantidade, unidade, item)];
    }
    assert items[..|items|] == items;
    PdfLinesFromLines(list, items);
  }

  /** The list panel: a prompt before the first generation, a notice when
      the list is empty, the checklist otherwise. */
  method ShoppingPanel(state: Option<ShoppingList>) returns (panel: Panel)
    ensures state.None? ==> panel == Info(PromptMessage)
    ensures state.Some? && state.value.totals == map[] ==> panel == Info(EmptyMessage)
    ensures state.Some? && state.value.totals != map[] ==>
      panel.Checklist? && ChecklistOf(state.value, panel.items, panel.labels)
  {
    if state.None? {
      panel := Info(PromptMessage);
    } else if state.value.totals == map[] {
      panel := Info(EmptyMessage);
    } else {
      var items, labels := ChecklistLabels(state.value);
      panel := Checklist(items, labels);
    }
  }
}
