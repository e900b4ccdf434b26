/**
 * versao3.py: the "Gerar Lista de Compras" button with the `(custom)`
 * fallback for meals missing from the catalog, and the list panel.
 */
module PlannerV3 {
  import opened Wrappers
  import opened Text
  import opened Sorting
  import opened Meals
  import opened Ledger
  import opened Aggregation
  import opened ShoppingView

  const PromptMessage: string := "Clique em 'Gerar Lista de Compras' para ver seus ingredientes."
  const EmptyMessage: string := "Nenhuma refeição selecionada."

  /** The inner loop over the ingredients of one selected catalog meal:
      each adds `quantity * people` under its stripped name, with its unit. */
  method AddMealIngredients(list: ShoppingList, ghost prefix: seq<Entry>, ings: seq<Ingredient>, pessoas: int)
    returns (result: ShoppingList)
    requires list == Accumulate(prefix)
    ensures result == Accumulate(prefix + IngredientEntries(CustomFallback, ings, pessoas))
  {
    result := list;
    assert prefix + [] == prefix;
    for i := 0 to |ings|
      invariant result == Accumulate(prefix + IngredientEntries(CustomFallback, ings[..i], pessoas))
    {
      var ing := ings[i];
      ghost var done := IngredientEntries(CustomFallback, ings[..i], pessoas);
      IngredientStep(CustomFallback, ings, i, pessoas);
      var e := Entry(Strip(ing.name), ing.quantity * pessoas, ing.unit);
      AccumulateSnoc(prefix + done, e);
      AppendAssociative(prefix, done, [e]);
      result := Add(result, e);
    }
    assert ings[..|ings|] == ings;
  }

  /** The button: for each day and category, a selected catalog meal adds
      `quantity * people` for each of its ingredients; a selected meal the
      catalog does not know adds `people` to `"<meal> (custom)"`, in
      `unidade(s)`. */
  method GenerateShoppingList(sel: Selections, cats: seq<string>, catalog: Catalog, days: seq<string>)
    returns (list: ShoppingList)
    ensures list == Aggregate(CustomFallback, catalog, sel, cats, days)
    ensures list.totals.Keys == list.units.Keys
  {
    list := Empty;
    ghost var policy := CustomFallback;
    for d := 0 to |days|
      invariant list == Accumulate(WeekEntries(policy, catalog, sel, cats, days[..d]))
    {
      var dia := days[d];
      ghost var before := WeekEntries(policy, catalog, sel, cats, days[..d]);
      assert before + [] == before;
      for c := 0 to |cats|
        invariant list == Accumulate(before + DayEntries(policy, catalog, sel, dia, cats[..c]))
      {
        ghost var prefix := before + DayEntries(policy, catalog, sel, dia, cats[..c]);
        var selecao := Lookup(sel, dia, cats[c]);
        var refeicao := selecao.meal;
        var pessoas := People(selecao);
        if refeicao.Some? && refeicao.value != "" && refeicao.value != NoMeal {
          if refeicao.value in catalog {
            CatalogCell(policy, catalog, selecao);
            list := AddMealIngredients(list, prefix, catalog[refeicao.value].ingredients, pessoas);
          } else {
            var e := Entry(CustomKey(refeicao.value), pessoas, CustomUnit);
            UncataloguedCell(catalog, selecao);
            AccumulateSnoc(prefix, e);
            list := Add(list, e);
          }
        } else {
          UnselectedCell(policy, catalog, selecao);
          assert prefix + [] == prefix;
        }
        DayStep(policy, catalog, sel, dia, cats, c);
        AppendAssociative(before, DayEntries(policy, catalog, sel, dia, cats[..c]), CellEntries(policy, catalog, selecao));
      }
      assert cats[..|cats|] == cats;
      WeekStep(policy, catalog, sel, cats, days, d);
    }
    assert days[..|days|] == days;
    AccumulateKeys(WeekEntries(policy, catalog, sel, cats, days));
  }

  /** Every item of a generated list has a unit, so the panel's direct
      `unidades[item]` lookup cannot fail. */
  lemma UnitLookupSafe(catalog: Catalog, sel: Selections, cats: seq<string>, days: seq<string>)
    ensures var list := Aggregate(CustomFallback, catalog, sel, cats, days);
      list.totals.Keys <= list.units.Keys
  {
    AccumulateKeys(WeekEntries(CustomFallback, catalog, sel, cats, days));
  }

  /** The list panel's loop over `sorted(ingredientes.items())`: one
      checkbox label per item, in ascending order, with the item's own unit. */
  method ChecklistLabels(list: ShoppingList) returns (items: seq<string>, labels: seq<string>)
    requires list.totals.Keys <= list.units.Keys
    ensures ChecklistOf(list, items, labels)
    ensures forall i :: 0 <= i < |items| ==> labels[i] == CheckboxLabel(list.totals[items[i]], list.units[items[i]], items[i])
  {
    items := SortedKeys(list.totals.Keys);
    labels := [];
    for i := 0 to |items|
      invariant labels == CheckboxLabels(list, items[..i])
    {
      var item := items[i];
      var unidade := list.units[item];
      var quantidade := list.totals[item];
      assert items[..i + 1][..i] == items[..i];
      labels := labels + [CheckboxLabel(quantidade, unidade, item)];
    }
    assert items[..|items|] == items;
    ChecklistFromLabels(list, items);
  }

  /** The list panel: a prompt before the first generation, a notice when
      the list is empty, the checklist otherwise. */
  method ShoppingPanel(state: Option<ShoppingList>) returns (panel: Panel)
    requires state.Some? ==> state.value.totals.Keys <= state.value.units.Keys
    ensures state.None? ==> panel == Info(PromptMessage)
    ensures state.Some? && state.value.totals == map[] ==> panel == Info(EmptyMessage)
    ensures state.Some? && state.value.totals != map[] ==>
      panel.Checklist? && ChecklistOf(state.value, panel.items, panel.labels)
  {
    if state.None? {
      panel := Info(PromptMessage);
    } else if state.value.totals == map[] {
      panel := Info(EmptyMessage);
    } else {
      var items, labels := ChecklistLabels(state.value);
      panel := Checklist(items, labels);
    }
  }
}
