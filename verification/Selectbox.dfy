/**
 * The meal selectbox of each (day, category) cell: its options are
 * "Nenhuma" followed by the labels of the category's meals in sorted order;
 * its initial index is the position of the label of the cell's current meal,
 * or 0 when that label is not among the options. The chosen option is written
 * back to the cell through `parse_label`.
 */
module Selectbox {
  import opened Wrappers
  import opened Sorting
  import opened Meals
  import opened LabelCodec

  /** `["Nenhuma"] + [format_label(o) for o in sorted(opcoes)]`. */
  function SelectOptions(catalog: Catalog, opcoes: seq<string>): (options: seq<string>)
    ensures |options| == |opcoes| + 1 && options[0] == NoMeal
    ensures forall i :: 0 <= i < |opcoes| ==> options[i + 1] == FormatLabel(catalog, SortStrings(opcoes)[i])
  {
    var sorted := SortStrings(opcoes);
    [NoMeal] + seq(|sorted|, i requires 0 <= i < |sorted| => FormatLabel(catalog, sorted[i]))
  }

  /** The position of the first occurrence of `x` in `xs`, `|xs|` when there is none. */
  function FirstIndex(xs: seq<string>, x: string): (i: nat)
    ensures i <= |xs|
    ensures i < |xs| ==> xs[i] == x
    ensures forall j :: 0 <= j < i ==> xs[j] != x
  {
    if xs == [] || xs[0] == x then 0 else 1 + FirstIndex(xs[1..], x)
  }

  /** `options.index(current) if current in options else 0`. */
  function SelectIndex(options: seq<string>, current: string): nat {
    var i := FirstIndex(options, current);
    if i < |options| then i else 0
  }

  /** The label the selectbox starts from: the current meal's label, with a
      missing meal read as "Nenhuma". */
  function CurrentLabel(catalog: Catalog, cell: Cell): string {
    FormatLabel(catalog, cell.meal.GetOr(NoMeal))
  }

  /** The index is always a valid position. It points at the first option
      equal to the current label when there is one, and at "Nenhuma"
      otherwise. */
  lemma SelectIndexValid(catalog: Catalog, opcoes: seq<string>, cell: Cell)
    ensures var options := SelectOptions(catalog, opcoes);
      var idx := SelectIndex(options, CurrentLabel(catalog, cell));
      && 0 <= idx < |options|
      && (CurrentLabel(catalog, cell) in options ==>
            options[idx] == CurrentLabel(catalog, cell) && forall j :: 0 <= j < idx ==> options[j] != options[idx])
      && (CurrentLabel(catalog, cell) !in options ==> idx == 0 && options[idx] == NoMeal)
  {
    var options := SelectOptions(catalog, opcoes);
    var current := CurrentLabel(catalog, cell);
    if current in options {
      var k :| 0 <= k < |options| && options[k] == current;
      assert FirstIndex(options, current) <= k;
    }
  }

  /** A meal listed in its category is among the options, as its label. */
  lemma ListedMealOffered(catalog: Catalog, opcoes: seq<string>, meal: string)
    requires meal in opcoes
    ensures FormatLabel(catalog, meal) in SelectOptions(catalog, opcoes)
  {
    var sorted := SortStrings(opcoes);
    assert meal in multiset(sorted);
    var k :| 0 <= k < |sorted| && sorted[k] == meal;
    assert SelectOptions(catalog, opcoes)[k + 1] == FormatLabel(catalog, meal);
  }

  /** Conversely, every option after "Nenhuma" is the label of a meal listed
      in the category. */
  lemma OfferedMealListed(catalog: Catalog, opcoes: seq<string>, i: int)
    requires 0 < i < |SelectOptions(catalog, opcoes)|
    ensures exists meal :: meal in opcoes && SelectOptions(catalog, opcoes)[i] == FormatLabel(catalog, meal)
  {
    var sorted := SortStrings(opcoes);
    assert sorted[i - 1] in multiset(opcoes);
  }

  /** Rerunning the page keeps a cell's choice: when the current meal is
      listed in its category and is a catalog meal, or has no annotation of
      its own, the option the selectbox starts from reads back, through
      `parse_label`, as that very meal. */
  lemma SelectionSurvivesRerun(catalog: Catalog, opcoes: seq<string>, meal: string)
    requires meal in opcoes
    requires meal in catalog || !EndsWithAnnotation(meal)
    ensures var options := SelectOptions(catalog, opcoes);
      ParseLabel(options[SelectIndex(options, FormatLabel(catalog, meal))]) == meal
  {
    var options := SelectOptions(catalog, opcoes);
    ListedMealOffered(catalog, opcoes, meal);
    SelectIndexValid(catalog, opcoes, Cell(Some(meal), None));
    if meal in catalog {
      CatalogLabelRoundTrip(catalog, meal);
    } else {
      OtherLabelRoundTrip(catalog, meal);
    }
  }

  /** A cell with no meal yet starts at "Nenhuma", and choosing it writes
      "Nenhuma" back (unless the catalog itself names a meal "Nenhuma"). */
  lemma EmptyCellStartsAtNoMeal(catalog: Catalog, opcoes: seq<string>)
    requires NoMeal !in catalog
    ensures var options := SelectOptions(catalog, opcoes);
      var idx := SelectIndex(options, CurrentLabel(catalog, Cell(None, None)));
      idx == 0 && ParseLabel(options[idx]) == NoMeal
  {
    var options := SelectOptions(catalog, opcoes);
    assert options[0] == NoMeal;
    assert FirstIndex(options, NoMeal) == 0;
    assert !EndsWithAnnotation(NoMeal) by {
      forall k | 0 <= k <= |NoMeal| ensures !IsAnnotation(NoMeal[k..]) {
        NotAnAnnotation(NoMeal[k..]);
      }
    }
    OtherLabelRoundTrip(catalog, NoMeal);
  }
}
