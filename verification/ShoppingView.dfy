/**
 * The text of the shopping list, as the list panel and the PDF export show
 * it: one line per ingredient, in ascending name order (`sorted` over the
 * dictionary items), with the total rendered as a plain integer. Every total
 * is an integer here, so the branch that would format a fractional total
 * never applies.
 */
module ShoppingView {
  import opened Text
  import opened Sorting
  import opened Ledger

  /** What the list panel shows: a message, or one checkbox per item. */
  datatype Panel = Info(message: string) | Checklist(items: seq<string>, labels: seq<string>)

  /** The unit shown when an item has none recorded. */
  const DefaultUnit: string := "unidade(s)"

  /** `unidades.get(item, "unidade(s)")`. */
  function UnitOrDefault(units: map<string, string>, item: string): (unit: string)
    ensures item in units ==> unit == units[item]
    ensures item !in units ==> unit == DefaultUnit
  {
    if item in units then units[item] else DefaultUnit
  }

  /** The checkbox text of one line: `**<quantity> <unit>** de <item>`. */
  function CheckboxLabel(quantity: int, unit: string, item: string): string {
    "**" + IntToString(quantity) + " " + unit + "** de " + item
  }

  /** The PDF line of one item: a box, two spaces, then `<quantity> <unit> de <item>`. */
  function PdfLine(quantity: int, unit: string, item: string): string {
    "□  " + IntToString(quantity) + " " + unit + " de " + item
  }

  /** `items` lists every key of `totals` exactly once, in ascending order. */
  ghost predicate InListOrder(totals: map<string, int>, items: seq<string>) {
    StrictlySorted(items) && forall k :: k in items <==> k in totals
  }

  /** The checkbox labels of `items`, in order, each with the item's total
      and its unit (or the default unit). */
  function CheckboxLabels(list: ShoppingList, items: seq<string>): (labels: seq<string>)
    ensures |labels| == |items|
  {
    if items == [] then
      []
    else
      var item := items[|items| - 1];
      CheckboxLabels(list, items[..|items| - 1]) + [CheckboxLabel(TotalOf(list, item), UnitOrDefault(list.units, item), item)]
  }

  /** The PDF lines of `items`, likewise. */
  function PdfLines(list: ShoppingList, items: seq<string>): (lines: seq<string>)
    ensures |lines| == |items|
  {
    if items == [] then
      []
    else
      var item := items[|items| - 1];
      PdfLines(list, items[..|items| - 1]) + [PdfLine(TotalOf(list, item), UnitOrDefault(list.units, item), item)]
  }

  lemma {:induction false} CheckboxLabelsAt(list: ShoppingList, items: seq<string>)
    ensures forall i :: 0 <= i < |items| ==>
      CheckboxLabels(list, items)[i] == CheckboxLabel(TotalOf(list, items[i]), UnitOrDefault(list.units, items[i]), items[i])
  {
    if items != [] {
      var init := items[..|items| - 1];
      CheckboxLabelsAt(list, init);
      forall i | 0 <= i < |init| ensures CheckboxLabels(list, items)[i] == CheckboxLabels(list, init)[i] && items[i] == init[i] {
      }
    }
  }

  lemma {:induction false} PdfLinesAt(list: ShoppingList, items: seq<string>)
    ensures forall i :: 0 <= i < |items| ==>
      PdfLines(list, items)[i] == PdfLine(TotalOf(list, items[i]), UnitOrDefault(list.units, items[i]), items[i])
  {
    if items != [] {
      var init := items[..|items| - 1];
      PdfLinesAt(list, init);
      forall i | 0 <= i < |init| ensures PdfLines(list, items)[i] == PdfLines(list, init)[i] && items[i] == init[i] {
      }
    }
  }

  /** The checklist of a list: its items in list order, and one label per
      item with the item's total and its unit (or the default unit). */
  ghost predicate ChecklistOf(list: ShoppingList, items: seq<string>, labels: seq<string>) {
    && InListOrder(list.totals, items)
    && |labels| == |items|
    && forall i :: 0 <= i < |items| ==> labels[i] == CheckboxLabel(list.totals[items[i]], UnitOrDefault(list.units, items[i]), items[i])
  }

  /** The PDF item lines of a list, likewise. */
  ghost predicate PdfLinesOf(list: ShoppingList, items: seq<string>, lines: seq<string>) {
    && InListOrder(list.totals, items)
    && |lines| == |items|
    && forall i :: 0 <= i < |items| ==> lines[i] == PdfLine(list.totals[items[i]], UnitOrDefault(list.units, items[i]), items[i])
  }

  /** Labels built item by item, in list order, are the checklist. */
  lemma ChecklistFromLabels(list: ShoppingList, items: seq<string>)
    requires InListOrder(list.totals, items)
    ensures ChecklistOf(list, items, CheckboxLabels(list, items))
  {
    CheckboxLabelsAt(list, items);
  }

  lemma PdfLinesFromLines(list: ShoppingList, items: seq<string>)
    requires InListOrder(list.totals, items)
    ensures PdfLinesOf(list, items, PdfLines(list, items))
  {
    PdfLinesAt(list, items);
  }

  /** There is one such order only, so the lines of a list are determined by
      its dictionaries. */
  lemma ListOrderUnique(totals: map<string, int>, a: seq<string>, b: seq<string>)
    requires InListOrder(totals, a) && InListOrder(totals, b)
    ensures a == b
  {
    StrictlySortedUnique(a, b);
  }

  /** No item is listed twice. */
  lemma ListOrderDistinct(totals: map<string, int>, items: seq<string>, i: int, j: int)
    requires InListOrder(totals, items) && 0 <= i < j < |items|
    ensures items[i] != items[j]
  {
    LessIrreflexive(items[i]);
  }

  // ---------------------------------------------------------------------------
  // Reading the quantity back

  /** The position of the first space in `s`, or `|s|` when there is none. */
  function SpaceIndex(s: string): (n: nat)
    ensures n <= |s|
    ensures forall k :: 0 <= k < n ==> s[k] != ' '
    ensures n < |s| ==> s[n] == ' '
  {
    if s == [] || s[0] == ' ' then 0 else 1 + SpaceIndex(s[1..])
  }

  /** The word of `s` that starts at position `start`. */
  function WordAt(s: string, start: nat): string
    requires start <= |s|
  {
    s[start..][..SpaceIndex(s[start..])]
  }

  lemma {:induction false} SpaceAfterWord(word: string, rest: string)
    requires ' ' !in word && rest != [] && rest[0] == ' '
    ensures SpaceIndex(word + rest) == |word|
  {
    if word != [] {
      assert (word + rest)[0] == word[0];
      assert (word + rest)[1..] == word[1..] + rest;
      SpaceAfterWord(word[1..], rest);
    } else {
      assert word + rest == rest;
    }
  }

  lemma WordOf(prefix: string, word: string, rest: string)
    requires ' ' !in word && rest != [] && rest[0] == ' '
    ensures WordAt(prefix + word + rest, |prefix|) == word
  {
    var s := (prefix + word + rest)[|prefix|..];
    assert s == word + rest;
    SpaceAfterWord(word, rest);
    assert s[..|word|] == word;
  }

  lemma IntegerTextHasNoSpace(n: int)
    ensures ' ' !in IntToString(n)
  {
    IntToStringRoundTrip(n);
    var s := IntToString(n);
    assert !IsDigit(' ');
    forall k | 0 <= k < |s| ensures s[k] != ' ' {
      if s[0] == '-' && k > 0 {
        assert s[k] == s[1..][k - 1];
      }
    }
  }

  /** The quantity of a checkbox text is its first word after `**`, and it
      reads back as the total, with no fractional part. */
  lemma CheckboxQuantity(quantity: int, unit: string, item: string)
    ensures var shown := CheckboxLabel(quantity, unit, item);
      && shown[..2] == "**"
      && IsIntegerText(WordAt(shown, 2)) && '.' !in WordAt(shown, 2)
      && ParseInt(WordAt(shown, 2)) == quantity
  {
    var shown := CheckboxLabel(quantity, unit, item);
    IntegerTextHasNoSpace(quantity);
    IntToStringRoundTrip(quantity);
    assert shown == "**" + IntToString(quantity) + (" " + unit + "** de " + item);
    WordOf("**", IntToString(quantity), " " + unit + "** de " + item);
  }

  /** The same for a PDF line, whose quantity follows the box and two spaces. */
  lemma PdfQuantity(quantity: int, unit: string, item: string)
    ensures var line := PdfLine(quantity, unit, item);
      && line[..3] == "□  "
      && IsIntegerText(WordAt(line, 3)) && '.' !in WordAt(line, 3)
      && ParseInt(WordAt(line, 3)) == quantity
  {
    var line := PdfLine(quantity, unit, item);
    IntegerTextHasNoSpace(quantity);
    IntToStringRoundTrip(quantity);
    assert line == "□  " + IntToString(quantity) + (" " + unit + " de " + item);
    WordOf("□  ", IntToString(quantity), " " + unit + " de " + item);
  }
}
