/**
 * The selectbox labels: `format_label` appends a calorie annotation
 * ` (~N kcal)` to a catalog meal's name, and `parse_label` removes it again
 * with `re.sub(r'\s\(~\d+\s+kcal\)$', '', label)`.
 */
module LabelCodec {
  import opened Text
  import opened Meals

  /** `a` has the shape of the pattern `\s\(~\d+\s+kcal\)` matched up to the
      end: one whitespace character, `(~`, the digits `a[3..i]`, the
      whitespace `a[i..j]` and `kcal)`. */
  predicate AnnotationShape(a: string, i: nat, j: nat) {
    && 3 < i < j
    && j + 5 == |a|
    && IsSpace(a[0]) && a[1] == '(' && a[2] == '~'
    && (forall k :: 3 <= k < i ==> IsDigit(a[k]))
    && (forall k :: i <= k < j ==> IsSpace(a[k]))
    && a[j..] == "kcal)"
  }

  /** `a` is, as a whole, a calorie annotation. */
  ghost predicate IsAnnotation(a: string) {
    exists i: nat, j: nat :: AnnotationShape(a, i, j)
  }

  /** `s` ends with a calorie annotation, so the pattern matches `s`. */
  ghost predicate EndsWithAnnotation(s: string) {
    exists k :: 0 <= k <= |s| && IsAnnotation(s[k..])
  }

  /** An annotation always ends with `)`, so a string that does not is none. */
  lemma NotAnAnnotation(a: string)
    requires a == [] || a[|a| - 1] != ')'
    ensures !IsAnnotation(a)
  {
  }

  /** `format_label`: a catalog meal gets ` (~<calories> kcal)` appended; any
      other name (a custom meal, the sentinel "Nenhuma") is left as it is. */
  function FormatLabel(catalog: Catalog, meal: string): (display: string)
    ensures meal in catalog ==> |display| > |meal| && display[..|meal|] == meal && IsAnnotation(display[|meal|..])
    ensures meal !in catalog ==> display == meal
  {
    if meal in catalog then
      var digits := NatToString(catalog[meal].calories);
      var display := meal + " (~" + digits + " kcal)";
      assert AnnotationShape(display[|meal|..], 3 + |digits|, 4 + |digits|);
      display
    else
      meal
  }

  /** The number a catalog meal's label shows is the meal's calories: the
      label is the name, ` (~`, the decimal digits of the calories with no
      leading zero, and ` kcal)`. */
  lemma FormatLabelCalories(catalog: Catalog, meal: string)
    requires meal in catalog
    ensures var d := FormatLabel(catalog, meal);
      && |meal| + 3 < |d| - 6
      && d[..|meal|] == meal && d[|meal|..|meal| + 3] == " (~" && d[|d| - 6..] == " kcal)"
      && AllDigits(d[|meal| + 3..|d| - 6])
      && DigitsValue(d[|meal| + 3..|d| - 6]) == catalog[meal].calories
      && (d[|meal| + 3] != '0' || catalog[meal].calories == 0)
  {
    var digits := NatToString(catalog[meal].calories);
    var d := FormatLabel(catalog, meal);
    assert d == meal + " (~" + digits + " kcal)";
    assert d[|meal| + 3..|d| - 6] == digits;
    assert d[|meal| + 3] == digits[0];
    NatToStringRoundTrip(catalog[meal].calories);
  }

  /** The length of the annotation `s` ends with, 0 when it has none: the
      pattern read backwards from the end, `kcal)`, whitespace, digits, `(~`
      and one whitespace character. */
  function AnnotationLength(s: string): (n: nat)
    ensures n <= |s|
    ensures n > 0 ==> IsAnnotation(s[|s| - n..])
  {
    if |s| < 5 || s[|s| - 5..] != "kcal)" then
      0
    else
      var e := |s| - 5;
      var w := TrailingRun(s[..e], IsSpace);
      var d := TrailingRun(s[..e - w], IsDigit);
      var start := e - w - d - 3;
      if w == 0 || d == 0 || start < 0 || !IsSpace(s[start]) || s[start + 1] != '(' || s[start + 2] != '~' then
        0
      else
        AnnotationAt(s, start, d, w);
        |s| - start
  }

  /** The backward scan of `AnnotationLength`, restated on `s` itself. */
  lemma AnnotationAt(s: string, start: nat, d: nat, w: nat)
    requires start + 3 + d + w + 5 == |s| && d > 0 && w > 0
    requires IsSpace(s[start]) && s[start + 1] == '(' && s[start + 2] == '~'
    requires w == TrailingRun(s[..|s| - 5], IsSpace)
    requires d == TrailingRun(s[..|s| - 5 - w], IsDigit)
    requires s[|s| - 5..] == "kcal)"
    ensures IsAnnotation(s[start..])
  {
    var a := s[start..];
    TrailingRunLaws(s[..|s| - 5], IsSpace);
    TrailingRunLaws(s[..|s| - 5 - w], IsDigit);
    assert AnnotationShape(a, 3 + d, 3 + d + w) by {
      forall k | 3 <= k < 3 + d ensures IsDigit(a[k]) {
        assert a[k] == s[..|s| - 5 - w][start + k];
      }
      forall k | 3 + d <= k < 3 + d + w ensures IsSpace(a[k]) {
        assert a[k] == s[..|s| - 5][start + k];
      }
      assert a[3 + d + w..] == s[|s| - 5..];
    }
  }

  /** `parse_label`: drops the calorie annotation the label ends with, and
      returns any other string unchanged. */
  function ParseLabel(display: string): (meal: string)
    ensures |meal| <= |display| && meal == display[..|meal|]
    ensures meal != display ==> IsAnnotation(display[|meal|..])
  {
    display[..|display| - AnnotationLength(display)]
  }

  /** The whitespace before `kcal)` is the run `a[i..j]`. */
  lemma SpaceRun(prefix: string, a: string, i: nat, j: nat)
    requires AnnotationShape(a, i, j)
    ensures TrailingRun((prefix + a)[..|prefix| + j], IsSpace) == j - i
  {
    var u := prefix + a[..i];
    assert (prefix + a)[..|prefix| + j] == u + a[i..j];
    assert u[|u| - 1] == a[i - 1];
    TrailingRunOf(u, a[i..j], IsSpace);
  }

  /** The digits before that are the run `a[3..i]`. */
  lemma DigitRun(prefix: string, a: string, i: nat, j: nat)
    requires AnnotationShape(a, i, j)
    ensures TrailingRun((prefix + a)[..|prefix| + i], IsDigit) == i - 3
  {
    var v := prefix + a[..3];
    assert (prefix + a)[..|prefix| + i] == v + a[3..i];
    assert v[|v| - 1] == '~';
    TrailingRunOf(v, a[3..i], IsDigit);
  }

  /** The accepting branch of the backward scan, for an annotation that
      starts at `start` and has its digits end at `start + i` and its
      whitespace at `start + j`. */
  lemma AnnotationFound(s: string, start: nat, i: nat, j: nat)
    requires 3 < i < j && start + j + 5 == |s|
    requires s[|s| - 5..] == "kcal)"
    requires TrailingRun(s[..start + j], IsSpace) == j - i
    requires TrailingRun(s[..start + i], IsDigit) == i - 3
    requires IsSpace(s[start]) && s[start + 1] == '(' && s[start + 2] == '~'
    ensures AnnotationLength(s) == |s| - start
  {
    assert s[..|s| - 5] == s[..start + j];
    assert |s| - 5 - (j - i) == start + i;
  }

  /** The backward scan finds exactly the annotation a string ends with. */
  lemma AnnotationScan(prefix: string, a: string, i: nat, j: nat)
    requires AnnotationShape(a, i, j)
    ensures AnnotationLength(prefix + a) == |a|
  {
    var s := prefix + a;
    SpaceRun(prefix, a, i, j);
    DigitRun(prefix, a, i, j);
    assert s[|s| - 5..] == a[j..];
    assert s[|prefix|] == a[0] && s[|prefix| + 1] == a[1] && s[|prefix| + 2] == a[2];
    AnnotationFound(s, |prefix|, i, j);
  }

  /** Whatever precedes an annotation is exactly what `parse_label` keeps: the
      pattern has one match at most, and it is the whole annotation. */
  lemma ParseLabelStrips(prefix: string, a: string)
    requires IsAnnotation(a)
    ensures ParseLabel(prefix + a) == prefix
  {
    var i: nat, j: nat :| AnnotationShape(a, i, j);
    AnnotationScan(prefix, a, i, j);
    assert (prefix + a)[..|prefix|] == prefix;
  }

  /** The round trip of a catalog meal: `parse_label(format_label(m)) == m`. */
  lemma CatalogLabelRoundTrip(catalog: Catalog, meal: string)
    requires meal in catalog
    ensures ParseLabel(FormatLabel(catalog, meal)) == meal
  {
    var display := FormatLabel(catalog, meal);
    assert display == meal + display[|meal|..];
    ParseLabelStrips(meal, display[|meal|..]);
  }

  /** A name outside the catalog survives the round trip exactly when it does
      not itself end with something shaped like a calorie annotation. */
  lemma OtherLabelRoundTrip(catalog: Catalog, meal: string)
    requires meal !in catalog
    ensures ParseLabel(FormatLabel(catalog, meal)) == meal <==> !EndsWithAnnotation(meal)
  {
    if EndsWithAnnotation(meal) {
      var k :| 0 <= k <= |meal| && IsAnnotation(meal[k..]);
      assert meal == meal[..k] + meal[k..];
      ParseLabelStrips(meal[..k], meal[k..]);
      var i: nat, j: nat :| AnnotationShape(meal[k..], i, j);
    }
  }
}
