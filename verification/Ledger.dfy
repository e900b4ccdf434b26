/**
 * The shopping-list accumulator shared by both aggregation versions: a
 * `defaultdict(float)` of totals (`aggregated_ingredients`) and a dict of
 * units (`unidades`). Each contribution is an `Entry`; adding one does
 * `totals[key] += amount` and `units[key] = unit`.
 */
module Ledger {

  /** One contribution: `key` gets `amount` more, and its unit becomes `unit`. */
  datatype Entry = Entry(key: string, amount: int, unit: string)

  /** The pair `(aggregated_ingredients, unidades)` kept as `lista_compras`. */
  datatype ShoppingList = ShoppingList(totals: map<string, int>, units: map<string, string>)

  const Empty := ShoppingList(map[], map[])

  /** `totals[key]` as the defaultdict reads it: 0 for a key never written. */
  function TotalOf(list: ShoppingList, key: string): int {
    if key in list.totals then list.totals[key] else 0
  }

  /** One `totals[key] += amount; units[key] = unit` step. */
  function Add(list: ShoppingList, e: Entry): ShoppingList {
    ShoppingList(list.totals[e.key := TotalOf(list, e.key) + e.amount], list.units[e.key := e.unit])
  }

  /** Some entry is for `key`. */
  predicate HasKey(es: seq<Entry>, key: string) {
    exists i :: 0 <= i < |es| && es[i].key == key
  }

  /** The entries added in order to an empty list. */
  function Accumulate(es: seq<Entry>): ShoppingList {
    if es == [] then
      Empty
    else
      var init := es[..|es| - 1];
      Add(Accumulate(init), es[|es| - 1])
  }

  /** Both dictionaries are written together, so they always have the same
      keys: exactly the keys of the entries. */
  lemma {:induction false} AccumulateKeys(es: seq<Entry>)
    ensures Accumulate(es).totals.Keys == Accumulate(es).units.Keys
    ensures forall k :: k in Accumulate(es).totals <==> HasKey(es, k)
  {
    if es != [] {
      var init := es[..|es| - 1];
      AccumulateKeys(init);
      forall k ensures HasKey(es, k) <==> HasKey(init, k) || es[|es| - 1].key == k {
        if HasKey(init, k) {
          var i :| 0 <= i < |init| && init[i].key == k;
          assert es[i] == init[i];
        }
        if HasKey(es, k) && es[|es| - 1].key != k {
          var i :| 0 <= i < |es| && es[i].key == k;
          assert init[i] == es[i];
        }
      }
    }
  }

  /** Regrouping a concatenation; a lemma so that the loops of the planners
      get the fact without proving it in their own context. */
  lemma AppendAssociative(a: seq<Entry>, b: seq<Entry>, c: seq<Entry>)
    ensures a + (b + c) == (a + b) + c
  {
  }

  /** Adding one more entry is one more `Add` step. */
  lemma AccumulateSnoc(es: seq<Entry>, e: Entry)
    ensures Accumulate(es + [e]) == Add(Accumulate(es), e)
  {
    assert (es + [e])[..|es|] == es;
  }

  /** The sum of the amounts of the entries for `key`. */
  function SumFor(es: seq<Entry>, key: string): int {
    if es == [] then 0 else (if es[0].key == key then es[0].amount else 0) + SumFor(es[1..], key)
  }

  lemma {:induction false} SumForAppend(a: seq<Entry>, b: seq<Entry>, key: string)
    ensures SumFor(a + b, key) == SumFor(a, key) + SumFor(b, key)
  {
    if a != [] {
      assert (a + b)[1..] == a[1..] + b;
      SumForAppend(a[1..], b, key);
    } else {
      assert a + b == b;
    }
  }

  /** Each total is the sum of everything added under its key. */
  lemma {:induction false} AccumulateTotal(es: seq<Entry>, key: string)
    ensures TotalOf(Accumulate(es), key) == SumFor(es, key)
  {
    if es != [] {
      var init := es[..|es| - 1];
      var last := es[|es| - 1];
      AccumulateTotal(init, key);
      assert es == init + [last];
      SumForAppend(init, [last], key);
    }
  }

  /** `i` is the last position of an entry for `key`. */
  predicate LastFor(es: seq<Entry>, key: string, i: int) {
    0 <= i < |es| && es[i].key == key && forall j :: i < j < |es| ==> es[j].key != key
  }

  /** Each unit is the one of the last entry for its key: later units
      overwrite earlier ones. */
  lemma {:induction false} AccumulateUnit(es: seq<Entry>, key: string)
    requires key in Accumulate(es).units
    ensures exists i :: LastFor(es, key, i) && es[i].unit == Accumulate(es).units[key]
  {
    assert es != [];
    var init := es[..|es| - 1];
    var last := es[|es| - 1];
    assert Accumulate(es) == Add(Accumulate(init), last);
    if last.key == key {
      assert LastFor(es, key, |es| - 1);
    } else {
      assert key in Accumulate(init).units;
      AccumulateUnit(init, key);
      var i :| LastFor(init, key, i) && init[i].unit == Accumulate(init).units[key];
      assert LastFor(es, key, i);
    }
  }

  /** Taking the entry at `i` out of `b` takes its amount out of the sum. */
  lemma SumForRemove(b: seq<Entry>, i: int, key: string)
    requires 0 <= i < |b|
    ensures SumFor(b, key) == SumFor(b[..i] + b[i + 1..], key) + (if b[i].key == key then b[i].amount else 0)
  {
    var tail := [b[i]] + b[i + 1..];
    assert b == b[..i] + tail;
    assert tail[1..] == b[i + 1..];
    SumForAppend(b[..i], tail, key);
    SumForAppend(b[..i], b[i + 1..], key);
  }

  /** Taking the same entry out of two permutations of each other leaves two
      permutations of each other. */
  lemma MultisetRemove(a: seq<Entry>, b: seq<Entry>, i: int)
    requires multiset(a) == multiset(b) && a != [] && 0 <= i < |b| && b[i] == a[0]
    ensures multiset(b[..i] + b[i + 1..]) == multiset(a[1..])
  {
    var x := a[0];
    var left, right := b[..i], b[i + 1..];
    assert b == left + [x] + right;
    assert multiset(b) == multiset(left) + multiset{x} + multiset(right);
    assert a == [x] + a[1..];
    assert multiset(a) == multiset{x} + multiset(a[1..]);
    assert multiset(left + right) == multiset(left) + multiset(right);
    forall y ensures multiset(left + right)[y] == multiset(a[1..])[y] {
      assert multiset(a)[y] == multiset(b)[y];
    }
  }

  /** Totals do not depend on the order of the entries: a permutation of the
      entries gives the same sum for every key. */
  lemma {:induction false} SumForPermutation(a: seq<Entry>, b: seq<Entry>, key: string)
    requires multiset(a) == multiset(b)
    ensures SumFor(a, key) == SumFor(b, key)
    decreases |a|
  {
    if a != [] {
      assert a[0] in multiset(b);
      var i :| 0 <= i < |b| && b[i] == a[0];
      MultisetRemove(a, b, i);
      SumForPermutation(a[1..], b[..i] + b[i + 1..], key);
      SumForRemove(b, i, key);
    } else {
      assert |b| == |multiset(b)| == 0;
    }
  }
}
