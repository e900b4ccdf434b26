/**
 * Python's ordering of strings (lexicographic by code point) and the two uses
 * of `sorted` in the planner: sorting a list of meal names, and iterating a
 * dictionary's items in key order.
 */
module Sorting {

  /** Python's `a < b` on `str`: code-point lexicographic order, a proper
      prefix coming first. */
  predicate Less(a: string, b: string) {
    if |a| == 0 then |b| > 0
    else if |b| == 0 then false
    else if a[0] != b[0] then a[0] < b[0]
    else Less(a[1..], b[1..])
  }

  lemma LessIrreflexive(a: string)
    ensures !Less(a, a)
  {
  }

  lemma LessTransitive(a: string, b: string, c: string)
    requires Less(a, b) && Less(b, c)
    ensures Less(a, c)
  {
  }

  lemma LessTotal(a: string, b: string)
    ensures a == b || Less(a, b) || Less(b, a)
  {
    if |a| > 0 && |b| > 0 && a[0] == b[0] {
      LessTotal(a[1..], b[1..]);
      if a[1..] == b[1..] {
        assert a == [a[0]] + a[1..] && b == [b[0]] + b[1..];
      }
    }
  }

  lemma LessAsymmetric(a: string, b: string)
    requires Less(a, b)
    ensures !Less(b, a)
  {
  }

  lemma NotLessTransitive(a: string, b: string, c: string)
    requires !Less(a, b) && !Less(b, c)
    ensures !Less(a, c)
  {
    LessTotal(a, b);
    LessTotal(b, c);
    if a != b && b != c {
      LessTransitive(c, b, a);
      LessAsymmetric(c, a);
    }
  }

  /** Non-decreasing in Python's order (duplicates allowed). */
  predicate Sorted(s: seq<string>) {
    forall i, j {:trigger Less(s[j], s[i])} :: 0 <= i < j < |s| ==> !Less(s[j], s[i])
  }

  /** Strictly increasing: sorted and without duplicates. */
  predicate StrictlySorted(s: seq<string>) {
    forall i, j {:trigger Less(s[i], s[j])} :: 0 <= i < j < |s| ==> Less(s[i], s[j])
  }

  /** Inserts `x` into a sorted sequence, before the first element not less than it. */
  function Insert(s: seq<string>, x: string): (r: seq<string>)
    ensures multiset(r) == multiset(s) + multiset{x}
    ensures |r| == |s| + 1
  {
    if s == [] || !Less(s[0], x) then
      [x] + s
    else
      assert s == [s[0]] + s[1..];
      [s[0]] + Insert(s[1..], x)
  }

  lemma {:induction false} InsertSorted(s: seq<string>, x: string)
    requires Sorted(s)
    ensures Sorted(Insert(s, x))
  {
    var r := Insert(s, x);
    if s == [] || !Less(s[0], x) {
      forall i, j | 0 <= i < j < |r| ensures !Less(r[j], r[i]) {
        if i == 0 && j > 1 {
          // r[j] == s[j - 1] is not before s[0], which is not before x
          NotLessTransitive(s[j - 1], s[0], x);
        }
      }
    } else {
      InsertSorted(s[1..], x);
      var t := Insert(s[1..], x);
      forall i, j | 0 <= i < j < |r| ensures !Less(r[j], r[i]) {
        if i == 0 {
          // every element of t is s[k] for some k >= 1, or x itself
          assert r[j] in multiset(t);
          assert r[j] in multiset(s[1..]) || r[j] == x;
          if r[j] == x {
            LessAsymmetric(s[0], x);
          } else {
            var k :| 0 <= k < |s[1..]| && s[1..][k] == r[j];
            assert s[k + 1] == r[j];
          }
        }
      }
    }
  }

  lemma {:induction false} InsertStrictlySorted(s: seq<string>, x: string)
    requires StrictlySorted(s) && x !in s
    ensures StrictlySorted(Insert(s, x))
  {
    var r := Insert(s, x);
    if s == [] || !Less(s[0], x) {
      if s != [] { LessTotal(s[0], x); }
      forall i, j | 0 <= i < j < |r| ensures Less(r[i], r[j]) {
        if i == 0 && j > 1 {
          LessTransitive(x, s[0], s[j - 1]);
        }
      }
    } else {
      InsertStrictlySorted(s[1..], x);
      var t := Insert(s[1..], x);
      forall i, j | 0 <= i < j < |r| ensures Less(r[i], r[j]) {
        if i == 0 {
          assert r[j] in multiset(t);
          assert r[j] in multiset(s[1..]) || r[j] == x;
          if r[j] != x {
            var k :| 0 <= k < |s[1..]| && s[1..][k] == r[j];
            assert s[k + 1] == r[j];
          }
        }
      }
    }
  }

  /** Python's `sorted(xs)` on a list of strings: the same strings, as a
      multiset, in non-decreasing order. */
  function SortStrings(xs: seq<string>): (r: seq<string>)
    ensures multiset(r) == multiset(xs) && |r| == |xs|
    ensures Sorted(r)
  {
    if xs == [] then
      []
    else
      var rest := SortStrings(xs[..|xs| - 1]);
      InsertSorted(rest, xs[|xs| - 1]);
      assert xs == xs[..|xs| - 1] + [xs[|xs| - 1]];
      Insert(rest, xs[|xs| - 1])
  }

  /** The keys of a dictionary in the order `sorted(d.items())` visits them:
      every key once, in strictly increasing order. */
  method SortedKeys(keys: set<string>) returns (items: seq<string>)
    ensures StrictlySorted(items)
    ensures forall k :: k in items <==> k in keys
  {
    items := [];
    var rest := keys;
    while rest != {}
      invariant rest <= keys
      invariant StrictlySorted(items)
      invariant forall k :: k in items <==> k in keys && k !in rest
      decreases rest
    {
      var k :| k in rest;
      InsertStrictlySorted(items, k);
      assert forall y :: y in Insert(items, k) <==> y in multiset(items) + multiset{k};
      items := Insert(items, k);
      rest := rest - {k};
    }
  }

  /** Two strictly increasing sequences with the same elements are equal, so
      the order in which `SortedKeys` picks keys does not matter. */
  lemma {:induction false} StrictlySortedUnique(a: seq<string>, b: seq<string>)
    requires StrictlySorted(a) && StrictlySorted(b)
    requires forall k :: k in a <==> k in b
    ensures a == b
  {
    if a != [] { assert a[0] in b; }
    if b != [] { assert b[0] in a; }
    if a != [] && b != [] {
      // both heads are the least element of the common set
      assert a[0] in b && b[0] in a;
      if a[0] != b[0] {
        var i :| 0 <= i < |b| && b[i] == a[0];
        var j :| 0 <= j < |a| && a[j] == b[0];
        LessAsymmetric(a[0], b[0]);
      }
      forall k ensures k in a[1..] <==> k in b[1..] {
        if k in a[1..] {
          var i :| 1 <= i < |a| && a[i] == k;
          LessIrreflexive(a[0]);
          assert k != a[0] && k in a;
          var j :| 0 <= j < |b| && b[j] == k;
          assert j != 0;
          assert b[1..][j - 1] == k;
        }
        if k in b[1..] {
          var i :| 1 <= i < |b| && b[i] == k;
          LessIrreflexive(b[0]);
          assert k in b;
          var j :| 0 <= j < |a| && a[j] == k;
          assert j != 0;
          assert a[1..][j - 1] == k;
        }
      }
      StrictlySortedUnique(a[1..], b[1..]);
      assert a == [a[0]] + a[1..] && b == [b[0]] + b[1..];
    }
  }
}
