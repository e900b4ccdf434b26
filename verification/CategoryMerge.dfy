/**
 * The start-of-session merge of the base category lists (`REFEICOES_BASE`)
 * with the user's custom meal names read from the custom-meal store: a copy
 * of the base, where each known category's list gets the custom names it
 * does not already hold appended, in order. Categories the base does not
 * know are ignored. The base is a value here, so the merge cannot change it
 * (the source takes a `copy.deepcopy` for the same reason).
 */
module CategoryMerge {

  /** Category name to its ordered list of meal names. */
  type Menu = map<string, seq<string>>

  /** No name occurs twice. */
  predicate NoDuplicates(s: seq<string>) {
    forall i, j :: 0 <= i < j < |s| ==> s[i] != s[j]
  }

  /** `for prato in pratos: if prato not in lista: lista.append(prato)`. */
  function AppendNew(list: seq<string>, names: seq<string>): seq<string> {
    if names == [] then
      list
    else
      var acc := AppendNew(list, names[..|names| - 1]);
      var name := names[|names| - 1];
      if name in acc then acc else acc + [name]
  }

  /** The merge, one custom category at a time, in the store's order. */
  function Merge(base: Menu, custom: seq<(string, seq<string>)>): Menu {
    if custom == [] then
      base
    else
      var acc := Merge(base, custom[..|custom| - 1]);
      var (category, names) := custom[|custom| - 1];
      if category in acc then acc[category := AppendNew(acc[category], names)] else acc
  }

  /** Appending only new names keeps the list as a prefix, adds exactly the
      given names that are missing, and never adds a name already present. */
  lemma {:induction false} AppendNewLaws(list: seq<string>, names: seq<string>)
    ensures var r := AppendNew(list, names);
      && |list| <= |r| && r[..|list|] == list
      && (forall x :: x in r <==> x in list || x in names)
      && (forall i :: |list| <= i < |r| ==> r[i] !in r[..i])
  {
    if names != [] {
      var init := names[..|names| - 1];
      AppendNewLaws(list, init);
      var acc := AppendNew(list, init);
      var name := names[|names| - 1];
      assert names == init + [name];
      if name !in acc {
        var r := acc + [name];
        assert r[..|acc|] == acc;
        assert r[..|list|] == acc[..|list|];
        forall i | |list| <= i < |r| ensures r[i] !in r[..i] {
          if i < |acc| {
            assert r[..i] == acc[..i];
          }
        }
      }
    }
  }

  /** A list without duplicates stays without duplicates. */
  lemma AppendNewNoDuplicates(list: seq<string>, names: seq<string>)
    requires NoDuplicates(list)
    ensures NoDuplicates(AppendNew(list, names))
  {
    AppendNewLaws(list, names);
    var r := AppendNew(list, names);
    forall i, j | 0 <= i < j < |r| ensures r[i] != r[j] {
      if j < |list| {
        assert r[i] == list[i] && r[j] == list[j];
      } else {
        assert r[i] in r[..j];
      }
    }
  }

  /** Custom categories the base does not know never become categories. */
  lemma {:induction false} MergeKeys(base: Menu, custom: seq<(string, seq<string>)>)
    ensures Merge(base, custom).Keys == base.Keys
  {
    if custom != [] {
      MergeKeys(base, custom[..|custom| - 1]);
    }
  }

  /** For every base category, the merged list begins with the base list,
      holds exactly the base names and the custom names filed under that
      category, and every name after the base part was new when appended. */
  lemma {:induction false} MergeLaws(base: Menu, custom: seq<(string, seq<string>)>, category: string)
    requires category in base
    ensures category in Merge(base, custom)
    ensures var r := Merge(base, custom)[category];
      && |base[category]| <= |r| && r[..|base[category]|] == base[category]
      && (forall x :: x in r <==> x in base[category] ||
                                  exists i :: 0 <= i < |custom| && custom[i].0 == category && x in custom[i].1)
      && (forall i :: |base[category]| <= i < |r| ==> r[i] !in r[..i])
  {
    MergeKeys(base, custom);
    if custom != [] {
      var init := custom[..|custom| - 1];
      MergeLaws(base, init, category);
      MergeKeys(base, init);
      var acc := Merge(base, init);
      var (c, names) := custom[|custom| - 1];
      var b := base[category];
      if c == category {
        AppendNewLaws(acc[category], names);
        var r := AppendNew(acc[category], names);
        assert r[..|b|] == r[..|acc[category]|][..|b|];
        forall x ensures x in r <==> x in b || exists i :: 0 <= i < |custom| && custom[i].0 == category && x in custom[i].1 {
          if x in names {
            assert custom[|custom| - 1].0 == category && x in custom[|custom| - 1].1;
          }
          if exists i :: 0 <= i < |custom| && custom[i].0 == category && x in custom[i].1 {
            var i :| 0 <= i < |custom| && custom[i].0 == category && x in custom[i].1;
            if i < |custom| - 1 {
              assert init[i] == custom[i];
            }
          }
        }
        forall i | |b| <= i < |r| ensures r[i] !in r[..i] {
          if i < |acc[category]| {
            assert r[..i] == acc[category][..i];
          }
        }
      } else {
        forall x ensures x in acc[category] <==> x in b || exists i :: 0 <= i < |custom| && custom[i].0 == category && x in custom[i].1 {
          if exists i :: 0 <= i < |custom| && custom[i].0 == category && x in custom[i].1 {
            var i :| 0 <= i < |custom| && custom[i].0 == category && x in custom[i].1;
            assert i < |custom| - 1;
            assert init[i] == custom[i];
          }
        }
      }
    }
  }

  /** No merge introduces a duplicate into a base list that has none. */
  lemma MergeNoDuplicates(base: Menu, custom: seq<(string, seq<string>)>, category: string)
    requires category in base && NoDuplicates(base[category])
    ensures category in Merge(base, custom)
    ensures NoDuplicates(Merge(base, custom)[category])
  {
    MergeLaws(base, custom, category);
    var b := base[category];
    var r := Merge(base, custom)[category];
    forall i, j | 0 <= i < j < |r| ensures r[i] != r[j] {
      if j < |b| {
        assert r[i] == b[i] && r[j] == b[j];
      } else {
        assert r[i] in r[..j];
      }
    }
  }

  /** The session-start merge: copy the base, then append each custom name
      its known category does not hold yet. */
  method MergeCategories(base: Menu, custom: seq<(string, seq<string>)>) returns (merged: Menu)
    ensures merged == Merge(base, custom)
    ensures merged.Keys == base.Keys
    ensures forall c :: c in base ==> |base[c]| <= |merged[c]| && merged[c][..|base[c]|] == base[c]
  {
    merged := base;
    for i := 0 to |custom|
      invariant merged == Merge(base, custom[..i])
    {
      assert custom[..i + 1][..i] == custom[..i];
      var (category, names) := custom[i];
      if category in merged {
        ghost var before := merged;
        for j := 0 to |names|
          invariant merged == before[category := AppendNew(before[category], names[..j])]
        {
          assert names[..j + 1][..j] == names[..j];
          var name := names[j];
          if name !in merged[category] {
            merged := merged[category := merged[category] + [name]];
          }
        }
        assert names[..|names|] == names;
      }
    }
    assert custom[..|custom|] == custom;
    MergeKeys(base, custom);
    forall c | c in base ensures |base[c]| <= |merged[c]| && merged[c][..|base[c]|] == base[c] {
      MergeLaws(base, custom, c);
    }
  }
}
