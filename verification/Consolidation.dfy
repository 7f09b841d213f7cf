/** Merging records that share a key, as all four stages of the memory pipeline do it: a map from keys to
    the record merged so far, filled in one pass. The reference definition groups first and folds each
    group afterwards. */
module Consolidation {
  import opened Sequences
  import opened OrderedMaps

  function HasKey<T>(key: T -> string, k: string): T -> bool {
    x => key(x) == k
  }

  function Group<T>(items: seq<T>, key: T -> string, k: string): seq<T> {
    Filter(items, HasKey(key, k))
  }

  function Fold<T>(group: seq<T>, merge: (T, T) -> T): T
    requires group != []
  {
    if |group| == 1 then group[0] else merge(Fold(DropLast(group), merge), Last(group))
  }

  function KeysOf<T>(items: seq<T>, key: T -> string): seq<string> {
    Dedupe(Map(items, key))
  }

  function Consolidated<T(!new)>(items: seq<T>, key: T -> string, merge: (T, T) -> T): (r: seq<T>)
    ensures |r| == |KeysOf(items, key)|
    ensures forall i :: 0 <= i < |r| ==>
              Group(items, key, KeysOf(items, key)[i]) != []
              && r[i] == Fold(Group(items, key, KeysOf(items, key)[i]), merge)
  {
    GroupsInhabited(items, key);
    var keys := KeysOf(items, key);
    seq(|keys|, i requires 0 <= i < |keys|
        && Group(items, key, keys[i]) != [] => Fold(Group(items, key, keys[i]), merge))
  }

  lemma GroupsInhabited<T(!new)>(items: seq<T>, key: T -> string)
    ensures forall i :: 0 <= i < |KeysOf(items, key)| ==> Group(items, key, KeysOf(items, key)[i]) != []
    ensures forall k :: k in KeysOf(items, key) <==> k in Map(items, key)
  {
    var keys := KeysOf(items, key);
    DedupeProperties(Map(items, key));
    forall i | 0 <= i < |keys| ensures Group(items, key, keys[i]) != [] {
      assert keys[i] in Map(items, key);
      var j :| 0 <= j < |items| && Map(items, key)[j] == keys[i];
      FilterMembers(items, HasKey(key, keys[i]));
      assert items[j] in Group(items, key, keys[i]);
    }
  }

  lemma GroupMembers<T(!new)>(items: seq<T>, key: T -> string, k: string)
    ensures forall x :: x in Group(items, key, k) <==> x in items && key(x) == k
  {
    FilterMembers(items, HasKey(key, k));
  }

  /** The map after one pass over `items`. */
  ghost predicate Collected<T(!new)>(m: OrderedMap<string, T>, items: seq<T>, key: T -> string, merge: (T, T) -> T) {
    && m.Valid() && m.keys == KeysOf(items, key)
    && forall k :: k in m.vals ==> Group(items, key, k) != [] && m.vals[k] == Fold(Group(items, key, k), merge)
  }

  function Collect<T>(m: OrderedMap<string, T>, x: T, key: T -> string, merge: (T, T) -> T): OrderedMap<string, T> {
    m.Set(key(x), if key(x) in m.vals then merge(m.vals[key(x)], x) else x)
  }

  lemma CollectStep<T(!new)>(m: OrderedMap<string, T>, items: seq<T>, x: T, key: T -> string, merge: (T, T) -> T)
    requires Collected(m, items, key, merge)
    ensures Collected(Collect(m, x, key, merge), items + [x], key, merge)
  {
    var n := Collect(m, x, key, merge);
    ExtendGroups(items, x, key);
    GroupInhabitedIff(items, key, key(x));
    m.SetValid(key(x), n.vals[key(x)]);
    forall k | k in n.vals
      ensures Group(items + [x], key, k) != [] && n.vals[k] == Fold(Group(items + [x], key, k), merge)
    {
      var group := Group(items, key, k);
      if k != key(x) {
        assert Group(items + [x], key, k) == group + [] == group;
      } else if group == [] {
        assert Group(items + [x], key, k) == [] + [x] == [x];
        assert k !in m.vals;
      } else {
        assert DropLast(group + [x]) == group && Last(group + [x]) == x;
        assert k in m.keys;
      }
    }
  }

  /** The one-pass consolidation computes group-then-fold, groups in order of first appearance. */
  method ConsolidateDuplicates<T(!new)>(items: seq<T>, key: T -> string, merge: (T, T) -> T) returns (r: seq<T>)
    ensures r == Consolidated(items, key, merge)
  {
    var m: OrderedMap<string, T> := Empty();
    for i := 0 to |items|
      invariant Collected(m, items[..i], key, merge)
    {
      CollectStep(m, items[..i], items[i], key, merge);
      assert items[..i] + [items[i]] == items[..i + 1];
      var k := key(items[i]);
      if k !in m.vals {
        m := m.Set(k, items[i]);
      } else {
        m := m.Set(k, merge(m.vals[k], items[i]));
      }
    }
    assert items[..|items|] == items;
    r := m.Values();
  }

  lemma GroupInhabitedIff<T(!new)>(items: seq<T>, key: T -> string, k: string)
    ensures Group(items, key, k) != [] <==> k in KeysOf(items, key)
  {
    GroupsInhabited(items, key);
    if Group(items, key, k) != [] {
      var x := FirstOfGroup(items, key, k);
      var j :| 0 <= j < |items| && items[j] == x;
      assert Map(items, key)[j] == k;
    }
  }

  lemma FirstOfGroup<T(!new)>(items: seq<T>, key: T -> string, k: string) returns (x: T)
    requires Group(items, key, k) != []
    ensures x in items && key(x) == k
  {
    x := Group(items, key, k)[0];
    assert x in Group(items, key, k);
    GroupMembers(items, key, k);
  }

  lemma ExtendGroups<T(!new)>(items: seq<T>, x: T, key: T -> string)
    ensures KeysOf(items + [x], key) == KeysOf(items, key) + if key(x) in KeysOf(items, key) then [] else [key(x)]
    ensures forall k :: Group(items + [x], key, k) == Group(items, key, k) + if key(x) == k then [x] else []
  {
    assert Map(items + [x], key) == Map(items, key) + [key(x)];
    assert DropLast(Map(items + [x], key)) == Map(items, key);
    forall k ensures Group(items + [x], key, k) == Group(items, key, k) + if key(x) == k then [x] else [] {
      FilterAppend(items, x, HasKey(key, k));
    }
  }

  /** Where no two records share a key, consolidation returns its input. */
  lemma ConsolidateDistinct<T(!new)>(items: seq<T>, key: T -> string, merge: (T, T) -> T)
    requires Distinct(Map(items, key))
    ensures Consolidated(items, key, merge) == items
  {
    DedupeDistinct(Map(items, key));
    forall i | 0 <= i < |items| ensures Consolidated(items, key, merge)[i] == items[i] {
      GroupOfDistinct(items, key, i);
    }
  }

  lemma {:induction false} GroupOfDistinct<T(!new)>(items: seq<T>, key: T -> string, i: nat)
    requires Distinct(Map(items, key)) && i < |items|
    ensures Group(items, key, key(items[i])) == [items[i]]
  {
    var k, front := key(items[i]), DropLast(items);
    assert forall j :: 0 <= j < |items| ==> Map(items, key)[j] == key(items[j]);
    assert Distinct(Map(front, key));
    if i == |items| - 1 {
      forall x | x in front ensures key(x) != k {
        var j :| 0 <= j < |front| && front[j] == x;
        assert Map(items, key)[j] != Map(items, key)[i];
      }
      FilterNone(front, HasKey(key, k));
    } else {
      GroupOfDistinct(front, key, i);
      assert Map(items, key)[i] != Map(items, key)[|items| - 1];
    }
  }

  ghost predicate KeepsKey<T(!new)>(key: T -> string, merge: (T, T) -> T) {
    forall x, y :: key(x) == key(y) ==> key(merge(x, y)) == key(x)
  }

  lemma {:induction false} FoldKey<T(!new)>(group: seq<T>, key: T -> string, merge: (T, T) -> T, k: string)
    requires KeepsKey(key, merge) && group != []
    requires forall x :: x in group ==> key(x) == k
    ensures key(Fold(group, merge)) == k
  {
    if |group| > 1 {
      FoldKey(DropLast(group), key, merge, k);
    } else {
      assert group[0] in group;
    }
  }

  /** After consolidation no two records share a key, and no key is lost. */
  lemma ConsolidatedKeys<T(!new)>(items: seq<T>, key: T -> string, merge: (T, T) -> T)
    requires KeepsKey(key, merge)
    ensures Map(Consolidated(items, key, merge), key) == KeysOf(items, key)
    ensures Distinct(Map(Consolidated(items, key, merge), key))
    ensures forall x :: x in items ==> exists y :: y in Consolidated(items, key, merge) && key(y) == key(x)
  {
    var r, keys := Consolidated(items, key, merge), KeysOf(items, key);
    DedupeProperties(Map(items, key));
    forall i | 0 <= i < |r| ensures key(r[i]) == keys[i] {
      GroupMembers(items, key, keys[i]);
      FoldKey(Group(items, key, keys[i]), key, merge, keys[i]);
    }
    forall x | x in items ensures exists y :: y in r && key(y) == key(x) {
      var j :| 0 <= j < |items| && items[j] == x;
      assert Map(items, key)[j] == key(x);
      assert key(x) in keys;
      var i :| 0 <= i < |keys| && keys[i] == key(x);
      assert key(r[i]) == key(x);
    }
  }

  /** Where a record went: the place of its group's fold in the result. */
  lemma MergedWith<T(!new)>(items: seq<T>, key: T -> string, merge: (T, T) -> T, x: T) returns (i: nat)
    requires x in items && KeepsKey(key, merge)
    ensures x in Group(items, key, key(x)) && i < |Consolidated(items, key, merge)|
    ensures Consolidated(items, key, merge)[i] == Fold(Group(items, key, key(x)), merge)
    ensures key(Consolidated(items, key, merge)[i]) == key(x)
  {
    GroupsInhabited(items, key);
    GroupMembers(items, key, key(x));
    ConsolidatedKeys(items, key, merge);
    var j :| 0 <= j < |items| && items[j] == x;
    assert Map(items, key)[j] in KeysOf(items, key);
    i :| 0 <= i < |KeysOf(items, key)| && KeysOf(items, key)[i] == key(x);
    assert Map(Consolidated(items, key, merge), key)[i] == key(x);
  }

  ghost predicate Preserved<T(!new)>(p: T -> bool, key: T -> string, merge: (T, T) -> T) {
    forall x, y :: p(x) && p(y) && key(x) == key(y) ==> p(merge(x, y))
  }

  lemma {:induction false} FoldInvariant<T(!new)>(
      group: seq<T>, key: T -> string, merge: (T, T) -> T, p: T -> bool, k: string)
    requires KeepsKey(key, merge) && Preserved(p, key, merge) && group != []
    requires forall x :: x in group ==> p(x) && key(x) == k
    ensures p(Fold(group, merge)) && key(Fold(group, merge)) == k
  {
    if |group| > 1 {
      FoldInvariant(DropLast(group), key, merge, p, k);
      assert Last(group) in group;
    } else {
      assert group[0] in group;
    }
  }

  /** What holds of every record and survives each merge holds after consolidation. */
  lemma ConsolidateInvariant<T(!new)>(items: seq<T>, key: T -> string, merge: (T, T) -> T, p: T -> bool)
    requires KeepsKey(key, merge) && Preserved(p, key, merge)
    requires forall x :: x in items ==> p(x)
    ensures forall y :: y in Consolidated(items, key, merge) ==> p(y)
  {
    var r, keys := Consolidated(items, key, merge), KeysOf(items, key);
    forall i | 0 <= i < |r| ensures p(r[i]) {
      GroupMembers(items, key, keys[i]);
      FoldInvariant(Group(items, key, keys[i]), key, merge, p, keys[i]);
    }
  }
}
