/** `Array.prototype.sort` as section 23.1.3 of ECMA-262 fixes it: for a comparator that is a total
    preorder the result is the stable sort of the input, and that is one sequence only. */
module StableSorting {
  import opened Sequences

  ghost predicate TotalPreorder<T(!new)>(le: (T, T) -> bool) {
    && (forall x, y :: le(x, y) || le(y, x))
    && (forall x, y, z :: le(x, y) && le(y, z) ==> le(x, z))
  }

  ghost predicate TotalOrder<T(!new)>(le: (T, T) -> bool) {
    && TotalPreorder(le)
    && (forall x, y :: le(x, y) && le(y, x) ==> x == y)
  }

  ghost predicate SortedBy<T>(s: seq<T>, le: (T, T) -> bool) {
    forall i, j :: 0 <= i < j < |s| ==> le(s[i], s[j])
  }

  /** Put `x` after the last element that does not exceed it. */
  function Insert<T>(s: seq<T>, x: T, le: (T, T) -> bool): seq<T> {
    if s == [] || le(Last(s), x) then s + [x]
    else Insert(DropLast(s), x, le) + [Last(s)]
  }

  function Sort<T>(s: seq<T>, le: (T, T) -> bool): seq<T> {
    if s == [] then [] else Insert(Sort(DropLast(s), le), Last(s), le)
  }

  predicate Equivalent<T>(x: T, y: T, le: (T, T) -> bool) {
    le(x, y) && le(y, x)
  }

  /** The elements of `s` that tie with `x`, in their order in `s`. */
  function Ties<T>(s: seq<T>, x: T, le: (T, T) -> bool): seq<T> {
    Filter(s, y => Equivalent(x, y, le))
  }

  ghost predicate IsStableSort<T(!new)>(t: seq<T>, s: seq<T>, le: (T, T) -> bool) {
    && SortedBy(t, le)
    && forall x :: Ties(t, x, le) == Ties(s, x, le)
  }

  lemma {:induction false} InsertContents<T>(s: seq<T>, x: T, le: (T, T) -> bool)
    ensures multiset(Insert(s, x, le)) == multiset(s) + multiset{x}
    ensures |Insert(s, x, le)| == |s| + 1
    ensures forall y :: y in Insert(s, x, le) ==> y == x || y in s
  {
    if s == [] || le(Last(s), x) {
    } else {
      InsertContents(DropLast(s), x, le);
      assert s == DropLast(s) + [Last(s)];
    }
  }

  lemma {:induction false} InsertProperties<T(!new)>(s: seq<T>, x: T, le: (T, T) -> bool)
    requires TotalPreorder(le) && SortedBy(s, le)
    ensures SortedBy(Insert(s, x, le), le)
    ensures multiset(Insert(s, x, le)) == multiset(s) + multiset{x}
    ensures |Insert(s, x, le)| == |s| + 1
  {
    InsertContents(s, x, le);
    if s == [] {
    } else if le(Last(s), x) {
      forall i | 0 <= i < |s| ensures le(s[i], x) {
        assert i < |s| - 1 ==> le(s[i], Last(s));
      }
    } else {
      InsertProperties(DropLast(s), x, le);
      InsertContents(DropLast(s), x, le);
      var front := Insert(DropLast(s), x, le);
      forall i | 0 <= i < |front| ensures le(front[i], Last(s)) {
        assert front[i] in front;
      }
    }
  }

  lemma {:induction false} SortProperties<T(!new)>(s: seq<T>, le: (T, T) -> bool)
    requires TotalPreorder(le)
    ensures SortedBy(Sort(s, le), le)
    ensures multiset(Sort(s, le)) == multiset(s)
    ensures |Sort(s, le)| == |s|
  {
    if s != [] {
      SortProperties(DropLast(s), le);
      InsertProperties(Sort(DropLast(s), le), Last(s), le);
      assert s == DropLast(s) + [Last(s)];
    }
  }

  lemma {:induction false} SortMembers<T(!new)>(s: seq<T>, le: (T, T) -> bool)
    requires TotalPreorder(le)
    ensures forall x :: x in Sort(s, le) <==> x in s
  {
    SortProperties(s, le);
    forall x ensures x in Sort(s, le) <==> x in s {
      assert x in s <==> x in multiset(s);
      assert x in Sort(s, le) <==> x in multiset(Sort(s, le));
    }
  }

  lemma {:induction false} SortOfSorted<T(!new)>(s: seq<T>, le: (T, T) -> bool)
    requires SortedBy(s, le)
    ensures Sort(s, le) == s
  {
    if s != [] {
      SortOfSorted(DropLast(s), le);
      if |s| > 1 {
        assert le(s[|s| - 2], s[|s| - 1]);
      }
    }
  }

  lemma {:induction false} InsertTies<T(!new)>(s: seq<T>, x: T, z: T, le: (T, T) -> bool)
    requires TotalPreorder(le) && SortedBy(s, le)
    ensures Ties(Insert(s, x, le), z, le) == Ties(s + [x], z, le)
  {
    var p := y => Equivalent(z, y, le);
    FilterAppend(s, x, p);
    if s == [] || le(Last(s), x) {
    } else {
      InsertTies(DropLast(s), x, z, le);
      FilterAppend(Insert(DropLast(s), x, le), Last(s), p);
      FilterAppend(DropLast(s), x, p);
    }
  }

  lemma {:induction false} SortIsStable<T(!new)>(s: seq<T>, le: (T, T) -> bool)
    requires TotalPreorder(le)
    ensures IsStableSort(Sort(s, le), s, le)
  {
    SortProperties(s, le);
    forall z ensures Ties(Sort(s, le), z, le) == Ties(s, z, le) {
      SortTies(s, z, le);
    }
  }

  lemma {:induction false} SortTies<T(!new)>(s: seq<T>, z: T, le: (T, T) -> bool)
    requires TotalPreorder(le)
    ensures Ties(Sort(s, le), z, le) == Ties(s, z, le)
  {
    if s != [] {
      var front := Sort(DropLast(s), le);
      SortTies(DropLast(s), z, le);
      SortProperties(DropLast(s), le);
      InsertTies(front, Last(s), z, le);
      FilterAppend(front, Last(s), y => Equivalent(z, y, le));
    }
  }

  /** Any two stable sorts of one input are equal, so the recursion above is the sort the
      language standard prescribes and not one choice among several. */
  lemma {:induction false} StableSortUnique<T(!new)>(t: seq<T>, u: seq<T>, s: seq<T>, le: (T, T) -> bool)
    requires TotalPreorder(le)
    requires IsStableSort(t, s, le) && IsStableSort(u, s, le)
    ensures t == u
  {
    forall x ensures Ties(t, x, le) == Ties(u, x, le) {}
    SameTiesEqual(t, u, le);
  }

  lemma {:induction false} SameTiesEqual<T(!new)>(t: seq<T>, u: seq<T>, le: (T, T) -> bool)
    requires TotalPreorder(le) && SortedBy(t, le) && SortedBy(u, le)
    requires forall x :: Ties(t, x, le) == Ties(u, x, le)
    ensures t == u
  {
    if t == [] && u == [] {
    } else if t == [] {
      TiesWithLast(u, le);
    } else if u == [] {
      TiesWithLast(t, le);
    } else {
      LastDominates(t, u, le);
      LastDominates(u, t, le);
      TiesWithLast(t, le);
      assert Last(Ties(u, Last(t), le)) == Last(u);
      forall x ensures Ties(DropLast(t), x, le) == Ties(DropLast(u), x, le) {
        var tail := if Equivalent(x, Last(t), le) then [Last(t)] else [];
        assert Ties(t, x, le) == Ties(DropLast(t), x, le) + tail;
        assert Ties(u, x, le) == Ties(DropLast(u), x, le) + tail;
        var n := |Ties(t, x, le)| - |tail|;
        assert Ties(DropLast(t), x, le) == Ties(t, x, le)[..n];
        assert Ties(DropLast(u), x, le) == Ties(u, x, le)[..n];
      }
      SameTiesEqual(DropLast(t), DropLast(u), le);
    }
  }

  lemma TiesWithLast<T(!new)>(t: seq<T>, le: (T, T) -> bool)
    requires t != [] && TotalPreorder(le)
    ensures Ties(t, Last(t), le) != [] && Last(Ties(t, Last(t), le)) == Last(t)
  {
  }

  lemma {:induction false} LastDominates<T(!new)>(t: seq<T>, u: seq<T>, le: (T, T) -> bool)
    requires t != [] && u != []
    requires TotalPreorder(le) && SortedBy(u, le)
    requires forall x :: Ties(t, x, le) == Ties(u, x, le)
    ensures le(Last(t), Last(u))
  {
    FilterMembers(u, y => Equivalent(Last(t), y, le));
    assert Last(t) in Ties(t, Last(t), le);
    assert Last(t) in u;
  }

  /** With an antisymmetric order the result depends on the multiset of elements only. */
  lemma {:induction false} SortPermutation<T(!new)>(s: seq<T>, t: seq<T>, le: (T, T) -> bool)
    requires TotalOrder(le)
    requires multiset(s) == multiset(t)
    ensures Sort(s, le) == Sort(t, le)
  {
    SortProperties(s, le);
    SortProperties(t, le);
    SortedPermutationEqual(Sort(s, le), Sort(t, le), le);
  }

  lemma SamePermutationLast<T(!new)>(s: seq<T>, t: seq<T>, le: (T, T) -> bool)
    requires s != [] && t != [] && multiset(s) == multiset(t)
    requires SortedBy(s, le) && SortedBy(t, le)
    requires forall x, y :: x in s && y in s && le(x, y) && le(y, x) ==> x == y
    ensures Last(s) == Last(t)
  {
    assert Last(s) in multiset(t) && Last(t) in multiset(s);
    var i :| 0 <= i < |t| && t[i] == Last(s);
    var j :| 0 <= j < |s| && s[j] == Last(t);
    assert i < |t| - 1 ==> le(t[i], Last(t));
    assert j < |s| - 1 ==> le(s[j], Last(s));
  }

  lemma {:induction false} SortedPermutationEqual<T(!new)>(s: seq<T>, t: seq<T>, le: (T, T) -> bool)
    requires multiset(s) == multiset(t)
    requires SortedBy(s, le) && SortedBy(t, le)
    requires forall x, y :: x in s && y in s && le(x, y) && le(y, x) ==> x == y
    ensures s == t
  {
    assert |multiset(s)| == |s| && |multiset(t)| == |t|;
    if s != [] {
      SamePermutationLast(s, t, le);
      assert s == DropLast(s) + [Last(s)];
      assert t == DropLast(t) + [Last(t)];
      assert multiset(DropLast(s)) == multiset(s) - multiset{Last(s)};
      assert multiset(DropLast(t)) == multiset(t) - multiset{Last(t)};
      SortedPermutationEqual(DropLast(s), DropLast(t), le);
    }
  }

  /** Cutting the input at a threshold cuts the sorted output. */
  lemma {:induction false} SortSplit<T(!new)>(s: seq<T>, low: T -> bool, high: T -> bool, le: (T, T) -> bool)
    requires TotalPreorder(le)
    requires forall x :: high(x) <==> !low(x)
    requires forall x, y :: low(x) && high(y) ==> le(x, y) && !le(y, x)
    ensures Sort(s, le) == Sort(Filter(s, low), le) + Sort(Filter(s, high), le)
  {
    if s != [] {
      var x, front := Last(s), DropLast(s);
      var a, b := Sort(Filter(front, low), le), Sort(Filter(front, high), le);
      SortSplit(front, low, high, le);
      SplitMembers(front, low, high, le);
      assert Sort(s, le) == Insert(a + b, x, le);
      if low(x) {
        InsertBelow(a, b, x, le);
        SortAppend(Filter(front, low), x, le);
        assert Filter(s, high) == Filter(front, high);
      } else {
        InsertAbove(a, b, x, le);
        SortAppend(Filter(front, high), x, le);
        assert Filter(s, low) == Filter(front, low);
      }
    }
  }

  lemma SortAppend<T>(s: seq<T>, x: T, le: (T, T) -> bool)
    ensures Sort(s + [x], le) == Insert(Sort(s, le), x, le)
  {
    assert DropLast(s + [x]) == s;
  }

  lemma SplitMembers<T(!new)>(s: seq<T>, low: T -> bool, high: T -> bool, le: (T, T) -> bool)
    requires TotalPreorder(le)
    ensures forall x :: x in Sort(Filter(s, low), le) ==> low(x)
    ensures forall x :: x in Sort(Filter(s, high), le) ==> high(x)
  {
    FilterMembers(s, low);
    FilterMembers(s, high);
    SortMembers(Filter(s, low), le);
    SortMembers(Filter(s, high), le);
  }

  lemma {:induction false} InsertBelow<T>(a: seq<T>, b: seq<T>, x: T, le: (T, T) -> bool)
    requires forall y :: y in b ==> !le(y, x)
    ensures Insert(a + b, x, le) == Insert(a, x, le) + b
  {
    if b == [] {
      assert a + b == a;
      assert Insert(a, x, le) + b == Insert(a, x, le);
    } else {
      var front := DropLast(b);
      InsertBelow(a, front, x, le);
      assert DropLast(a + b) == a + front && Last(a + b) == Last(b);
      assert Last(b) in b;
      assert Insert(a, x, le) + front + [Last(b)] == Insert(a, x, le) + b by {
        assert front + [Last(b)] == b;
      }
    }
  }

  lemma {:induction false} InsertAbove<T>(a: seq<T>, b: seq<T>, x: T, le: (T, T) -> bool)
    requires forall y :: y in a ==> le(y, x)
    ensures Insert(a + b, x, le) == a + Insert(b, x, le)
  {
    if b == [] {
      assert a + b == a;
    } else {
      if !le(Last(b), x) {
        InsertAbove(a, DropLast(b), x, le);
        assert DropLast(a + b) == a + DropLast(b);
      }
    }
  }
}
