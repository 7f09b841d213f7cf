/** Sequence helpers: filtering, membership and duplicate removal, all written so that appending one
    element at the end is the easy case. */
module Sequences {
  function Last<T>(s: seq<T>): T
    requires s != []
  {
    s[|s| - 1]
  }

  function DropLast<T>(s: seq<T>): seq<T>
    requires s != []
  {
    s[..|s| - 1]
  }

  function Filter<T>(s: seq<T>, p: T -> bool): seq<T> {
    if s == [] then []
    else Filter(DropLast(s), p) + if p(Last(s)) then [Last(s)] else []
  }

  function Map<A, B>(s: seq<A>, f: A -> B): (r: seq<B>)
    ensures |r| == |s| && forall i :: 0 <= i < |s| ==> r[i] == f(s[i])
  {
    seq(|s|, i requires 0 <= i < |s| => f(s[i]))
  }

  ghost predicate Distinct<T>(s: seq<T>) {
    forall i, j :: 0 <= i < j < |s| ==> s[i] != s[j]
  }

  /** The order-keeping elimination of duplicates done by `[...new Set(xs)]`. */
  function Dedupe<T(==)>(s: seq<T>): seq<T> {
    if s == [] then []
    else
      var front := Dedupe(DropLast(s));
      if Last(s) in front then front else front + [Last(s)]
  }

  ghost predicate Increasing(at: seq<nat>) {
    forall k, l :: 0 <= k < l < |at| ==> at[k] < at[l]
  }

  /** `r` lists the elements of `s` at the positions `at`, which are all the positions where `p` holds, in order. */
  ghost predicate SelectsAt<T>(r: seq<T>, s: seq<T>, p: T -> bool, at: seq<nat>) {
    && |at| == |r| && Increasing(at)
    && (forall k :: 0 <= k < |at| ==> at[k] < |s| && r[k] == s[at[k]])
    && (forall i :: 0 <= i < |s| ==> (p(s[i]) <==> i in at))
  }

  ghost predicate IsSelection<T>(r: seq<T>, s: seq<T>, p: T -> bool) {
    exists at :: SelectsAt(r, s, p, at)
  }

  lemma {:induction false} FilterPositions<T>(s: seq<T>, p: T -> bool) returns (at: seq<nat>)
    ensures SelectsAt(Filter(s, p), s, p, at)
  {
    if s == [] {
      at := [];
    } else {
      var front := FilterPositions(DropLast(s), p);
      at := front + if p(Last(s)) then [|s| - 1] else [];
      assert forall k :: 0 <= k < |front| ==> front[k] < |s| - 1;
      forall i | 0 <= i < |s| ensures p(s[i]) <==> i in at {
        if i < |s| - 1 { assert DropLast(s)[i] == s[i]; }
      }
    }
  }

  /** A filter keeps exactly the elements that pass, in their order and as often as they occur. */
  lemma FilterIsSelection<T>(s: seq<T>, p: T -> bool)
    ensures IsSelection(Filter(s, p), s, p)
  {
    var at := FilterPositions(s, p);
  }

  lemma MapMembers<A(!new), B>(s: seq<A>, f: A -> B, y: B)
    ensures y in Map(s, f) <==> exists x :: x in s && f(x) == y
  {
    if y in Map(s, f) {
      var i :| 0 <= i < |s| && Map(s, f)[i] == y;
      assert s[i] in s;
    }
    if x :| x in s && f(x) == y {
      var i :| 0 <= i < |s| && s[i] == x;
      assert Map(s, f)[i] == y;
    }
  }

  lemma FilterAppend<T>(s: seq<T>, x: T, p: T -> bool)
    ensures Filter(s + [x], p) == Filter(s, p) + if p(x) then [x] else []
  {
    assert DropLast(s + [x]) == s;
  }

  lemma {:induction false} FilterConcat<T>(a: seq<T>, b: seq<T>, p: T -> bool)
    ensures Filter(a + b, p) == Filter(a, p) + Filter(b, p)
  {
    if b == [] {
      assert a + b == a;
    } else {
      FilterConcat(a, DropLast(b), p);
      assert DropLast(a + b) == a + DropLast(b);
    }
  }

  lemma {:induction false} FilterMembers<T>(s: seq<T>, p: T -> bool)
    ensures forall x :: x in Filter(s, p) <==> x in s && p(x)
  {
    if s != [] {
      FilterMembers(DropLast(s), p);
      assert s == DropLast(s) + [Last(s)];
    }
  }

  lemma {:induction false} FilterMultiset<T(!new)>(s: seq<T>, t: seq<T>, p: T -> bool)
    requires multiset(s) == multiset(t)
    ensures multiset(Filter(s, p)) == multiset(Filter(t, p))
  {
    forall x ensures multiset(Filter(s, p))[x] == multiset(Filter(t, p))[x] {
      FilterCount(s, p, x);
      FilterCount(t, p, x);
    }
    assert multiset(Filter(s, p)) == multiset(Filter(t, p));
  }

  lemma {:induction false} FilterCount<T>(s: seq<T>, p: T -> bool, x: T)
    ensures multiset(Filter(s, p))[x] == if p(x) then multiset(s)[x] else 0
  {
    if s != [] {
      FilterCount(DropLast(s), p, x);
      assert s == DropLast(s) + [Last(s)];
    }
  }

  lemma {:induction false} FilterCompose<T>(s: seq<T>, p: T -> bool, q: T -> bool, both: T -> bool)
    requires forall x :: both(x) <==> p(x) && q(x)
    ensures Filter(Filter(s, p), q) == Filter(s, both)
  {
    if s != [] {
      FilterCompose(DropLast(s), p, q, both);
      if p(Last(s)) {
        FilterAppend(Filter(DropLast(s), p), Last(s), q);
      } else {
        assert Filter(s, p) == Filter(DropLast(s), p);
      }
    }
  }

  lemma {:induction false} FilterAll<T>(s: seq<T>, p: T -> bool)
    requires forall x :: x in s ==> p(x)
    ensures Filter(s, p) == s
  {
    if s != [] {
      FilterAll(DropLast(s), p);
    }
  }

  lemma {:induction false} FilterNone<T>(s: seq<T>, p: T -> bool)
    requires forall x :: x in s ==> !p(x)
    ensures Filter(s, p) == []
  {
    if s != [] {
      FilterNone(DropLast(s), p);
    }
  }

  lemma {:induction false} FilterDistinct<T(!new)>(s: seq<T>, p: T -> bool)
    requires Distinct(s)
    ensures Distinct(Filter(s, p))
  {
    if s != [] {
      FilterDistinct(DropLast(s), p);
      FilterMembers(DropLast(s), p);
      assert Last(s) !in DropLast(s);
    }
  }

  lemma {:induction false} DedupeProperties<T>(s: seq<T>)
    ensures Distinct(Dedupe(s))
    ensures forall x :: x in Dedupe(s) <==> x in s
  {
    if s != [] {
      DedupeProperties(DropLast(s));
      assert s == DropLast(s) + [Last(s)];
    }
  }

  lemma {:induction false} DedupeDistinct<T>(s: seq<T>)
    requires Distinct(s)
    ensures Dedupe(s) == s
  {
    if s != [] {
      assert Distinct(DropLast(s));
      DedupeDistinct(DropLast(s));
      assert Last(s) !in DropLast(s);
    }
  }

  lemma DistinctAppend<T>(s: seq<T>, x: T)
    ensures Distinct(s + [x]) <==> Distinct(s) && x !in s
  {
    var t := s + [x];
    if Distinct(t) {
      forall i, j | 0 <= i < j < |s| ensures s[i] != s[j] {
        assert t[i] != t[j];
      }
      forall i | 0 <= i < |s| ensures s[i] != x {
        assert t[i] != t[|s|];
      }
    }
  }

  lemma DistinctPermutation<T>(s: seq<T>, t: seq<T>)
    requires Distinct(s) && multiset(s) == multiset(t)
    ensures Distinct(t)
  {
    forall i, j | 0 <= i < j < |t| ensures t[i] != t[j] {
      if t[i] == t[j] {
        TwiceCounted(t, i, j);
        DistinctCounts(s, t[i]);
      }
    }
  }

  lemma TwiceCounted<T>(t: seq<T>, i: nat, j: nat)
    requires i < j < |t| && t[i] == t[j]
    ensures multiset(t)[t[i]] >= 2
  {
    assert t == t[..i] + [t[i]] + t[i + 1..j] + [t[j]] + t[j + 1..];
  }

  lemma {:induction false} DistinctCounts<T>(s: seq<T>, x: T)
    requires Distinct(s)
    ensures multiset(s)[x] == if x in s then 1 else 0
  {
    if s != [] {
      DistinctCounts(DropLast(s), x);
      assert s == DropLast(s) + [Last(s)];
    }
  }

  /** A sequence over a finite set that is longer than the set repeats an element. */
  lemma {:induction false} Pigeonhole<T>(s: seq<T>, bound: set<T>)
    requires forall x :: x in s ==> x in bound
    requires |s| > |bound|
    ensures !Distinct(s)
  {
    if Distinct(s) {
      DistinctCardinality(s);
      var elements := set x | x in s;
      assert elements <= bound;
      SubsetCardinality(elements, bound);
      assert false;
    }
  }

  lemma {:induction false} SubsetCardinality<T>(a: set<T>, b: set<T>)
    requires a <= b
    ensures |a| <= |b|
  {
    if a != {} {
      var x :| x in a;
      SubsetCardinality(a - {x}, b - {x});
    }
  }

  lemma {:induction false} DistinctCardinality<T>(s: seq<T>)
    requires Distinct(s)
    ensures |set x | x in s| == |s|
  {
    if s != [] {
      DistinctCardinality(DropLast(s));
      assert (set x | x in s) == (set x | x in DropLast(s)) + {Last(s)};
    }
  }
}
