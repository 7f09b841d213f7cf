/** Scope entries, their key encoding and their two sort orders, shared by consents, capabilities and
    requests. */
module Scope {
  import opened Sequences
  import opened StableSorting
  import opened Text

  datatype ScopeEntry = ScopeEntry(kind: string, ref: string)

  const VALID_KINDS: set<string> := {"field", "content", "pack"}

  function ScopeKey(entry: ScopeEntry): string {
    entry.kind + ":" + entry.ref
  }

  predicate ValidEntry(entry: ScopeEntry) {
    entry.kind in VALID_KINDS && IsHash64(entry.ref)
  }

  predicate ByKindRef(rank: Ranking, a: ScopeEntry, b: ScopeEntry) {
    if a.kind != b.kind then LexLe(rank, a.kind, b.kind) else LexLe(rank, a.ref, b.ref)
  }

  predicate ByKey(rank: Ranking, a: ScopeEntry, b: ScopeEntry) {
    LexLe(rank, ScopeKey(a), ScopeKey(b))
  }

  function SortByKindRef(rank: Ranking, scope: seq<ScopeEntry>): seq<ScopeEntry> {
    Sort(scope, (a, b) => ByKindRef(rank, a, b))
  }

  function SortByKey(rank: Ranking, scope: seq<ScopeEntry>): seq<ScopeEntry> {
    Sort(scope, (a, b) => ByKey(rank, a, b))
  }

  /** A colon-free kind can be read off the key. */
  lemma {:induction false} KeySplit(a: ScopeEntry, b: ScopeEntry)
    requires ScopeKey(a) == ScopeKey(b)
    requires ':' !in b.kind && ':' !in b.ref
    ensures a == b
  {
    var n := |b.kind|;
    var key := ScopeKey(b);
    assert key[n] == ':';
    assert forall i :: 0 <= i < |key| && i != n ==> key[i] != ':' by {
      forall i | 0 <= i < |key| && i != n ensures key[i] != ':' {
        if i < n { assert key[i] == b.kind[i]; } else { assert key[i] == b.ref[i - n - 1]; }
      }
    }
    assert ScopeKey(a)[|a.kind|] == ':';
    assert |a.kind| == n;
    assert ScopeKey(a)[..n] == a.kind && key[..n] == b.kind;
    assert ScopeKey(a)[n + 1..] == a.ref && key[n + 1..] == b.ref;
  }

  /** The key encoding is injective on validated entries, also against entries nobody validated. */
  lemma ScopeKeyInjective(a: ScopeEntry, b: ScopeEntry)
    requires ValidEntry(b) && ScopeKey(a) == ScopeKey(b)
    ensures a == b
  {
    KeySplit(a, b);
  }

  lemma ByKindRefOrder(rank: Ranking)
    requires Injective(rank)
    ensures TotalOrder((a: ScopeEntry, b: ScopeEntry) => ByKindRef(rank, a, b))
  {
    forall a: ScopeEntry, b: ScopeEntry
      ensures ByKindRef(rank, a, b) || ByKindRef(rank, b, a)
      ensures ByKindRef(rank, a, b) && ByKindRef(rank, b, a) ==> a == b
    {
      LexTotal(rank, a.kind, b.kind);
      LexTotal(rank, a.ref, b.ref);
    }
    forall a: ScopeEntry, b: ScopeEntry, c: ScopeEntry | ByKindRef(rank, a, b) && ByKindRef(rank, b, c)
      ensures ByKindRef(rank, a, c)
    {
      if a.kind == b.kind == c.kind {
        LexTransitive(rank, a.ref, b.ref, c.ref);
      } else if a.kind != b.kind && b.kind != c.kind {
        LexTransitive(rank, a.kind, b.kind, c.kind);
        LexTotal(rank, a.kind, b.kind);
      }
    }
  }

  lemma ByKeyOrder(rank: Ranking)
    requires Injective(rank)
    ensures TotalPreorder((a: ScopeEntry, b: ScopeEntry) => ByKey(rank, a, b))
  {
    forall a: ScopeEntry, b: ScopeEntry ensures ByKey(rank, a, b) || ByKey(rank, b, a) {
      LexTotal(rank, ScopeKey(a), ScopeKey(b));
    }
    forall a: ScopeEntry, b: ScopeEntry, c: ScopeEntry | ByKey(rank, a, b) && ByKey(rank, b, c)
      ensures ByKey(rank, a, c) {
      LexTransitive(rank, ScopeKey(a), ScopeKey(b), ScopeKey(c));
    }
  }

  /** On validated entries the key order is the (kind, ref) order. */
  lemma OrdersAgree(rank: Ranking, a: ScopeEntry, b: ScopeEntry)
    requires ValidEntry(a) && ValidEntry(b)
    ensures ByKey(rank, a, b) == ByKindRef(rank, a, b)
  {
    if a.kind == b.kind {
      LexPrefix(rank, a.kind + ":", a.ref, b.ref);
      assert ScopeKey(a) == a.kind + ":" + a.ref && ScopeKey(b) == a.kind + ":" + b.ref;
    } else {
      assert ScopeKey(a)[0] == a.kind[0] && ScopeKey(b)[0] == b.kind[0];
      assert a.kind[0] != b.kind[0];
    }
  }

  /** Membership by key is membership, as soon as one side is validated. */
  lemma KeyMembership(scope: seq<ScopeEntry>, e: ScopeEntry)
    requires ValidScope(scope) || ValidEntry(e)
    ensures ScopeKey(e) in Map(scope, ScopeKey) <==> e in scope
  {
    var keys := Map(scope, ScopeKey);
    if ScopeKey(e) in keys {
      var i :| 0 <= i < |scope| && keys[i] == ScopeKey(e);
      assert scope[i] in scope;
      if ValidEntry(e) { ScopeKeyInjective(scope[i], e); } else { ScopeKeyInjective(e, scope[i]); }
    }
    if i :| 0 <= i < |scope| && scope[i] == e {
      assert keys[i] == ScopeKey(e);
    }
  }

  ghost predicate ValidScope(scope: seq<ScopeEntry>) {
    forall e :: e in scope ==> ValidEntry(e)
  }

  /** Hence the two sorts give the same sequence. */
  lemma SortsAgree(rank: Ranking, scope: seq<ScopeEntry>)
    requires Injective(rank) && ValidScope(scope)
    ensures SortByKey(rank, scope) == SortByKindRef(rank, scope)
  {
    var byKey := (a: ScopeEntry, b: ScopeEntry) => ByKey(rank, a, b);
    var byKindRef := (a: ScopeEntry, b: ScopeEntry) => ByKindRef(rank, a, b);
    ByKeyOrder(rank);
    ByKindRefOrder(rank);
    SortProperties(scope, byKey);
    SortMembers(scope, byKey);
    SortProperties(scope, byKindRef);
    var s := SortByKey(rank, scope);
    forall i, j | 0 <= i < j < |s| ensures byKindRef(s[i], s[j]) {
      assert s[i] in s && s[j] in s;
      OrdersAgree(rank, s[i], s[j]);
    }
    SortedPermutationEqual(s, SortByKindRef(rank, scope), byKindRef);
  }

  lemma SortKindRefProperties(rank: Ranking, scope: seq<ScopeEntry>)
    requires Injective(rank)
    ensures multiset(SortByKindRef(rank, scope)) == multiset(scope)
    ensures forall e :: e in SortByKindRef(rank, scope) <==> e in scope
    ensures |SortByKindRef(rank, scope)| == |scope|
    ensures SortByKindRef(rank, SortByKindRef(rank, scope)) == SortByKindRef(rank, scope)
  {
    var le := (a: ScopeEntry, b: ScopeEntry) => ByKindRef(rank, a, b);
    ByKindRefOrder(rank);
    SortProperties(scope, le);
    SortMembers(scope, le);
    SortOfSorted(SortByKindRef(rank, scope), le);
  }

  lemma SortKindRefPermutation(rank: Ranking, s: seq<ScopeEntry>, t: seq<ScopeEntry>)
    requires Injective(rank) && multiset(s) == multiset(t)
    ensures SortByKindRef(rank, s) == SortByKindRef(rank, t)
  {
    ByKindRefOrder(rank);
    SortPermutation(s, t, (a: ScopeEntry, b: ScopeEntry) => ByKindRef(rank, a, b));
  }
}
