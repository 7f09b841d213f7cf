/** String operations and patterns the protocol relies on: trimming and lower-casing, the regular
    expressions of the parsers, and lexicographic order. */
module Text {
  import opened Sequences
  import opened StableSorting

  // ---------------------------------------------------------------- trimming and lower case

  /** White space and line terminators in the sense of sections 12.2 and 12.3 of ECMA-262. */
  predicate IsWhite(c: char) {
    || c in {'\t', '\n', '\r', ' '}
    || c as int in {0x0B, 0x0C, 0xA0, 0x1680, 0x2028, 0x2029, 0x202F, 0x205F, 0x3000, 0xFEFF}
    || 0x2000 <= c as int <= 0x200A
  }

  function TrimStart(s: string): string {
    if s != "" && IsWhite(s[0]) then TrimStart(s[1..]) else s
  }

  function TrimEnd(s: string): string {
    if s != "" && IsWhite(Last(s)) then TrimEnd(DropLast(s)) else s
  }

  function Trim(s: string): string {
    TrimEnd(TrimStart(s))
  }

  function LowerChar(c: char): char {
    if 'A' <= c <= 'Z' then (c as int + 32) as char else c
  }

  /** Lower case on ASCII letters; other characters are left alone. */
  function Lower(s: string): (r: string)
    ensures |r| == |s|
  {
    seq(|s|, i requires 0 <= i < |s| => LowerChar(s[i]))
  }

  function Norm(s: string): string {
    Lower(Trim(s))
  }

  predicate Trimmed(s: string) {
    s == "" || (!IsWhite(s[0]) && !IsWhite(Last(s)))
  }

  lemma {:induction false} TrimEndProperties(s: string)
    ensures TrimEnd(s) == "" || !IsWhite(Last(TrimEnd(s)))
    ensures TrimEnd(s) <= s
  {
    if s != "" && IsWhite(Last(s)) {
      TrimEndProperties(DropLast(s));
    }
  }

  lemma {:induction false} TrimStartProperties(s: string)
    ensures TrimStart(s) == "" || !IsWhite(TrimStart(s)[0])
  {
    if s != "" && IsWhite(s[0]) {
      TrimStartProperties(s[1..]);
    }
  }

  lemma TrimIsTrimmed(s: string)
    ensures Trimmed(Trim(s))
  {
    TrimStartProperties(s);
    TrimEndProperties(TrimStart(s));
  }

  /** Trimming takes white space off both ends and nothing else. */
  lemma {:induction false} TrimTakesWhite(s: string) returns (before: string, after: string)
    ensures s == before + Trim(s) + after && AllIn(before, IsWhite) && AllIn(after, IsWhite)
  {
    before := TrimmedOffStart(s);
    after := TrimmedOffEnd(TrimStart(s));
  }

  lemma {:induction false} TrimmedOffStart(s: string) returns (before: string)
    ensures s == before + TrimStart(s) && AllIn(before, IsWhite)
  {
    if s != "" && IsWhite(s[0]) {
      var rest := TrimmedOffStart(s[1..]);
      before := [s[0]] + rest;
    } else {
      before := "";
    }
  }

  lemma {:induction false} TrimmedOffEnd(s: string) returns (after: string)
    ensures s == TrimEnd(s) + after && AllIn(after, IsWhite)
  {
    if s != "" && IsWhite(Last(s)) {
      var rest := TrimmedOffEnd(DropLast(s));
      after := rest + [Last(s)];
    } else {
      after := "";
    }
  }

  lemma TrimOfTrimmed(s: string)
    requires Trimmed(s)
    ensures Trim(s) == s
  {
  }

  lemma TrimIdempotent(s: string)
    ensures Trim(Trim(s)) == Trim(s)
  {
    TrimIsTrimmed(s);
    TrimOfTrimmed(Trim(s));
  }

  /** `parts.join(sep)` */
  function Join(parts: seq<string>, sep: string): string {
    if parts == [] then "" else parts[0] + JoinTail(parts[1..], sep)
  }

  function JoinTail(parts: seq<string>, sep: string): string {
    if parts == [] then "" else sep + parts[0] + JoinTail(parts[1..], sep)
  }

  predicate AllIn(s: string, p: char -> bool) {
    forall c :: c in s ==> p(c)
  }

  /** Characters that neither trimming nor lower-casing touches. */
  predicate Plain(c: char) {
    !IsWhite(c) && LowerChar(c) == c
  }

  lemma NormOfPlain(s: string)
    requires AllIn(s, Plain)
    ensures Norm(s) == s && Trim(s) == s
  {
    if s != "" {
      assert s[0] in s && Last(s) in s;
    }
    TrimOfTrimmed(s);
    assert Lower(s) == s by {
      forall i | 0 <= i < |s| ensures Lower(s)[i] == s[i] {
        assert s[i] in s;
      }
    }
  }

  lemma LowerTrimmed(s: string)
    requires Trimmed(s)
    ensures Trimmed(Lower(s)) && Lower(Lower(s)) == Lower(s)
  {
    assert forall c :: IsWhite(LowerChar(c)) ==> IsWhite(c);
    assert Lower(Lower(s)) == Lower(s);
  }

  lemma NormIdempotent(s: string)
    ensures Norm(Norm(s)) == Norm(s)
    ensures Trim(Norm(s)) == Norm(s)
    ensures Norm(s) == "" <==> Trim(s) == ""
  {
    TrimIsTrimmed(s);
    LowerTrimmed(Trim(s));
    TrimOfTrimmed(Norm(s));
  }

  // ---------------------------------------------------------------- patterns

  predicate IsLowerLetter(c: char) { 'a' <= c <= 'z' }
  predicate IsLetter(c: char) { 'a' <= c <= 'z' || 'A' <= c <= 'Z' }
  predicate IsDigit(c: char) { '0' <= c <= '9' }
  predicate IsHexDigit(c: char) { 'a' <= c <= 'f' || IsDigit(c) }
  predicate IsPermissionChar(c: char) { IsLowerLetter(c) || IsDigit(c) || c == '-' }
  predicate IsDidMethodChar(c: char) { IsLowerLetter(c) || IsDigit(c) }
  predicate IsDidIdChar(c: char) { IsLetter(c) || IsDigit(c) || c in {'.', '_', '%', '-'} }

  /** `^[a-f0-9]{64}$` */
  predicate IsHash64(s: string) {
    |s| == 64 && AllIn(s, IsHexDigit)
  }

  /** `^[a-z0-9-]+$` */
  predicate IsPermission(s: string) {
    s != "" && AllIn(s, IsPermissionChar)
  }

  /** `^did:[a-z0-9]+:[a-zA-Z0-9._%-]+$` */
  predicate IsDid(s: string) {
    && |s| > 4 && s[..4] == "did:"
    && exists k :: 4 < k < |s| - 1 && s[k] == ':'
                   && AllIn(s[4..k], IsDidMethodChar) && AllIn(s[k + 1..], IsDidIdChar)
  }

  /** `^[0-9]{4}-[0-9]{2}-[0-9]{2}T[0-9]{2}:[0-9]{2}:[0-9]{2}Z$` */
  predicate IsIsoSecond(s: string) {
    && |s| == 20
    && s[4] == '-' && s[7] == '-' && s[10] == 'T' && s[13] == ':' && s[16] == ':' && s[19] == 'Z'
    && forall i :: 0 <= i < 19 && i !in {4, 7, 10, 13, 16} ==> IsDigit(s[i])
  }

  /** `^[0-9]+\.[0-9]+$` */
  predicate IsVersion(s: string) {
    exists k :: 0 < k < |s| - 1 && s[k] == '.' && AllIn(s[..k], IsDigit) && AllIn(s[k + 1..], IsDigit)
  }

  lemma HashIsPlain(s: string)
    requires IsHash64(s)
    ensures Norm(s) == s && s != "" && Trim(s) == s
  {
    assert forall c :: IsHexDigit(c) ==> Plain(c);
    NormOfPlain(s);
  }

  lemma PermissionIsPlain(s: string)
    requires IsPermission(s)
    ensures Norm(s) == s && Trim(s) == s
  {
    assert forall c :: IsPermissionChar(c) ==> Plain(c);
    NormOfPlain(s);
  }

  lemma DidIsTrimmed(s: string)
    requires IsDid(s)
    ensures Trim(s) == s
  {
    var k :| 4 < k < |s| - 1 && s[k] == ':' && AllIn(s[4..k], IsDidMethodChar) && AllIn(s[k + 1..], IsDidIdChar);
    assert s[0] == s[..4][0] == 'd';
    assert Last(s) in s[k + 1..];
    TrimOfTrimmed(s);
  }

  // ---------------------------------------------------------------- lexicographic order

  /** A collation on strings is lexicographic in some ranking of the characters. */
  type Ranking = char -> int

  ghost predicate Injective(rank: Ranking) {
    forall c, d :: rank(c) == rank(d) ==> c == d
  }

  function LexLe(rank: Ranking, a: string, b: string): bool {
    if a == "" then true
    else if b == "" then false
    else if a[0] == b[0] then LexLe(rank, a[1..], b[1..])
    else rank(a[0]) < rank(b[0])
  }

  function CodeUnit(c: char): int {
    c as int
  }

  /** The order of `<=` on strings, and of `sort()` without a comparator. */
  predicate StrLe(a: string, b: string) {
    LexLe(CodeUnit, a, b)
  }

  predicate StrLt(a: string, b: string) {
    !StrLe(b, a)
  }

  lemma {:induction false} LexTotal(rank: Ranking, a: string, b: string)
    requires Injective(rank)
    ensures LexLe(rank, a, b) || LexLe(rank, b, a)
    ensures LexLe(rank, a, b) && LexLe(rank, b, a) ==> a == b
    ensures LexLe(rank, a, a)
  {
    if a != "" {
      LexTotal(rank, a[1..], a[1..]);
      if b != "" && a[0] == b[0] {
        LexTotal(rank, a[1..], b[1..]);
        assert a == [a[0]] + a[1..] && b == [b[0]] + b[1..];
      }
    }
  }

  lemma {:induction false} LexTransitive(rank: Ranking, a: string, b: string, c: string)
    requires Injective(rank)
    requires LexLe(rank, a, b) && LexLe(rank, b, c)
    ensures LexLe(rank, a, c)
  {
    if a != "" && b != "" && c != "" && a[0] == b[0] == c[0] {
      LexTransitive(rank, a[1..], b[1..], c[1..]);
    }
  }

  lemma StrOrder()
    ensures Injective(CodeUnit)
    ensures TotalOrder(StrLe)
  {
    forall a, b ensures StrLe(a, b) || StrLe(b, a) ensures StrLe(a, b) && StrLe(b, a) ==> a == b {
      LexTotal(CodeUnit, a, b);
    }
    forall a, b, c | StrLe(a, b) && StrLe(b, c) ensures StrLe(a, c) {
      LexTransitive(CodeUnit, a, b, c);
    }
  }

  /** Comparing after a common prefix. */
  lemma {:induction false} LexPrefix(rank: Ranking, p: string, a: string, b: string)
    ensures LexLe(rank, p + a, p + b) == LexLe(rank, a, b)
  {
    if p == "" {
      assert p + a == a && p + b == b;
    } else {
      LexPrefix(rank, p[1..], a, b);
      assert (p + a)[1..] == p[1..] + a && (p + b)[1..] == p[1..] + b;
    }
  }

  /** `[...new Set(values)].sort()` */
  function UniqueSorted(values: seq<string>): seq<string> {
    Sort(Dedupe(values), StrLe)
  }

  lemma UniqueSortedProperties(values: seq<string>)
    ensures Distinct(UniqueSorted(values))
    ensures SortedBy(UniqueSorted(values), StrLe)
    ensures forall x :: x in UniqueSorted(values) <==> x in values
  {
    StrOrder();
    DedupeProperties(values);
    SortProperties(Dedupe(values), StrLe);
    SortMembers(Dedupe(values), StrLe);
    DistinctPermutation(Dedupe(values), UniqueSorted(values));
  }

  lemma UniqueSortedFixed(values: seq<string>)
    requires Distinct(values) && SortedBy(values, StrLe)
    ensures UniqueSorted(values) == values
  {
    DedupeDistinct(values);
    SortOfSorted(values, StrLe);
  }

  lemma UniqueSortedIdempotent(values: seq<string>)
    ensures UniqueSorted(UniqueSorted(values)) == UniqueSorted(values)
  {
    UniqueSortedProperties(values);
    UniqueSortedFixed(UniqueSorted(values));
  }

  /** Equal sets of values have one unique sorted form. */
  lemma UniqueSortedExtensional(a: seq<string>, b: seq<string>)
    requires forall x :: x in a <==> x in b
    ensures UniqueSorted(a) == UniqueSorted(b)
  {
    StrOrder();
    UniqueSortedProperties(a);
    UniqueSortedProperties(b);
    var s, t := UniqueSorted(a), UniqueSorted(b);
    forall x ensures multiset(s)[x] == multiset(t)[x] {
      DistinctCounts(s, x);
      DistinctCounts(t, x);
      assert x in multiset(s) <==> x in s;
      assert x in multiset(t) <==> x in t;
    }
    assert multiset(s) == multiset(t);
    SortedPermutationEqual(s, t, StrLe);
  }
}
