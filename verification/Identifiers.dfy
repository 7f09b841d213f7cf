/** Content-derived identifiers: a prefix and the digest of what the record is about. */
module Identifiers {
  /** The truncated SHA-256 in hex. */
  type Digest = string -> string

  /** No two materials collide, and digests contain no hyphen (they are hexadecimal). */
  ghost predicate SoundDigest(digest: Digest) {
    && (forall x, y :: digest(x) == digest(y) ==> x == y)
    && (forall x :: '-' !in digest(x))
  }

  function EscapeChar(c: char): string {
    if c == '-' then "xh" else if c == 'x' then "xx" else [c]
  }

  function Escape(s: string): string {
    if s == "" then "" else EscapeChar(s[0]) + Escape(s[1..])
  }

  /** Such digests exist: escaping the hyphen is one. */
  lemma EscapeIsSound()
    ensures SoundDigest(Escape)
  {
    forall s ensures '-' !in Escape(s) {
      EscapeHasNoHyphen(s);
    }
    forall s, t | Escape(s) == Escape(t) ensures s == t {
      EscapeInjective(s, t);
    }
  }

  lemma {:induction false} EscapeHasNoHyphen(s: string)
    ensures '-' !in Escape(s)
  {
    if s != "" {
      EscapeHasNoHyphen(s[1..]);
    }
  }

  lemma {:induction false} EscapeInjective(s: string, t: string)
    requires Escape(s) == Escape(t)
    ensures s == t
  {
    if s != "" && t != "" {
      var e := Escape(s);
      assert e[0] == EscapeChar(s[0])[0] == EscapeChar(t[0])[0];
      if e[0] == 'x' {
        assert e[1] == EscapeChar(s[0])[1] && e[1] == EscapeChar(t[0])[1];
      }
      assert s[0] == t[0];
      var n := |EscapeChar(s[0])|;
      assert e[n..] == Escape(s[1..]) && e[n..] == Escape(t[1..]);
      EscapeInjective(s[1..], t[1..]);
      assert s == [s[0]] + s[1..] && t == [t[0]] + t[1..];
    }
  }

  function BuildId(digest: Digest, prefix: string, material: string): string {
    prefix + "-" + digest(material)
  }

  /** The digest is what follows the last hyphen, so an identifier, whatever stands before it, tells its material. */
  lemma BuildIdInjective(digest: Digest, a: string, m: string, b: string, n: string)
    requires SoundDigest(digest)
    requires BuildId(digest, a, m) == BuildId(digest, b, n)
    ensures m == n && a == b
  {
    SplitAtLast(a, digest(m), b, digest(n), '-');
  }

  lemma SplitAtLast(a: string, x: string, b: string, y: string, sep: char)
    requires sep !in x && sep !in y
    requires a + [sep] + x == b + [sep] + y
    ensures a == b && x == y
  {
    var s := a + [sep] + x;
    assert s[|a|] == sep && s[|b|] == sep;
    assert forall i :: |a| < i < |s| ==> s[i] == x[i - |a| - 1] != sep;
    assert forall i :: |b| < i < |s| ==> s[i] == y[i - |b| - 1] != sep;
    assert |a| == |b|;
    assert s[..|a|] == a && s[..|b|] == b;
    assert s[|a| + 1..] == x && s[|b| + 1..] == y;
  }

  lemma SplitAtFirst(a: string, x: string, b: string, y: string, sep: char)
    requires sep !in a && sep !in b
    requires a + [sep] + x == b + [sep] + y
    ensures a == b && x == y
  {
    var s := a + [sep] + x;
    assert s[|a|] == sep && s[|b|] == sep;
    assert forall i :: 0 <= i < |a| ==> s[i] == a[i] != sep;
    assert forall i :: 0 <= i < |b| ==> s[i] == b[i] != sep;
    assert |a| == |b|;
    assert s[..|a|] == a && s[..|b|] == b;
    assert s[|a| + 1..] == x && s[|b| + 1..] == y;
  }

  /** Words before a common ending agree. */
  lemma CancelSuffix(a: string, b: string, suffix: string)
    requires a + suffix == b + suffix
    ensures a == b
  {
    assert |a| == |b|;
    assert (a + suffix)[..|a|] == a && (b + suffix)[..|b|] == b;
  }
}
