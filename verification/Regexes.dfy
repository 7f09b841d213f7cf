/** A small language of regular expressions with its denotational meaning. */
module Regexes {
  datatype Regex =
    | One(p: char -> bool)
    | Cat(first: Regex, second: Regex)
    | Star(body: Regex)

  function Plus(r: Regex): Regex {
    Cat(r, Star(r))
  }

  ghost predicate Matches(r: Regex, s: string)
    decreases r, |s|
  {
    match r
    case One(p) => |s| == 1 && p(s[0])
    case Cat(a, b) => exists k :: 0 <= k <= |s| && Matches(a, s[..k]) && Matches(b, s[k..])
    case Star(a) => s == "" || exists k :: 0 < k <= |s| && Matches(a, s[..k]) && Matches(r, s[k..])
  }

  /** A starred character class matches the strings over the class. */
  lemma {:induction false} StarOfClass(p: char -> bool, s: string)
    ensures Matches(Star(One(p)), s) <==> forall c :: c in s ==> p(c)
    decreases |s|
  {
    if s != "" {
      StarOfClass(p, s[1..]);
      assert s == [s[0]] + s[1..];
      if Matches(Star(One(p)), s) {
        var k :| 0 < k <= |s| && Matches(One(p), s[..k]) && Matches(Star(One(p)), s[k..]);
        assert k == 1;
      }
      if forall c :: c in s ==> p(c) {
        assert s[0] in s;
        assert Matches(One(p), s[..1]) && Matches(Star(One(p)), s[1..]);
      }
    }
  }

  lemma CatIntro(a: Regex, b: Regex, s: string, t: string)
    requires Matches(a, s) && Matches(b, t)
    ensures Matches(Cat(a, b), s + t)
  {
    assert (s + t)[..|s|] == s && (s + t)[|s|..] == t;
  }

  lemma StarIntro(a: Regex, s: string, t: string)
    requires s != "" && Matches(a, s) && Matches(Star(a), t)
    ensures Matches(Star(a), s + t)
  {
    assert (s + t)[..|s|] == s && (s + t)[|s|..] == t;
  }
}
