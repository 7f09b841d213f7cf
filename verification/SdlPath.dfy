/** SDL paths: the parser and validator of sdl/, and the path pattern of vault/vault.ts. */
module SdlPath {
  import opened Wrappers
  import opened Sequences
  import opened Text
  import opened Regexes

  datatype ErrorCode = EMPTY_INPUT | INVALID_SEGMENT | EMPTY_SEGMENT | TOO_FEW_SEGMENTS | LEADING_DOT | TRAILING_DOT

  datatype Segment = Segment(value: string, index: nat)

  datatype Path = Path(raw: string, segments: seq<Segment>, domain: string, attribute: string)

  datatype PathError = PathError(input: string, code: ErrorCode)

  predicate IsSegmentChar(c: char) {
    IsLowerLetter(c) || IsDigit(c) || c == '-'
  }

  /** `^[a-z][a-z0-9-]*$` */
  predicate IsSegment(s: string) {
    s != "" && IsLowerLetter(s[0]) && AllIn(s, IsSegmentChar)
  }

  /** `s.split('.')` */
  function Split(s: string): (r: seq<string>)
    ensures |r| >= 1
  {
    if s == "" then [""]
    else if s[0] == '.' then [""] + Split(s[1..])
    else
      var rest := Split(s[1..]);
      [[s[0]] + rest[0]] + rest[1..]
  }

  function DotJoin(segments: seq<string>): string {
    JoinTail(segments, ".")
  }

  /** `segments.join('.')` */
  function Join(segments: seq<string>): string {
    Text.Join(segments, ".")
  }

  function Values(segments: seq<Segment>): (r: seq<string>)
    ensures |r| == |segments|
  {
    seq(|segments|, i requires 0 <= i < |segments| => segments[i].value)
  }

  function Indexed(values: seq<string>): (r: seq<Segment>)
    ensures |r| == |values|
  {
    seq(|values|, i requires 0 <= i < |values| => Segment(values[i], i))
  }

  function PathOf(values: seq<string>, raw: string): Path
    requires values != []
  {
    Path(raw, Indexed(values), values[0], Last(values))
  }

  function Parse(input: string): Result<Path, PathError> {
    var trimmed := Trim(input);
    if trimmed == "" then Err(PathError(input, EMPTY_INPUT))
    else if trimmed[0] == '.' then Err(PathError(trimmed, LEADING_DOT))
    else if Last(trimmed) == '.' then Err(PathError(trimmed, TRAILING_DOT))
    else
      var raw := Split(trimmed);
      if exists s :: s in raw && s == "" then Err(PathError(trimmed, EMPTY_SEGMENT))
      else if |raw| < 2 then Err(PathError(trimmed, TOO_FEW_SEGMENTS))
      else if exists s :: s in raw && !IsSegment(s) then Err(PathError(trimmed, INVALID_SEGMENT))
      else Ok(PathOf(raw, trimmed))
  }

  // ---------------------------------------------------------------- validator.ts

  function SegmentErrors(raw: string, segments: seq<Segment>): seq<PathError> {
    if segments == [] then []
    else
      SegmentErrors(raw, DropLast(segments)) +
      if Last(segments).value == "" then [PathError(raw, EMPTY_SEGMENT)]
      else if !IsSegment(Last(segments).value) then [PathError(raw, INVALID_SEGMENT)]
      else []
  }

  function ValidationErrors(path: Path): seq<PathError> {
    (if |path.segments| < 2 then [PathError(path.raw, TOO_FEW_SEGMENTS)] else [])
      + SegmentErrors(path.raw, path.segments)
  }

  method ValidateSDLPath(path: Path) returns (r: Result<Path, seq<PathError>>)
    ensures r.Err? ==> r.error == ValidationErrors(path) && r.error != []
    ensures r.Ok? <==> |path.segments| >= 2 && forall s :: s in path.segments ==> IsSegment(s.value)
    ensures r.Ok? ==> r.value == PathOf(Values(path.segments), Join(Values(path.segments)))
  {
    var errors: seq<PathError> := [];
    if |path.segments| < 2 {
      errors := errors + [PathError(path.raw, TOO_FEW_SEGMENTS)];
    }
    ghost var start := errors;
    for i := 0 to |path.segments|
      invariant errors == start + SegmentErrors(path.raw, path.segments[..i])
    {
      var segment := path.segments[i];
      assert DropLast(path.segments[..i + 1]) == path.segments[..i];
      if segment.value == "" {
        errors := errors + [PathError(path.raw, EMPTY_SEGMENT)];
      } else if !IsSegment(segment.value) {
        errors := errors + [PathError(path.raw, INVALID_SEGMENT)];
      }
    }
    assert path.segments[..|path.segments|] == path.segments;
    NoSegmentErrors(path.raw, path.segments);
    if |errors| > 0 {
      return Err(errors);
    }
    var values := Values(path.segments);
    r := Ok(Path(Join(values), Indexed(values), path.segments[0].value, Last(path.segments).value));
  }

  lemma {:induction false} NoSegmentErrors(raw: string, segments: seq<Segment>)
    ensures SegmentErrors(raw, segments) == [] <==> forall s :: s in segments ==> IsSegment(s.value)
  {
    if segments != [] {
      NoSegmentErrors(raw, DropLast(segments));
      assert segments == DropLast(segments) + [Last(segments)];
    }
  }

  // ---------------------------------------------------------------- the vault's pattern

  function SegmentPattern(): Regex {
    Cat(One(IsLowerLetter), Star(One(IsSegmentChar)))
  }

  function DotSegmentPattern(): Regex {
    Cat(One(c => c == '.'), SegmentPattern())
  }

  /** `^[a-z][a-z0-9-]*(\.[a-z][a-z0-9-]*)+$` */
  function SdlPathPattern(): Regex {
    Cat(SegmentPattern(), Plus(DotSegmentPattern()))
  }

  /** `validateSdlPath` reports no problem. */
  ghost predicate VaultAccepts(path: string) {
    Trim(path) != "" && Matches(SdlPathPattern(), Trim(path))
  }

  // ---------------------------------------------------------------- splitting and joining

  predicate DotFree(s: string) {
    '.' !in s
  }

  lemma {:induction false} JoinSplit(s: string)
    ensures Join(Split(s)) == s
  {
    if s != "" {
      JoinSplit(s[1..]);
      var rest := Split(s[1..]);
      if s[0] == '.' {
        assert ([""] + rest)[1..] == rest;
        assert DotJoin(rest) == "." + rest[0] + DotJoin(rest[1..]);
        assert s == "." + s[1..];
      } else {
        var r := [[s[0]] + rest[0]] + rest[1..];
        assert r[1..] == rest[1..];
        assert s == [s[0]] + s[1..];
      }
    }
  }

  lemma {:induction false} SplitDotFree(a: string)
    requires DotFree(a)
    ensures Split(a) == [a]
  {
    if a != "" {
      SplitDotFree(a[1..]);
      assert [a[0]] + a[1..] == a;
    }
  }

  lemma {:induction false} SplitDot(a: string, t: string)
    requires DotFree(a)
    ensures Split(a + "." + t) == [a] + Split(t)
  {
    if a == "" {
      assert (a + "." + t)[1..] == t;
    } else {
      SplitDot(a[1..], t);
      assert (a + "." + t)[1..] == a[1..] + "." + t;
      assert [a[0]] + a[1..] == a;
      assert ([a[1..]] + Split(t))[1..] == Split(t);
    }
  }

  lemma {:induction false} SplitJoin(segments: seq<string>)
    requires segments != [] && forall s :: s in segments ==> DotFree(s)
    ensures Split(Join(segments)) == segments
  {
    assert segments[0] in segments;
    if |segments| == 1 {
      SplitDotFree(segments[0]);
      assert Join(segments) == segments[0];
    } else {
      SplitJoin(segments[1..]);
      SplitDot(segments[0], Join(segments[1..]));
      JoinCons(segments);
      assert [segments[0]] + segments[1..] == segments;
    }
  }

  lemma JoinCons(segments: seq<string>)
    requires |segments| > 1
    ensures Join(segments) == segments[0] + "." + Join(segments[1..])
  {
    var rest := segments[1..];
    assert DotJoin(rest) == "." + rest[0] + DotJoin(rest[1..]);
  }

  lemma SegmentsAreDotFree(s: string)
    requires IsSegment(s)
    ensures DotFree(s) && s[0] != '.' && Last(s) != '.' && Trim(s) == s
  {
    assert forall c :: IsSegmentChar(c) ==> c != '.' && Plain(c);
    assert Last(s) in s;
    NormOfPlain(s);
  }

  ghost predicate ValidSegments(segments: seq<string>) {
    |segments| >= 2 && forall s :: s in segments ==> IsSegment(s)
  }

  lemma {:induction false} LastOfSplit(s: string)
    requires s != "" && Last(s) == '.'
    ensures Last(Split(s)) == ""
  {
    if |s| > 1 {
      LastOfSplit(s[1..]);
    }
  }

  /** The parser's checks together say: at least two segments, all of them well formed. */
  lemma ParsesIffValidSegments(input: string)
    ensures Parse(input).Ok? <==> ValidSegments(Split(Trim(input)))
    ensures Parse(input).Ok? ==> Parse(input).value == PathOf(Split(Trim(input)), Trim(input))
  {
    var t := Trim(input);
    if t != "" && t[0] == '.' {
      assert Split(t)[0] == "" && Split(t)[0] in Split(t);
    }
    if t != "" && Last(t) == '.' {
      LastOfSplit(t);
      assert Last(Split(t)) in Split(t);
    }
  }

  ghost predicate AdjacentDots(s: string) {
    exists i :: 0 <= i < |s| - 1 && s[i] == '.' && s[i + 1] == '.'
  }

  /** Where the empty segments are, by the first segment and the rest. */
  lemma {:induction false} EmptySegmentIff(s: string)
    ensures "" in Split(s) <==> s == "" || s[0] == '.' || Last(s) == '.' || AdjacentDots(s)
    ensures "" in Split(s)[1..] <==> s != "" && (Last(s) == '.' || AdjacentDots(s))
    ensures Split(s)[0] == "" <==> s == "" || s[0] == '.'
    ensures |Split(s)| < 2 <==> '.' !in s
  {
    if s != "" {
      var t, rest := s[1..], Split(s[1..]);
      EmptySegmentIff(t);
      assert s == [s[0]] + t && rest == [rest[0]] + rest[1..];
      assert t != "" ==> Last(t) == Last(s);
      if s[0] == '.' {
        assert Split(s)[1..] == rest;
        assert t != "" && t[0] == '.' ==> s[0] == '.' && s[1] == '.';
        DotsAfterDot(s);
      } else {
        assert Split(s)[1..] == rest[1..];
        DotsShift(s);
      }
    }
  }

  lemma DotsAfterDot(s: string)
    requires s != "" && s[0] == '.'
    ensures AdjacentDots(s) <==> (|s| > 1 && s[1] == '.') || AdjacentDots(s[1..])
  {
    var t := s[1..];
    if i :| 0 <= i < |s| - 1 && s[i] == '.' && s[i + 1] == '.' {
      if i > 0 { assert t[i - 1] == '.' && t[i] == '.'; }
    }
    if i :| 0 <= i < |t| - 1 && t[i] == '.' && t[i + 1] == '.' {
      assert s[i + 1] == '.' && s[i + 2] == '.';
    }
  }

  lemma DotsShift(s: string)
    requires s != "" && s[0] != '.'
    ensures AdjacentDots(s) <==> AdjacentDots(s[1..])
  {
    var t := s[1..];
    if i :| 0 <= i < |s| - 1 && s[i] == '.' && s[i + 1] == '.' {
      assert t[i - 1] == '.' && t[i] == '.';
    }
    if i :| 0 <= i < |t| - 1 && t[i] == '.' && t[i + 1] == '.' {
      assert s[i + 1] == '.' && s[i + 2] == '.';
    }
  }

  /** What the parser reports, from the dots of the trimmed input alone: nothing to parse, a dot at either end, two
      dots in a row, no dot, and then a segment that is not well formed. */
  lemma ParseErrorSays(input: string)
    requires Parse(input).Err?
    ensures var t, e := Trim(input), Parse(input).error;
            var framed := t != "" && (t[0] == '.' || Last(t) == '.');
            && (e.code == EMPTY_INPUT <==> t == "")
            && (e.code == LEADING_DOT <==> t != "" && t[0] == '.')
            && (e.code == TRAILING_DOT <==> t != "" && t[0] != '.' && Last(t) == '.')
            && (e.code == EMPTY_SEGMENT <==> t != "" && !framed && AdjacentDots(t))
            && (e.code == TOO_FEW_SEGMENTS <==> t != "" && '.' !in t)
            && (e.code == INVALID_SEGMENT <==> t != "" && !framed && !AdjacentDots(t) && '.' in t)
            && e.input == if t == "" then input else t
  {
    var t := Trim(input);
    EmptySegmentIff(t);
    if t != "" {
      assert t[0] in t && Last(t) in t;
    }
  }

  /** What the validator reports: too few segments once, and each empty or malformed segment. */
  lemma ValidationErrorsSay(path: Path)
    ensures var errors := ValidationErrors(path);
            && (PathError(path.raw, TOO_FEW_SEGMENTS) in errors <==> |path.segments| < 2)
            && (PathError(path.raw, EMPTY_SEGMENT) in errors <==> exists s :: s in path.segments && s.value == "")
            && (PathError(path.raw, INVALID_SEGMENT) in errors <==>
                  exists s :: s in path.segments && s.value != "" && !IsSegment(s.value))
            && forall e :: e in errors ==> e.input == path.raw
  {
    SegmentErrorsSay(path.raw, path.segments);
  }

  lemma {:induction false} SegmentErrorsSay(raw: string, segments: seq<Segment>)
    ensures var errors := SegmentErrors(raw, segments);
            && (PathError(raw, EMPTY_SEGMENT) in errors <==> exists s :: s in segments && s.value == "")
            && (PathError(raw, INVALID_SEGMENT) in errors <==>
                  exists s :: s in segments && s.value != "" && !IsSegment(s.value))
            && forall e :: e in errors ==> e.input == raw && e.code in {EMPTY_SEGMENT, INVALID_SEGMENT}
  {
    if segments != [] {
      SegmentErrorsSay(raw, DropLast(segments));
      assert segments == DropLast(segments) + [Last(segments)];
    }
  }

  /** Parsing then joining gives back the trimmed input, and it determines everything in the path. */
  lemma JoinOfParse(input: string)
    requires Parse(input).Ok?
    ensures var path := Parse(input).value;
            && Join(Values(path.segments)) == Trim(input) == path.raw
            && path == PathOf(Values(path.segments), Trim(input))
            && ValidSegments(Values(path.segments))
            && path.domain == path.segments[0].value && path.attribute == Last(path.segments).value
            && forall i :: 0 <= i < |path.segments| ==> path.segments[i].index == i
  {
    ParsesIffValidSegments(input);
    JoinSplit(Trim(input));
    assert Values(Parse(input).value.segments) == Split(Trim(input));
  }

  lemma {:induction false} DotJoinLast(segments: seq<string>)
    requires segments != []
    ensures Last(segments) != "" ==> DotJoin(segments) != "" && Last(DotJoin(segments)) == Last(Last(segments))
  {
    if |segments| > 1 {
      DotJoinLast(segments[1..]);
    } else {
      assert DotJoin(segments[1..]) == "";
    }
  }

  lemma JoinIsTrimmed(segments: seq<string>)
    requires ValidSegments(segments)
    ensures Trim(Join(segments)) == Join(segments)
  {
    assert segments[0] in segments && Last(segments) in segments;
    DotJoinLast(segments[1..]);
    assert forall c :: IsSegmentChar(c) ==> Plain(c);
    assert Last(Last(segments)) in Last(segments) && segments[0][0] in segments[0];
    TrimOfTrimmed(Join(segments));
  }

  /** Joining two or more valid segments parses to exactly those segments. */
  lemma ParseOfJoin(segments: seq<string>)
    requires ValidSegments(segments)
    ensures Parse(Join(segments)) == Ok(PathOf(segments, Join(segments)))
  {
    JoinIsTrimmed(segments);
    forall s | s in segments ensures DotFree(s) {
      SegmentsAreDotFree(s);
    }
    SplitJoin(segments);
    ParsesIffValidSegments(Join(segments));
  }

  /** The validator has nothing to say about a parsed path, and normalising it changes nothing. */
  lemma ValidatorFixesParsed(input: string)
    requires Parse(input).Ok?
    ensures var path := Parse(input).value;
            ValidationErrors(path) == [] && PathOf(Values(path.segments), Join(Values(path.segments))) == path
  {
    JoinOfParse(input);
    var path := Parse(input).value;
    forall s | s in path.segments ensures IsSegment(s.value) {
      var i :| 0 <= i < |path.segments| && path.segments[i] == s;
      assert Values(path.segments)[i] in Values(path.segments);
    }
    NoSegmentErrors(path.raw, path.segments);
  }

  // ---------------------------------------------------------------- one language, two recognisers

  lemma SegmentPatternMatches(s: string)
    ensures Matches(SegmentPattern(), s) <==> IsSegment(s)
  {
    if Matches(SegmentPattern(), s) {
      var k :| 0 <= k <= |s| && Matches(One(IsLowerLetter), s[..k]) && Matches(Star(One(IsSegmentChar)), s[k..]);
      assert k == 1;
      StarOfClass(IsSegmentChar, s[1..]);
      assert s == [s[0]] + s[1..];
    }
    if IsSegment(s) {
      StarOfClass(IsSegmentChar, s[1..]);
      assert s == s[..1] + s[1..];
      CatIntro(One(IsLowerLetter), Star(One(IsSegmentChar)), s[..1], s[1..]);
    }
  }

  lemma DotSegmentMatches(s: string)
    ensures Matches(DotSegmentPattern(), s) <==> s != "" && s[0] == '.' && IsSegment(s[1..])
  {
    var dot: char -> bool := c => c == '.';
    if Matches(DotSegmentPattern(), s) {
      var k :| 0 <= k <= |s| && Matches(One(c => c == '.'), s[..k]) && Matches(SegmentPattern(), s[k..]);
      assert k == 1;
      SegmentPatternMatches(s[1..]);
    }
    if s != "" && s[0] == '.' && IsSegment(s[1..]) {
      SegmentPatternMatches(s[1..]);
      assert s == s[..1] + s[1..];
      CatIntro(One(c => c == '.'), SegmentPattern(), s[..1], s[1..]);
    }
  }

  /** The starred group matches the dotted writing of any list of segments. */
  lemma {:induction false} GroupOfDotJoin(segments: seq<string>)
    requires forall s :: s in segments ==> IsSegment(s)
    ensures Matches(Star(DotSegmentPattern()), DotJoin(segments))
  {
    if segments != [] {
      GroupOfDotJoin(segments[1..]);
      assert segments[0] in segments;
      assert ("." + segments[0])[1..] == segments[0];
      DotSegmentMatches("." + segments[0]);
      StarIntro(DotSegmentPattern(), "." + segments[0], DotJoin(segments[1..]));
    }
  }

  lemma {:induction false} GroupIsDotJoin(s: string) returns (segments: seq<string>)
    requires Matches(Star(DotSegmentPattern()), s)
    ensures s == DotJoin(segments) && forall x :: x in segments ==> IsSegment(x)
    decreases |s|
  {
    if s == "" {
      segments := [];
    } else {
      var k :| 0 < k <= |s| && Matches(DotSegmentPattern(), s[..k]) && Matches(Star(DotSegmentPattern()), s[k..]);
      DotSegmentMatches(s[..k]);
      var rest := GroupIsDotJoin(s[k..]);
      segments := [s[..k][1..]] + rest;
      assert segments[1..] == rest;
      assert s[..k] == "." + s[..k][1..];
      assert s == s[..k] + s[k..];
    }
  }

  lemma PatternOfJoin(segments: seq<string>)
    requires ValidSegments(segments)
    ensures Matches(SdlPathPattern(), Join(segments))
  {
    var tail := segments[1..];
    assert segments[0] in segments && tail[0] in segments;
    SegmentPatternMatches(segments[0]);
    assert ("." + tail[0])[1..] == tail[0];
    DotSegmentMatches("." + tail[0]);
    GroupOfDotJoin(tail[1..]);
    CatIntro(DotSegmentPattern(), Star(DotSegmentPattern()), "." + tail[0], DotJoin(tail[1..]));
    CatIntro(SegmentPattern(), Plus(DotSegmentPattern()), segments[0], DotJoin(tail));
  }

  lemma TailIsDotJoin(t: string) returns (segments: seq<string>)
    requires Matches(Plus(DotSegmentPattern()), t)
    ensures segments != [] && t == DotJoin(segments) && forall x :: x in segments ==> IsSegment(x)
  {
    var j :| 0 <= j <= |t| && Matches(DotSegmentPattern(), t[..j]) && Matches(Star(DotSegmentPattern()), t[j..]);
    DotSegmentMatches(t[..j]);
    var rest := GroupIsDotJoin(t[j..]);
    segments := [t[..j][1..]] + rest;
    assert segments[1..] == rest;
    assert t[..j] == "." + t[..j][1..] && t == t[..j] + t[j..];
  }

  lemma PatternIsJoin(s: string) returns (segments: seq<string>)
    requires Matches(SdlPathPattern(), s)
    ensures ValidSegments(segments) && s == Join(segments)
  {
    var k :| 0 <= k <= |s| && Matches(SegmentPattern(), s[..k]) && Matches(Plus(DotSegmentPattern()), s[k..]);
    SegmentPatternMatches(s[..k]);
    var tail := TailIsDotJoin(s[k..]);
    segments := [s[..k]] + tail;
    assert segments[1..] == tail;
    assert s == s[..k] + s[k..];
  }

  /** The parser and the vault's regular expression accept the same inputs. */
  lemma RecognisersAgree(input: string)
    ensures Parse(input).Ok? <==> VaultAccepts(input)
  {
    var t := Trim(input);
    ParsesIffValidSegments(input);
    if Parse(input).Ok? {
      JoinSplit(t);
      PatternOfJoin(Split(t));
    }
    if VaultAccepts(input) {
      var segments := PatternIsJoin(t);
      forall s | s in segments ensures DotFree(s) {
        SegmentsAreDotFree(s);
      }
      SplitJoin(segments);
    }
  }
}
