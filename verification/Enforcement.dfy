/** The enforcement decision (protocol/enforcement) and its agreement with the capability machine. */
module Enforcement {
  import opened Wrappers
  import opened Sequences
  import opened StableSorting
  import opened OrderedMaps
  import opened Text
  import opened Scope
  import opened Environment
  import opened Capabilities
  import Consents

  /** `resource` may be absent, null, or a typed reference. */
  datatype Resource = NoResource | NullResource | Resource(kind: string, ref: string)

  datatype Request = Request(
    capability: Capability, requestedScope: seq<ScopeEntry>, requestedPermissions: seq<string>,
    subject: Option<string>, grantee: Option<string>, marketMakerId: Option<string>,
    resource: Resource, now: Option<int>)

  datatype ReasonCode =
    | CAPABILITY_INVALID | CAPABILITY_EXPIRED | CAPABILITY_REVOKED | CAPABILITY_REVOCATION_UNKNOWN
    | CAPABILITY_NOT_YET_ACTIVE | SCOPE_NOT_ALLOWED | PERMISSION_NOT_ALLOWED | SUBJECT_MISMATCH
    | GRANTEE_MISMATCH | MARKET_MAKER_MISMATCH | REQUEST_INVALID | ENFORCEMENT_ALLOW

  datatype Decision = Decision(
    allowed: bool, reason: ReasonCode,
    request: Option<Request>, capability: Option<Capability>,
    matchedScope: Option<seq<ScopeEntry>>, matchedPermissions: Option<seq<string>>)

  // ---------------------------------------------------------------- enforcement-request.ts

  function ParseEntry(e: ScopeEntry): ScopeEntry {
    ScopeEntry(Trim(e.kind), Norm(e.ref))
  }

  predicate EntryParses(e: ScopeEntry) {
    Trim(e.kind) in VALID_KINDS && Trim(e.ref) != ""
  }

  predicate BindingParses(binding: Option<string>) {
    binding.Some? ==> Trim(binding.value) != ""
  }

  predicate ResourceParses(r: Resource) {
    r.Resource? ==> Trim(r.kind) in VALID_KINDS && Trim(r.ref) != ""
  }

  predicate RequestParses(r: Request) {
    && r.requestedScope != [] && (forall e :: e in r.requestedScope ==> EntryParses(e))
    && r.requestedPermissions != [] && (forall p :: p in r.requestedPermissions ==> Trim(p) != "")
    && BindingParses(r.subject) && BindingParses(r.grantee) && BindingParses(r.marketMakerId)
    && ResourceParses(r.resource)
  }

  function ParseRequest(r: Request): Request {
    r.(requestedScope := Map(r.requestedScope, ParseEntry),
       requestedPermissions := Map(r.requestedPermissions, Norm),
       subject := Consents.MapOption(r.subject, Trim),
       grantee := Consents.MapOption(r.grantee, Trim),
       marketMakerId := Consents.MapOption(r.marketMakerId, Trim),
       resource := if r.resource.Resource? then Resource(Trim(r.resource.kind), Norm(r.resource.ref)) else r.resource)
  }

  function DedupeMap(scope: seq<ScopeEntry>): (m: OrderedMap<string, ScopeEntry>)
    ensures m.Valid()
  {
    if scope == [] then Empty()
    else
      var front := DedupeMap(DropLast(scope));
      front.SetValid(ScopeKey(Last(scope)), Last(scope));
      front.Set(ScopeKey(Last(scope)), Last(scope))
  }

  function DedupeScope(rank: Ranking, scope: seq<ScopeEntry>): seq<ScopeEntry> {
    SortByKindRef(rank, DedupeMap(scope).Values())
  }

  method DedupeScopeEntries(rank: Ranking, scope: seq<ScopeEntry>) returns (r: seq<ScopeEntry>)
    ensures r == DedupeScope(rank, scope)
  {
    var deduped: OrderedMap<string, ScopeEntry> := Empty();
    for i := 0 to |scope|
      invariant deduped == DedupeMap(scope[..i])
    {
      assert DropLast(scope[..i + 1]) == scope[..i];
      deduped := deduped.Set(ScopeKey(scope[i]), scope[i]);
    }
    assert scope[..|scope|] == scope;
    r := SortByKindRef(rank, deduped.Values());
  }

  function NormalizeRequest(env: Env, r: Request): Request {
    r.(requestedScope := DedupeScope(env.rank, r.requestedScope),
       requestedPermissions := UniqueSorted(Map(r.requestedPermissions, Norm)))
  }

  function NormalRequest(env: Env, r: Request): Request {
    NormalizeRequest(env, ParseRequest(r))
  }

  predicate ColonFreeKinds(scope: seq<ScopeEntry>) {
    forall e :: e in scope ==> ':' !in e.kind
  }

  lemma KindNotLonger(a: ScopeEntry, b: ScopeEntry)
    requires ':' !in b.kind && ScopeKey(a) == ScopeKey(b)
    ensures |b.kind| <= |a.kind|
  {
    assert ScopeKey(a)[|a.kind|] == ':';
    assert forall i :: 0 <= i < |b.kind| ==> ScopeKey(b)[i] == b.kind[i] && b.kind[i] in b.kind;
  }

  /** A key determines the entry among entries whose kinds hold no colon, whatever their refs hold. */
  lemma ColonFreeKeyInjective(a: ScopeEntry, b: ScopeEntry)
    requires ':' !in a.kind && ':' !in b.kind && ScopeKey(a) == ScopeKey(b)
    ensures a == b
  {
    KindNotLonger(a, b);
    KindNotLonger(b, a);
    var n := |a.kind|;
    assert ScopeKey(a)[..n] == a.kind && ScopeKey(b)[..n] == b.kind;
    assert ScopeKey(a)[n + 1..] == a.ref && ScopeKey(b)[n + 1..] == b.ref;
  }

  /** The map holds exactly these entries, in this order, each under its key. */
  ghost predicate MapHolds(m: OrderedMap<string, ScopeEntry>, entries: seq<ScopeEntry>) {
    m.Valid() && m.keys == Map(entries, ScopeKey) && m.Values() == entries
  }

  lemma MapHoldsOld(m: OrderedMap<string, ScopeEntry>, entries: seq<ScopeEntry>, e: ScopeEntry)
    requires MapHolds(m, entries) && e in entries
    ensures MapHolds(m.Set(ScopeKey(e), e), entries)
  {
    var i :| 0 <= i < |entries| && entries[i] == e;
    assert m.keys[i] == ScopeKey(e) && m.Values()[i] == e;
    assert m.Set(ScopeKey(e), e) == m;
  }

  lemma MapHoldsNew(m: OrderedMap<string, ScopeEntry>, entries: seq<ScopeEntry>, e: ScopeEntry)
    requires MapHolds(m, entries) && ColonFreeKinds(entries) && ':' !in e.kind && e !in entries
    ensures MapHolds(m.Set(ScopeKey(e), e), entries + [e])
  {
    assert ScopeKey(e) !in m.keys by {
      if i :| 0 <= i < |entries| && m.keys[i] == ScopeKey(e) {
        ColonFreeKeyInjective(entries[i], e);
      }
    }
    var m' := m.Set(ScopeKey(e), e);
    m.SetValid(ScopeKey(e), e);
    assert m'.keys == Map(entries + [e], ScopeKey);
    assert m'.Values() == entries + [e] by {
      forall i | 0 <= i < |entries| ensures m'.Values()[i] == entries[i] {
        assert m'.keys[i] == m.keys[i] && m.Values()[i] == entries[i];
      }
    }
  }

  lemma {:induction false} DedupeMapIsDedupe(scope: seq<ScopeEntry>)
    requires ColonFreeKinds(scope)
    ensures MapHolds(DedupeMap(scope), Dedupe(scope))
  {
    if scope != [] {
      var front, e := DropLast(scope), Last(scope);
      assert scope == front + [e];
      DedupeMapIsDedupe(front);
      DedupeProperties(front);
      if e in Dedupe(front) {
        MapHoldsOld(DedupeMap(front), Dedupe(front), e);
      } else {
        MapHoldsNew(DedupeMap(front), Dedupe(front), e);
      }
    }
  }

  lemma DedupeScopeProperties(env: Env, scope: seq<ScopeEntry>)
    requires Sound(env) && ColonFreeKinds(scope)
    ensures forall e :: e in DedupeScope(env.rank, scope) <==> e in scope
    ensures Distinct(DedupeScope(env.rank, scope))
    ensures DedupeScope(env.rank, DedupeScope(env.rank, scope)) == DedupeScope(env.rank, scope)
  {
    DedupeMapIsDedupe(scope);
    DedupeProperties(scope);
    SortKindRefProperties(env.rank, Dedupe(scope));
    var sorted := DedupeScope(env.rank, scope);
    DistinctPermutation(Dedupe(scope), sorted);
    DedupeMapIsDedupe(sorted);
    DedupeDistinct(sorted);
  }

  lemma KindsArePlain(kind: string)
    ensures kind in VALID_KINDS ==> Trim(kind) == kind && ':' !in kind
  {
    if kind in VALID_KINDS {
      assert AllIn(kind, IsLowerLetter);
      assert forall c :: IsLowerLetter(c) ==> Plain(c);
      NormOfPlain(kind);
    }
  }

  lemma ParsedEntries(r: Request)
    requires RequestParses(r)
    ensures ColonFreeKinds(ParseRequest(r).requestedScope)
    ensures forall e :: e in ParseRequest(r).requestedScope ==> EntryParses(e) && ParseEntry(e) == e
    ensures forall p :: p in ParseRequest(r).requestedPermissions ==> Trim(p) != "" && Norm(p) == p
  {
    var parsed := ParseRequest(r);
    forall e | e in parsed.requestedScope ensures EntryParses(e) && ParseEntry(e) == e && ':' !in e.kind {
      var i :| 0 <= i < |r.requestedScope| && parsed.requestedScope[i] == e;
      assert r.requestedScope[i] in r.requestedScope;
      KindsArePlain(Trim(r.requestedScope[i].kind));
      NormIdempotent(r.requestedScope[i].ref);
    }
    forall p | p in parsed.requestedPermissions ensures Trim(p) != "" && Norm(p) == p {
      var i :| 0 <= i < |r.requestedPermissions| && parsed.requestedPermissions[i] == p;
      assert r.requestedPermissions[i] in r.requestedPermissions;
      NormIdempotent(r.requestedPermissions[i]);
    }
  }

  /** The normal form holds the requested entries and permissions, each once, in a shape that parsing and
      normalising leave alone. */
  lemma NormalRequestProperties(env: Env, r: Request)
    requires Sound(env) && RequestParses(r)
    ensures var n := NormalRequest(env, r);
            && (forall e :: e in n.requestedScope <==> e in Map(r.requestedScope, ParseEntry))
            && (forall p :: p in n.requestedPermissions <==> p in Map(r.requestedPermissions, Norm))
            && n.requestedScope != [] && n.requestedPermissions != []
            && (forall e :: e in n.requestedScope ==> EntryParses(e) && ParseEntry(e) == e)
            && (forall p :: p in n.requestedPermissions ==> Trim(p) != "" && Norm(p) == p)
  {
    ParsedEntries(r);
    var parsed := ParseRequest(r);
    DedupeScopeProperties(env, parsed.requestedScope);
    MapFixed(parsed.requestedPermissions, Norm);
    UniqueSortedProperties(parsed.requestedPermissions);
    assert parsed.requestedScope[0] in parsed.requestedScope;
    assert parsed.requestedPermissions[0] in parsed.requestedPermissions;
  }

  /** Everything else about the request is kept: the bindings trimmed, the resource trimmed and its ref lower-cased. */
  lemma NormalRequestKeeps(env: Env, r: Request)
    requires Sound(env) && RequestParses(r)
    ensures var n := NormalRequest(env, r);
            && n.capability == r.capability && n.now == r.now
            && TrimsTo(r.subject, n.subject) && TrimsTo(r.grantee, n.grantee)
               && TrimsTo(r.marketMakerId, n.marketMakerId)
            && (if r.resource.Resource? then n.resource == Resource(Trim(r.resource.kind), Norm(r.resource.ref))
                else n.resource == r.resource)
            && Distinct(n.requestedScope) && Distinct(n.requestedPermissions)
            && SortedBy(n.requestedPermissions, StrLe)
  {
    ParsedEntries(r);
    DedupeScopeProperties(env, ParseRequest(r).requestedScope);
    UniqueSortedProperties(Map(ParseRequest(r).requestedPermissions, Norm));
  }

  predicate TrimsTo(before: Option<string>, after: Option<string>) {
    (before.None? ==> after.None?) && (before.Some? ==> after == Some(Trim(before.value)))
  }

  /** What a request needs to parse. */
  lemma RequestParsesIff(r: Request)
    ensures RequestParses(r) <==>
            && r.requestedScope != [] && r.requestedPermissions != []
            && (forall e :: e in r.requestedScope ==> Trim(e.kind) in {"field", "content", "pack"} && Trim(e.ref) != "")
            && (forall p :: p in r.requestedPermissions ==> Trim(p) != "")
            && Trim(r.subject.GetOr("-")) != "" && Trim(r.grantee.GetOr("-")) != ""
               && Trim(r.marketMakerId.GetOr("-")) != ""
            && (r.resource.Resource? ==>
                Trim(r.resource.kind) in {"field", "content", "pack"} && Trim(r.resource.ref) != "")
  {
    TrimOfTrimmed("-");
    assert !IsWhite('-');
  }

  lemma NormalBinding(b: Option<string>)
    requires BindingParses(b)
    ensures var n := Consents.MapOption(b, Trim); BindingParses(n) && Consents.MapOption(n, Trim) == n
  {
    if b.Some? {
      TrimIdempotent(b.value);
    }
  }

  lemma NormalResource(r: Request)
    requires ResourceParses(r.resource)
    ensures ResourceParses(ParseRequest(r).resource)
    ensures ParseRequest(ParseRequest(r)).resource == ParseRequest(r).resource
  {
    if r.resource.Resource? {
      TrimIdempotent(r.resource.kind);
      NormIdempotent(r.resource.ref);
    }
  }

  /** A second pass of parsing and normalising changes nothing. */
  lemma NormalRequestIdempotent(env: Env, r: Request)
    requires Sound(env) && RequestParses(r)
    ensures RequestParses(NormalRequest(env, r))
    ensures NormalRequest(env, NormalRequest(env, r)) == NormalRequest(env, r)
  {
    NormalRequestProperties(env, r);
    var n := NormalRequest(env, r);
    MapFixed(n.requestedScope, ParseEntry);
    MapFixed(n.requestedPermissions, Norm);
    NormalBinding(r.subject);
    NormalBinding(r.grantee);
    NormalBinding(r.marketMakerId);
    NormalResource(r);
    ParsedEntries(r);
    DedupeScopeProperties(env, ParseRequest(r).requestedScope);
    UniqueSortedIdempotent(Map(ParseRequest(r).requestedPermissions, Norm));
  }

  // ---------------------------------------------------------------- enforcement-engine.ts

  /** The longest prefix of allowed elements, and the element that ends it, if any. */
  function FirstMismatch<T>(requested: seq<T>, allowed: T -> bool): (r: (seq<T>, Option<T>))
    ensures r.0 <= requested && forall x :: x in r.0 ==> allowed(x)
    ensures r.1.None? <==> r.0 == requested
    ensures r.1.Some? ==> |r.0| < |requested| && r.1.value == requested[|r.0|] && !allowed(r.1.value)
  {
    if requested == [] then ([], None)
    else if !allowed(requested[0]) then ([], Some(requested[0]))
    else
      var (matched, mismatch) := FirstMismatch(requested[1..], allowed);
      ([requested[0]] + matched, mismatch)
  }

  predicate AllowsEntry(scope: seq<ScopeEntry>, e: ScopeEntry) {
    ScopeKey(e) in Map(scope, ScopeKey)
  }

  function ScopeMismatch(requested: seq<ScopeEntry>, scope: seq<ScopeEntry>): (seq<ScopeEntry>, Option<ScopeEntry>) {
    FirstMismatch(requested, (e: ScopeEntry) => AllowsEntry(scope, e))
  }

  function PermissionMismatch(requested: seq<string>, permissions: seq<string>): (seq<string>, Option<string>) {
    FirstMismatch(requested, (p: string) => p in permissions)
  }

  lemma {:induction false} FirstMismatchIs<T>(requested: seq<T>, allowed: T -> bool, k: nat)
    requires k <= |requested| && (forall x :: x in requested[..k] ==> allowed(x))
    requires k < |requested| ==> !allowed(requested[k])
    ensures FirstMismatch(requested, allowed) ==
            (requested[..k], if k < |requested| then Some(requested[k]) else None)
  {
    if k > 0 {
      assert requested[0] in requested[..k];
      forall x | x in requested[1..][..k - 1] ensures allowed(x) {
        assert x in requested[..k];
      }
      FirstMismatchIs(requested[1..], allowed, k - 1);
      assert requested[..k] == [requested[0]] + requested[1..][..k - 1];
    }
  }

  method FindScopeMismatch(requested: seq<ScopeEntry>, scope: seq<ScopeEntry>)
    returns (matched: seq<ScopeEntry>, mismatch: Option<ScopeEntry>)
    ensures (matched, mismatch) == ScopeMismatch(requested, scope)
  {
    var allowed := set e | e in scope :: ScopeKey(e);
    assert forall k :: k in allowed <==> k in Map(scope, ScopeKey) by {
      forall k ensures k in allowed <==> k in Map(scope, ScopeKey) {
        if k in Map(scope, ScopeKey) {
          var i :| 0 <= i < |scope| && Map(scope, ScopeKey)[i] == k;
          assert scope[i] in scope;
        }
        if k in allowed {
          var e :| e in scope && ScopeKey(e) == k;
          var i :| 0 <= i < |scope| && scope[i] == e;
          assert Map(scope, ScopeKey)[i] == k;
        }
      }
    }
    matched := [];
    for i := 0 to |requested|
      invariant matched == requested[..i]
      invariant forall e :: e in matched ==> AllowsEntry(scope, e)
    {
      if ScopeKey(requested[i]) !in allowed {
        FirstMismatchIs(requested, (e: ScopeEntry) => AllowsEntry(scope, e), i);
        return matched, Some(requested[i]);
      }
      matched := matched + [requested[i]];
    }
    FirstMismatchIs(requested, (e: ScopeEntry) => AllowsEntry(scope, e), |requested|);
    mismatch := None;
  }

  method FindPermissionMismatch(requested: seq<string>, permissions: seq<string>)
    returns (matched: seq<string>, mismatch: Option<string>)
    ensures (matched, mismatch) == PermissionMismatch(requested, permissions)
  {
    matched := [];
    for i := 0 to |requested|
      invariant matched == requested[..i]
      invariant forall p :: p in matched ==> p in permissions
    {
      if requested[i] !in permissions {
        FirstMismatchIs(requested, (p: string) => p in permissions, i);
        return matched, Some(requested[i]);
      }
      matched := matched + [requested[i]];
    }
    FirstMismatchIs(requested, (p: string) => p in permissions, |requested|);
    mismatch := None;
  }

  function StateReason(state: CapabilityState): ReasonCode {
    match state
    case ExpiredCapability => CAPABILITY_EXPIRED
    case RevokedCapability => CAPABILITY_REVOKED
    case CapabilityRevocationUnknown => CAPABILITY_REVOCATION_UNKNOWN
    case NotYetActive => CAPABILITY_NOT_YET_ACTIVE
    case InvalidCapability => CAPABILITY_INVALID
    case ActiveCapability => ENFORCEMENT_ALLOW
  }

  function AccessOf(n: Request, clock: int): AccessRequest {
    AccessRequest(n.requestedScope, n.requestedPermissions, n.subject, n.grantee, n.marketMakerId, n.now.GetOr(clock))
  }

  /** The checks on a verified, active capability, in their order. */
  function Judge(env: Env, n: Request, c: Capability, clock: int, port: RevocationPort): Decision {
    var (matchedScope, scopeMismatch) := ScopeMismatch(n.requestedScope, c.scope);
    var (matchedPermissions, permissionMismatch) := PermissionMismatch(n.requestedPermissions, c.permissions);
    var deny := (reason: ReasonCode) =>
      Decision(false, reason, Some(n), Some(c), Some(matchedScope), Some(matchedPermissions));
    if scopeMismatch.Some? then Decision(false, SCOPE_NOT_ALLOWED, Some(n), Some(c), Some(matchedScope), None)
    else if permissionMismatch.Some? then deny(PERMISSION_NOT_ALLOWED)
    else if !Binds(n.subject, Some(c.subject)) then deny(SUBJECT_MISMATCH)
    else if !Binds(n.grantee, Some(c.grantee)) then deny(GRANTEE_MISMATCH)
    else if !Binds(n.marketMakerId, c.marketMakerId) then deny(MARKET_MAKER_MISMATCH)
    else if !EvaluateAccess(env, c, AccessOf(n, clock), port) then deny(REQUEST_INVALID)
    else Decision(true, ENFORCEMENT_ALLOW, Some(n), Some(c), Some(matchedScope), Some(matchedPermissions))
  }

  function Evaluate(env: Env, request: Request, clock: int, port: RevocationPort): Decision {
    if !RequestParses(request) then Decision(false, REQUEST_INVALID, None, None, None, None)
    else
      var n := NormalRequest(env, request);
      match Verify(env, n.capability)
      case Err(_) => Decision(false, CAPABILITY_INVALID, Some(n), None, None, None)
      case Ok(c) => EvaluateVerified(env, n, c, clock, port)
  }

  /** The decision about a verified capability. */
  function EvaluateVerified(env: Env, n: Request, c: Capability, clock: int, port: RevocationPort): Decision {
    var state := EvaluateState(env, c, n.now.GetOr(clock), port);
    if state != ActiveCapability then Decision(false, StateReason(state), Some(n), Some(c), None, None)
    else Judge(env, n, c, clock, port)
  }

  /** Everything the request asks for lies within the capability. */
  ghost predicate Within(n: Request, c: Capability) {
    && (forall e :: e in n.requestedScope ==> AllowsEntry(c.scope, e))
    && (forall p :: p in n.requestedPermissions ==> p in c.permissions)
    && Binds(n.subject, Some(c.subject)) && Binds(n.grantee, Some(c.grantee)) && Binds(n.marketMakerId, c.marketMakerId)
  }

  /** On a normal request and an active verified capability the machine answers `Within`. */
  lemma AccessMeaning(env: Env, n: Request, c: Capability, clock: int, port: RevocationPort)
    requires Verify(env, c) == Ok(c)
    requires EvaluateState(env, c, n.now.GetOr(clock), port) == ActiveCapability
    requires n.requestedScope != [] && n.requestedPermissions != []
    requires forall e :: e in n.requestedScope ==> EntryParses(e) && ParseEntry(e) == e
    requires forall p :: p in n.requestedPermissions ==> Trim(p) != "" && Norm(p) == p
    ensures EvaluateAccess(env, c, AccessOf(n, clock), port) <==> Within(n, c)
  {
    forall e | e in n.requestedScope
      ensures (Trim(e.ref) == "" || ScopeKey(Consents.NormEntry(e)) !in Map(c.scope, ScopeKey)) <==>
              !AllowsEntry(c.scope, e)
    {
      assert ParseEntry(e) == e && EntryParses(e);
    }
  }

  lemma JudgeMeaning(env: Env, n: Request, c: Capability, clock: int, port: RevocationPort)
    requires Verify(env, c) == Ok(c)
    requires EvaluateState(env, c, n.now.GetOr(clock), port) == ActiveCapability
    requires n.requestedScope != [] && n.requestedPermissions != []
    requires forall e :: e in n.requestedScope ==> EntryParses(e) && ParseEntry(e) == e
    requires forall p :: p in n.requestedPermissions ==> Trim(p) != "" && Norm(p) == p
    ensures Judge(env, n, c, clock, port).allowed <==> Within(n, c)
    ensures Judge(env, n, c, clock, port).reason != REQUEST_INVALID
    ensures Judge(env, n, c, clock, port).reason == ENFORCEMENT_ALLOW <==> Within(n, c)
  {
    AccessMeaning(env, n, c, clock, port);
  }

  /** The machine gives one answer for a capability and for its verified form. */
  lemma AccessOfVerified(env: Env, raw: Capability, request: AccessRequest, port: RevocationPort)
    requires Sound(env) && Verify(env, raw).Ok?
    ensures EvaluateAccess(env, Verify(env, raw).value, request, port) == EvaluateAccess(env, raw, request, port)
  {
    VerifyIdempotent(env, raw);
    StateOfVerified(env, raw, request.now, port);
  }

  ghost predicate Coherent(d: Decision, accepted: bool) {
    d.reason != REQUEST_INVALID && (d.allowed <==> d.reason == ENFORCEMENT_ALLOW) && (d.allowed <==> accepted)
  }

  lemma EvaluateVerifiedMeaning(env: Env, n: Request, c: Capability, clock: int, port: RevocationPort)
    requires Verify(env, c) == Ok(c)
    requires n.requestedScope != [] && n.requestedPermissions != []
    requires forall e :: e in n.requestedScope ==> EntryParses(e) && ParseEntry(e) == e
    requires forall p :: p in n.requestedPermissions ==> Trim(p) != "" && Norm(p) == p
    ensures Coherent(EvaluateVerified(env, n, c, clock, port), EvaluateAccess(env, c, AccessOf(n, clock), port))
  {
    if EvaluateState(env, c, n.now.GetOr(clock), port) == ActiveCapability {
      JudgeMeaning(env, n, c, clock, port);
      AccessMeaning(env, n, c, clock, port);
    }
  }

  /** The part of the decision that follows a successful parse. */
  lemma EvaluateParsed(env: Env, request: Request, clock: int, port: RevocationPort)
    requires Sound(env) && RequestParses(request)
    ensures Coherent(Evaluate(env, request, clock, port),
                     EvaluateAccess(env, request.capability, AccessOf(NormalRequest(env, request), clock), port))
  {
    var n := NormalRequest(env, request);
    if Verify(env, request.capability).Ok? {
      var c := Verify(env, request.capability).value;
      AccessOfVerified(env, request.capability, AccessOf(n, clock), port);
      VerifyIdempotent(env, request.capability);
      NormalRequestProperties(env, request);
      EvaluateVerifiedMeaning(env, n, c, clock, port);
    }
  }

  /** The engine allows a request exactly when it parses and the capability machine accepts its normal
      form, asked about the capability as it was sent. */
  lemma AllowedIffAccess(env: Env, request: Request, clock: int, port: RevocationPort)
    requires Sound(env)
    ensures Evaluate(env, request, clock, port).allowed <==>
            && RequestParses(request)
            && EvaluateAccess(env, request.capability, AccessOf(NormalRequest(env, request), clock), port)
  {
    if RequestParses(request) {
      EvaluateParsed(env, request, clock, port);
    }
  }

  /** Hence the last, defensive denial is never reached: the reason is REQUEST_INVALID only for requests
      that do not parse. */
  lemma FinalDenialUnreachable(env: Env, request: Request, clock: int, port: RevocationPort)
    requires Sound(env)
    ensures Evaluate(env, request, clock, port).reason == REQUEST_INVALID <==> !RequestParses(request)
    ensures Evaluate(env, request, clock, port).reason == ENFORCEMENT_ALLOW <==>
            Evaluate(env, request, clock, port).allowed
  {
    if RequestParses(request) {
      EvaluateParsed(env, request, clock, port);
    }
  }

  /** What an allowance says: a verified capability, active now, that covers the normal request. */
  lemma AllowedMeaning(env: Env, request: Request, clock: int, port: RevocationPort)
    requires Sound(env) && Evaluate(env, request, clock, port).allowed
    ensures RequestParses(request)
    ensures var n, d := NormalRequest(env, request), Evaluate(env, request, clock, port);
            && d.request == Some(n) && d.capability.Some? && Verify(env, request.capability) == Ok(d.capability.value)
            && EvaluateState(env, request.capability, request.now.GetOr(clock), port) == ActiveCapability
            && Within(n, d.capability.value)
  {
    AllowedIsJudged(env, request, clock, port);
    StateOfVerified(env, request.capability, request.now.GetOr(clock), port);
    JudgeShape(env, NormalRequest(env, request), Verify(env, request.capability).value, clock, port);
    JudgedWithin(env, request, clock, port);
  }

  lemma JudgeShape(env: Env, n: Request, c: Capability, clock: int, port: RevocationPort)
    ensures Judge(env, n, c, clock, port).request == Some(n) && Judge(env, n, c, clock, port).capability == Some(c)
  {
  }

  lemma JudgedWithin(env: Env, request: Request, clock: int, port: RevocationPort)
    requires Sound(env) && RequestParses(request) && Verify(env, request.capability).Ok?
    requires EvaluateState(env, Verify(env, request.capability).value, request.now.GetOr(clock), port)
             == ActiveCapability
    ensures var n, c := NormalRequest(env, request), Verify(env, request.capability).value;
            Judge(env, n, c, clock, port).allowed ==> Within(n, c)
  {
    VerifyIdempotent(env, request.capability);
    NormalRequestProperties(env, request);
    JudgeMeaning(env, NormalRequest(env, request), Verify(env, request.capability).value, clock, port);
  }

  lemma AllowedIsJudged(env: Env, request: Request, clock: int, port: RevocationPort)
    requires Evaluate(env, request, clock, port).allowed
    ensures RequestParses(request) && Verify(env, request.capability).Ok?
    ensures var n, c := NormalRequest(env, request), Verify(env, request.capability).value;
            && EvaluateState(env, c, n.now.GetOr(clock), port) == ActiveCapability
            && Evaluate(env, request, clock, port) == Judge(env, n, c, clock, port)
  {
  }

  // ---------------------------------------------------------------- reasons

  /** What is wrong with a normal request against a verified, active capability. */
  ghost predicate Mismatches(n: Request, c: Capability, reason: ReasonCode) {
    match reason
    case SCOPE_NOT_ALLOWED => exists e :: e in n.requestedScope && e !in c.scope
    case PERMISSION_NOT_ALLOWED => exists p :: p in n.requestedPermissions && p !in c.permissions
    case SUBJECT_MISMATCH => n.subject.Some? && n.subject.value != c.subject
    case GRANTEE_MISMATCH => n.grantee.Some? && n.grantee.value != c.grantee
    case MARKET_MAKER_MISMATCH => n.marketMakerId.Some? && n.marketMakerId != c.marketMakerId
    case _ => false
  }

  function CheckOrder(reason: ReasonCode): nat {
    match reason
    case SCOPE_NOT_ALLOWED => 0
    case PERMISSION_NOT_ALLOWED => 1
    case SUBJECT_MISMATCH => 2
    case GRANTEE_MISMATCH => 3
    case MARKET_MAKER_MISMATCH => 4
    case _ => 5
  }

  /** The decision names the first mismatch, or allows when there is none. */
  ghost predicate NamesFirstMismatch(n: Request, c: Capability, reason: ReasonCode) {
    if reason == ENFORCEMENT_ALLOW then forall r :: !Mismatches(n, c, r)
    else Mismatches(n, c, reason) && forall r :: Mismatches(n, c, r) ==> CheckOrder(reason) <= CheckOrder(r)
  }

  /** The matched part of a list: everything before the first element that is not allowed. */
  ghost predicate LongestAllowed<T>(matched: seq<T>, requested: seq<T>, allowed: seq<T>) {
    && matched <= requested && (forall x :: x in matched ==> x in allowed)
    && (|matched| < |requested| ==> requested[|matched|] !in allowed)
  }

  lemma EntriesAllowed(scope: seq<ScopeEntry>)
    requires ValidScope(scope)
    ensures forall e :: AllowsEntry(scope, e) <==> e in scope
  {
    forall e ensures AllowsEntry(scope, e) <==> e in scope {
      KeyMembership(scope, e);
    }
  }

  lemma ScopeMatches(requested: seq<ScopeEntry>, scope: seq<ScopeEntry>)
    requires ValidScope(scope)
    ensures LongestAllowed(ScopeMismatch(requested, scope).0, requested, scope)
    ensures ScopeMismatch(requested, scope).1.Some? <==> exists e :: e in requested && e !in scope
  {
    EntriesAllowed(scope);
    var (matched, mismatch) := ScopeMismatch(requested, scope);
    if mismatch.Some? {
      assert requested[|matched|] in requested;
    }
  }

  lemma PermissionMatches(requested: seq<string>, permissions: seq<string>)
    ensures LongestAllowed(PermissionMismatch(requested, permissions).0, requested, permissions)
    ensures PermissionMismatch(requested, permissions).1.Some? <==> exists p :: p in requested && p !in permissions
  {
    var (matched, mismatch) := PermissionMismatch(requested, permissions);
    if mismatch.Some? {
      assert requested[|matched|] in requested;
    }
  }

  /** What the decision about an active capability reports. */
  ghost predicate Reports(n: Request, c: Capability, d: Decision) {
    && d.request == Some(n) && d.capability == Some(c)
    && NamesFirstMismatch(n, c, d.reason)
    && d.matchedScope.Some? && LongestAllowed(d.matchedScope.value, n.requestedScope, c.scope)
    && (d.matchedPermissions.None? <==> d.reason == SCOPE_NOT_ALLOWED)
    && (d.matchedPermissions.Some? ==>
        LongestAllowed(d.matchedPermissions.value, n.requestedPermissions, c.permissions))
  }

  lemma JudgeReports(env: Env, n: Request, c: Capability, clock: int, port: RevocationPort)
    requires ValidScope(c.scope) && Judge(env, n, c, clock, port).reason != REQUEST_INVALID
    ensures Reports(n, c, Judge(env, n, c, clock, port))
  {
    ScopeMatches(n.requestedScope, c.scope);
    PermissionMatches(n.requestedPermissions, c.permissions);
  }

  /** Which denial gets which reason: a request that does not parse, a capability that does not verify, a state that is
      not active, and then the first mismatch. */
  lemma ReasonSays(env: Env, request: Request, clock: int, port: RevocationPort)
    requires Sound(env)
    ensures var d := Evaluate(env, request, clock, port);
            var n := NormalRequest(env, request);
            if !RequestParses(request) then d == Decision(false, REQUEST_INVALID, None, None, None, None)
            else if Verify(env, request.capability).Err?
            then d == Decision(false, CAPABILITY_INVALID, Some(n), None, None, None)
            else
              var c := Verify(env, request.capability).value;
              match EvaluateState(env, request.capability, request.now.GetOr(clock), port)
              case ActiveCapability => Reports(n, c, d)
              case ExpiredCapability => d == Decision(false, CAPABILITY_EXPIRED, Some(n), Some(c), None, None)
              case RevokedCapability => d == Decision(false, CAPABILITY_REVOKED, Some(n), Some(c), None, None)
              case NotYetActive => d == Decision(false, CAPABILITY_NOT_YET_ACTIVE, Some(n), Some(c), None, None)
              case CapabilityRevocationUnknown =>
                d == Decision(false, CAPABILITY_REVOCATION_UNKNOWN, Some(n), Some(c), None, None)
              case InvalidCapability => false
  {
    if RequestParses(request) && Verify(env, request.capability).Ok? {
      var n, c := NormalRequest(env, request), Verify(env, request.capability).value;
      NormalRequestKeeps(env, request);
      VerifyIdempotent(env, request.capability);
      StateOfVerified(env, request.capability, request.now.GetOr(clock), port);
      InvalidIff(env, request.capability, request.now.GetOr(clock), port);
      FinalDenialUnreachable(env, request, clock, port);
      VerifiedReason(env, n, c, clock, port);
    }
  }

  lemma VerifiedReason(env: Env, n: Request, c: Capability, clock: int, port: RevocationPort)
    requires ValidScope(c.scope)
    ensures var d, state := EvaluateVerified(env, n, c, clock, port), EvaluateState(env, c, n.now.GetOr(clock), port);
            if state == ActiveCapability then d.reason == REQUEST_INVALID || Reports(n, c, d)
            else d == Decision(false, StateReason(state), Some(n), Some(c), None, None)
  {
    if EvaluateState(env, c, n.now.GetOr(clock), port) == ActiveCapability
       && Judge(env, n, c, clock, port).reason != REQUEST_INVALID {
      JudgeReports(env, n, c, clock, port);
    }
  }
}
