/** Capabilities: parsing and hashing, minting from a consent, verification, state and access
    (protocol/capability). */
module Capabilities {
  import opened Wrappers
  import opened Sequences
  import opened StableSorting
  import opened Text
  import opened Scope
  import opened Environment
  import Consents

  datatype Capability = Capability(
    capabilityHash: string, parentConsentHash: string, subject: string, grantee: string,
    scope: seq<ScopeEntry>, permissions: seq<string>, issuedAt: string, expiresAt: string,
    notBefore: Option<string>, marketMakerId: Option<string>)

  // ---------------------------------------------------------------- capability-object.ts

  datatype ParseError =
    | BadIssuedAt | BadExpiresAt | BadCapabilityHash | BadParentHash | BadSubject | BadGrantee
    | BadScope | BadPermissions | BadNotBefore | BadMarketMaker

  function Normalized(env: Env, raw: Capability): Capability {
    Capability(Norm(raw.capabilityHash), Norm(raw.parentConsentHash), Trim(raw.subject), Trim(raw.grantee),
               SortByKindRef(env.rank, Map(raw.scope, Consents.NormEntry)), UniqueSorted(Map(raw.permissions, Norm)),
               raw.issuedAt, raw.expiresAt, raw.notBefore, Consents.MapOption(raw.marketMakerId, Trim))
  }

  predicate AcceptableScope(scope: seq<ScopeEntry>) {
    scope != [] && forall e :: e in scope ==> ValidEntry(Consents.NormEntry(e))
  }

  predicate AcceptablePermissions(permissions: seq<string>) {
    permissions != [] && forall p :: p in permissions ==> IsPermission(Norm(p))
  }

  /** Parsing trims and lower-cases what it may, rejects what then does not match, and sorts. */
  function Parse(env: Env, raw: Capability): Result<Capability, ParseError> {
    if !IsIsoSecond(raw.issuedAt) then Err(BadIssuedAt)
    else if !IsIsoSecond(raw.expiresAt) then Err(BadExpiresAt)
    else if !IsHash64(Norm(raw.capabilityHash)) then Err(BadCapabilityHash)
    else if !IsHash64(Norm(raw.parentConsentHash)) then Err(BadParentHash)
    else if !IsDid(Trim(raw.subject)) then Err(BadSubject)
    else if !IsDid(Trim(raw.grantee)) then Err(BadGrantee)
    else if !AcceptableScope(raw.scope) then Err(BadScope)
    else if !AcceptablePermissions(raw.permissions) then Err(BadPermissions)
    else if raw.notBefore.Some? && !IsIsoSecond(raw.notBefore.value) then Err(BadNotBefore)
    else if raw.marketMakerId.Some? && Trim(raw.marketMakerId.value) == "" then Err(BadMarketMaker)
    else Ok(Normalized(env, raw))
  }

  function Payload(env: Env, c: Capability): HashPayload {
    HashPayload(c.parentConsentHash, c.subject, c.grantee, SortByKindRef(env.rank, c.scope),
                Sort(c.permissions, StrLe), c.issuedAt, c.expiresAt, c.notBefore, c.marketMakerId)
  }

  function DeterministicHash(env: Env, c: Capability): string {
    env.hash(Payload(env, c))
  }

  ghost predicate NormalPermissions(permissions: seq<string>) {
    && permissions != [] && (forall p :: p in permissions ==> IsPermission(p))
    && Distinct(permissions) && SortedBy(permissions, StrLe)
  }

  ghost predicate NormalScope(scope: seq<ScopeEntry>) {
    scope != [] && ValidScope(scope)
  }

  predicate NormalMarketMaker(marketMakerId: Option<string>) {
    marketMakerId.Some? ==> marketMakerId.value != "" && Trim(marketMakerId.value) == marketMakerId.value
  }

  /** The form parsing leaves alone, up to the order of scope entries. */
  ghost predicate Normal(c: Capability) {
    && IsIsoSecond(c.issuedAt) && IsIsoSecond(c.expiresAt)
    && IsHash64(c.capabilityHash) && IsHash64(c.parentConsentHash)
    && IsDid(c.subject) && IsDid(c.grantee)
    && NormalScope(c.scope) && NormalPermissions(c.permissions)
    && (c.notBefore.Some? ==> IsIsoSecond(c.notBefore.value))
    && NormalMarketMaker(c.marketMakerId)
  }

  lemma MapFixed<T>(s: seq<T>, f: T -> T)
    requires forall x :: x in s ==> f(x) == x
    ensures Map(s, f) == s
  {
    forall i | 0 <= i < |s| ensures Map(s, f)[i] == s[i] {
      assert s[i] in s;
    }
  }

  lemma ScopeProducesNormal(env: Env, scope: seq<ScopeEntry>)
    requires Sound(env) && AcceptableScope(scope)
    ensures NormalScope(SortByKindRef(env.rank, Map(scope, Consents.NormEntry)))
    ensures var sorted := SortByKindRef(env.rank, Map(scope, Consents.NormEntry));
            SortByKindRef(env.rank, sorted) == sorted
  {
    SortKindRefProperties(env.rank, Map(scope, Consents.NormEntry));
  }

  lemma PermissionsProduceNormal(permissions: seq<string>)
    requires AcceptablePermissions(permissions)
    ensures NormalPermissions(UniqueSorted(Map(permissions, Norm)))
  {
    var mapped := Map(permissions, Norm);
    UniqueSortedProperties(mapped);
    assert mapped[0] in mapped;
  }

  lemma ParseProducesNormal(env: Env, raw: Capability)
    requires Sound(env) && Parse(env, raw).Ok?
    ensures Normal(Parse(env, raw).value)
    ensures var c := Parse(env, raw).value; SortByKindRef(env.rank, c.scope) == c.scope
  {
    ScopeProducesNormal(env, raw.scope);
    PermissionsProduceNormal(raw.permissions);
    if raw.marketMakerId.Some? {
      TrimIdempotent(raw.marketMakerId.value);
    }
  }

  lemma NormalScopeFixed(scope: seq<ScopeEntry>)
    requires NormalScope(scope)
    ensures AcceptableScope(scope) && Map(scope, Consents.NormEntry) == scope
  {
    forall e | e in scope ensures Consents.NormEntry(e) == e {
      HashIsPlain(e.ref);
    }
    MapFixed(scope, Consents.NormEntry);
  }

  lemma NormalPermissionsFixed(permissions: seq<string>)
    requires NormalPermissions(permissions)
    ensures AcceptablePermissions(permissions) && UniqueSorted(Map(permissions, Norm)) == permissions
  {
    forall p | p in permissions ensures Norm(p) == p {
      PermissionIsPlain(p);
    }
    MapFixed(permissions, Norm);
    UniqueSortedFixed(permissions);
  }

  /** Parsing is the identity on the normal form, up to sorting the scope. */
  lemma ParseFixesNormal(env: Env, c: Capability)
    requires Normal(c)
    ensures Parse(env, c) == Ok(c.(scope := SortByKindRef(env.rank, c.scope)))
  {
    HashIsPlain(c.capabilityHash);
    HashIsPlain(c.parentConsentHash);
    DidIsTrimmed(c.subject);
    DidIsTrimmed(c.grantee);
    NormalScopeFixed(c.scope);
    NormalPermissionsFixed(c.permissions);
  }

  lemma ParseIdempotent(env: Env, raw: Capability)
    requires Sound(env) && Parse(env, raw).Ok?
    ensures Parse(env, Parse(env, raw).value) == Parse(env, raw)
  {
    ParseProducesNormal(env, raw);
    ParseFixesNormal(env, Parse(env, raw).value);
  }

  /** What parsing accepts, and what it makes of it. */
  lemma ParseMeaning(env: Env, raw: Capability)
    requires Sound(env)
    ensures Parse(env, raw).Ok? <==>
            && IsIsoSecond(raw.issuedAt) && IsIsoSecond(raw.expiresAt)
            && (raw.notBefore.Some? ==> IsIsoSecond(raw.notBefore.value))
            && IsHash64(Norm(raw.capabilityHash)) && IsHash64(Norm(raw.parentConsentHash))
            && IsDid(Trim(raw.subject)) && IsDid(Trim(raw.grantee))
            && raw.scope != [] && (forall e :: e in raw.scope ==> e.kind in VALID_KINDS && IsHash64(Norm(e.ref)))
            && raw.permissions != [] && (forall p :: p in raw.permissions ==> IsPermission(Norm(p)))
            && (raw.marketMakerId.Some? ==> Trim(raw.marketMakerId.value) != "")
    ensures Parse(env, raw).Ok? ==>
              var c := Parse(env, raw).value;
              && c.capabilityHash == Norm(raw.capabilityHash) && c.parentConsentHash == Norm(raw.parentConsentHash)
              && c.subject == Trim(raw.subject) && c.grantee == Trim(raw.grantee)
              && multiset(c.scope) == multiset(Map(raw.scope, Consents.NormEntry))
              && (forall p :: p in c.permissions <==> p in Map(raw.permissions, Norm))
              && c.issuedAt == raw.issuedAt && c.expiresAt == raw.expiresAt && c.notBefore == raw.notBefore
              && (c.marketMakerId.Some? <==> raw.marketMakerId.Some?)
              && (raw.marketMakerId.Some? ==> c.marketMakerId.value == Trim(raw.marketMakerId.value))
  {
    SortKindRefProperties(env.rank, Map(raw.scope, Consents.NormEntry));
    UniqueSortedProperties(Map(raw.permissions, Norm));
  }

  /** What is wrong with a raw capability. */
  predicate Unparsable(raw: Capability, e: ParseError) {
    match e
    case BadIssuedAt => !IsIsoSecond(raw.issuedAt)
    case BadExpiresAt => !IsIsoSecond(raw.expiresAt)
    case BadCapabilityHash => !IsHash64(Norm(raw.capabilityHash))
    case BadParentHash => !IsHash64(Norm(raw.parentConsentHash))
    case BadSubject => !IsDid(Trim(raw.subject))
    case BadGrantee => !IsDid(Trim(raw.grantee))
    case BadScope => raw.scope == [] || exists e :: e in raw.scope && !(e.kind in VALID_KINDS && IsHash64(Norm(e.ref)))
    case BadPermissions => raw.permissions == [] || exists p :: p in raw.permissions && !IsPermission(Norm(p))
    case BadNotBefore => raw.notBefore.Some? && !IsIsoSecond(raw.notBefore.value)
    case BadMarketMaker => raw.marketMakerId.Some? && Trim(raw.marketMakerId.value) == ""
  }

  /** The order in which parsing looks. */
  const PARSE_ORDER := [
    BadIssuedAt, BadExpiresAt, BadCapabilityHash, BadParentHash, BadSubject, BadGrantee, BadScope, BadPermissions,
    BadNotBefore, BadMarketMaker]

  /** Parsing reports the first thing that is wrong. */
  lemma ParseFailureSays(env: Env, raw: Capability) returns (i: nat)
    requires Parse(env, raw).Err?
    ensures i < |PARSE_ORDER| && Parse(env, raw).error == PARSE_ORDER[i] && Unparsable(raw, PARSE_ORDER[i])
    ensures forall j :: 0 <= j < i ==> !Unparsable(raw, PARSE_ORDER[j])
  {
    i := match Parse(env, raw).error
      case BadIssuedAt => 0
      case BadExpiresAt => 1
      case BadCapabilityHash => 2
      case BadParentHash => 3
      case BadSubject => 4
      case BadGrantee => 5
      case BadScope => 6
      case BadPermissions => 7
      case BadNotBefore => 8
      case BadMarketMaker => 9;
  }

  /** The hash sees the scope and the permissions as multisets. */
  lemma HashIgnoresOrder(env: Env, c: Capability, scope: seq<ScopeEntry>, permissions: seq<string>)
    requires Sound(env) && multiset(scope) == multiset(c.scope) && multiset(permissions) == multiset(c.permissions)
    ensures DeterministicHash(env, c.(scope := scope, permissions := permissions)) == DeterministicHash(env, c)
  {
    SortKindRefPermutation(env.rank, scope, c.scope);
    StrOrder();
    SortPermutation(permissions, c.permissions, StrLe);
  }

  /** And it sees nothing less: capabilities with the same payload agree on everything hashed. */
  lemma PayloadDetermines(env: Env, c: Capability, d: Capability)
    requires Sound(env) && Payload(env, c) == Payload(env, d)
    ensures multiset(c.scope) == multiset(d.scope) && multiset(c.permissions) == multiset(d.permissions)
    ensures c.(scope := d.scope, permissions := d.permissions, capabilityHash := d.capabilityHash) == d
  {
    SortKindRefProperties(env.rank, c.scope);
    SortKindRefProperties(env.rank, d.scope);
    StrOrder();
    SortProperties(c.permissions, StrLe);
    SortProperties(d.permissions, StrLe);
  }

  // ---------------------------------------------------------------- capability-verify.ts

  datatype VerifyError =
    | ParseFailed(error: ParseError)
    | ExpiryNotAfterIssue | NotBeforeBeforeIssue | NotBeforeAfterExpiry | HashMismatch

  function TemporalErrors(c: Capability): seq<VerifyError> {
    (if StrLe(c.expiresAt, c.issuedAt) then [ExpiryNotAfterIssue] else []) +
    (if c.notBefore.Some? && StrLt(c.notBefore.value, c.issuedAt) then [NotBeforeBeforeIssue] else []) +
    (if c.notBefore.Some? && StrLe(c.expiresAt, c.notBefore.value) then [NotBeforeAfterExpiry] else [])
  }

  function VerifyErrors(env: Env, c: Capability): seq<VerifyError> {
    TemporalErrors(c) + if DeterministicHash(env, c) != c.capabilityHash then [HashMismatch] else []
  }

  function Verify(env: Env, raw: Capability): Result<Capability, seq<VerifyError>> {
    match Parse(env, raw)
    case Err(e) => Err([ParseFailed(e)])
    case Ok(c) =>
      if VerifyErrors(env, c) == [] then Ok(c) else Err(VerifyErrors(env, c))
  }

  method VerifyTemporal(c: Capability) returns (errors: seq<VerifyError>)
    ensures errors == TemporalErrors(c)
  {
    errors := [];
    if StrLe(c.expiresAt, c.issuedAt) { errors := errors + [ExpiryNotAfterIssue]; }
    if c.notBefore.Some? && StrLt(c.notBefore.value, c.issuedAt) { errors := errors + [NotBeforeBeforeIssue]; }
    if c.notBefore.Some? && StrLe(c.expiresAt, c.notBefore.value) { errors := errors + [NotBeforeAfterExpiry]; }
  }

  method VerifyCapability(env: Env, raw: Capability) returns (r: Result<Capability, seq<VerifyError>>)
    ensures r == Verify(env, raw)
  {
    var parsed := Parse(env, raw);
    if parsed.Err? {
      return Err([ParseFailed(parsed.error)]);
    }
    var capability := parsed.value;
    var errors := VerifyTemporal(capability);
    if DeterministicHash(env, capability) != capability.capabilityHash { errors := errors + [HashMismatch]; }
    assert errors == VerifyErrors(env, capability);
    if |errors| > 0 {
      return Err(errors);
    }
    r := Ok(capability);
  }

  /** What is wrong with a parsed capability when it is reported to be. */
  predicate Flawed(env: Env, c: Capability, e: VerifyError) {
    match e
    case ParseFailed(_) => false
    case ExpiryNotAfterIssue => StrLe(c.expiresAt, c.issuedAt)
    case NotBeforeBeforeIssue => c.notBefore.Some? && StrLt(c.notBefore.value, c.issuedAt)
    case NotBeforeAfterExpiry => c.notBefore.Some? && StrLe(c.expiresAt, c.notBefore.value)
    case HashMismatch => c.capabilityHash != env.hash(Payload(env, c))
  }

  lemma VerifyErrorsSay(env: Env, c: Capability, e: VerifyError)
    ensures e in VerifyErrors(env, c) <==> Flawed(env, c, e)
  {
    assert e in VerifyErrors(env, c) <==> e in TemporalErrors(c) || (e == HashMismatch && Flawed(env, c, e));
  }

  /** Verification reports just the parse error of what does not parse, and everything that is wrong with what does. */
  lemma VerifyMeaning(env: Env, raw: Capability)
    ensures Parse(env, raw).Err? ==> Verify(env, raw) == Err([ParseFailed(Parse(env, raw).error)])
    ensures Parse(env, raw).Ok? ==>
              var c, r := Parse(env, raw).value, Verify(env, raw);
              && (r.Ok? ==> r.value == c && forall e :: !Flawed(env, c, e))
              && (r.Err? ==> r.error != [] && forall e :: e in r.error <==> Flawed(env, c, e))
  {
    if Parse(env, raw).Ok? {
      var c := Parse(env, raw).value;
      forall e ensures e in VerifyErrors(env, c) <==> Flawed(env, c, e) { VerifyErrorsSay(env, c, e); }
    }
  }

  /** Verifying what verification returned changes nothing. */
  lemma VerifyIdempotent(env: Env, raw: Capability)
    requires Sound(env) && Verify(env, raw).Ok?
    ensures Verify(env, Verify(env, raw).value) == Verify(env, raw)
    ensures Normal(Verify(env, raw).value)
  {
    ParseProducesNormal(env, raw);
    ParseIdempotent(env, raw);
  }

  // ---------------------------------------------------------------- capability-mint.ts

  datatype MintInput = MintInput(
    consent: Consents.Consent, requestedScope: seq<ScopeEntry>, requestedPermissions: seq<string>,
    issuedAt: string, expiresAt: Option<string>, notBefore: Option<string>, marketMakerId: Option<string>,
    port: RevocationPort)

  datatype MintError =
    | IssuedAtNotIso | IssuedAtUnparsable | ConsentUnparsable | ConsentInvalid | ConsentNotActive
    | EmptyScope | EmptyPermissions | ScopeNotSubset | PermissionsNotSubset
    | MarketMakerMismatch | MarketMakerIntroduced
    | ExpiryMissing | ExpiryNotIso | ExpiryNotAfterIssuedAt | ExpiryBeyondConsent
    | NotBeforeNotIso | NotBeforeTooEarly | NotBeforeTooLate

  function NormalConsent(env: Env, input: MintInput): Consents.Consent {
    Consents.Normalize(env, input.consent)
  }

  function MintedScope(env: Env, input: MintInput): seq<ScopeEntry> {
    SortByKey(env.rank, Map(input.requestedScope, Consents.NormEntry))
  }

  function MintedPermissions(input: MintInput): seq<string> {
    UniqueSorted(Map(input.requestedPermissions, Norm))
  }

  /** `assertConsentReady` and the date checks before it. */
  function CheckConsentReady(env: Env, input: MintInput): Option<MintError> {
    var consent := NormalConsent(env, input);
    if !IsIsoSecond(input.issuedAt) then Some(IssuedAtNotIso)
    else if env.parseDate(input.issuedAt).None? then Some(IssuedAtUnparsable)
    else if !Consents.Parses(env, input.consent) then Some(ConsentUnparsable)
    else if Consents.ConsentErrors(env, consent) != [] then Some(ConsentInvalid)
    else if Consents.EvaluateState(env, consent, env.parseDate(input.issuedAt).value, input.port)
            != Consents.ActiveConsent
      then Some(ConsentNotActive)
    else None
  }

  /** The subset and market-maker checks. */
  function CheckDerivation(env: Env, input: MintInput): Option<MintError> {
    var consent := NormalConsent(env, input);
    if input.requestedScope == [] then Some(EmptyScope)
    else if input.requestedPermissions == [] then Some(EmptyPermissions)
    else if exists e :: e in MintedScope(env, input) && ScopeKey(e) !in Map(consent.scope, ScopeKey)
      then Some(ScopeNotSubset)
    else if exists p :: p in MintedPermissions(input) && p !in consent.permissions then Some(PermissionsNotSubset)
    else if consent.marketMakerId.Some? && input.marketMakerId.Some? && input.marketMakerId != consent.marketMakerId
      then Some(MarketMakerMismatch)
    else if consent.marketMakerId.None? && input.marketMakerId.Some? then Some(MarketMakerIntroduced)
    else None
  }

  function MintedExpiry(env: Env, input: MintInput): Option<string> {
    if input.expiresAt.Some? then input.expiresAt else NormalConsent(env, input).expiresAt
  }

  function CheckWindow(env: Env, input: MintInput): Option<MintError> {
    var consent, expiry := NormalConsent(env, input), MintedExpiry(env, input);
    if expiry.None? then Some(ExpiryMissing)
    else if !IsIsoSecond(expiry.value) then Some(ExpiryNotIso)
    else if StrLe(expiry.value, input.issuedAt) then Some(ExpiryNotAfterIssuedAt)
    else if consent.expiresAt.Some? && StrLt(consent.expiresAt.value, expiry.value) then Some(ExpiryBeyondConsent)
    else if input.notBefore.None? then None
    else if !IsIsoSecond(input.notBefore.value) then Some(NotBeforeNotIso)
    else if StrLt(input.notBefore.value, input.issuedAt) then Some(NotBeforeTooEarly)
    else if StrLe(expiry.value, input.notBefore.value) then Some(NotBeforeTooLate)
    else None
  }

  function Mint(env: Env, input: MintInput): Result<Capability, MintError> {
    if CheckConsentReady(env, input).Some? then Err(CheckConsentReady(env, input).value)
    else if CheckDerivation(env, input).Some? then Err(CheckDerivation(env, input).value)
    else if CheckWindow(env, input).Some? then Err(CheckWindow(env, input).value)
    else
      Ok(Sealed(env, Draft(NormalConsent(env, input), MintedScope(env, input), MintedPermissions(input),
                           input.issuedAt, MintedExpiry(env, input).value, input.notBefore)))
  }

  /** The capability before it carries its hash. */
  function Draft(
      consent: Consents.Consent, scope: seq<ScopeEntry>, permissions: seq<string>, issuedAt: string, expiresAt: string,
      notBefore: Option<string>): Capability {
    Capability("", consent.consentHash, consent.subject, consent.grantee, scope, permissions, issuedAt, expiresAt,
               notBefore,
               consent.marketMakerId)
  }

  function Sealed(env: Env, c: Capability): Capability {
    c.(capabilityHash := DeterministicHash(env, c))
  }

  /** Strict derivation: what a minted capability takes over from its consent. */
  ghost predicate DerivedFrom(c: Capability, consent: Consents.Consent) {
    && c.parentConsentHash == consent.consentHash
    && c.subject == consent.subject && c.grantee == consent.grantee
    && c.marketMakerId == consent.marketMakerId
    && (forall e :: e in c.scope ==> e in consent.scope)
    && (forall p :: p in c.permissions ==> p in consent.permissions)
    && (consent.expiresAt.Some? ==> StrLe(c.expiresAt, consent.expiresAt.value))
  }

  lemma ReadyFacts(env: Env, input: MintInput)
    requires CheckConsentReady(env, input).None?
    ensures Consents.WellFormed(env, NormalConsent(env, input)) && NormalConsent(env, input).action == "grant"
  {
    Consents.ActiveMeaning(env, NormalConsent(env, input), env.parseDate(input.issuedAt).value, input.port);
  }

  lemma DerivationFacts(env: Env, input: MintInput)
    requires CheckDerivation(env, input).None?
    ensures input.requestedScope != [] && input.requestedPermissions != []
    ensures forall e :: e in MintedScope(env, input) ==> ScopeKey(e) in Map(NormalConsent(env, input).scope, ScopeKey)
    ensures forall p :: p in MintedPermissions(input) ==> p in NormalConsent(env, input).permissions
  {
  }

  lemma WindowFacts(env: Env, input: MintInput)
    requires CheckWindow(env, input).None?
    ensures var expiry, consent := MintedExpiry(env, input), NormalConsent(env, input);
            && expiry.Some? && IsIsoSecond(expiry.value) && !StrLe(expiry.value, input.issuedAt)
            && (consent.expiresAt.Some? ==> StrLe(expiry.value, consent.expiresAt.value))
            && (input.notBefore.Some? ==>
                  && IsIsoSecond(input.notBefore.value)
                  && !StrLt(input.notBefore.value, input.issuedAt) && !StrLe(expiry.value, input.notBefore.value))
  {
  }

  lemma MintedScopeWithin(scope: seq<ScopeEntry>, minted: seq<ScopeEntry>)
    requires ValidScope(scope)
    requires forall e :: e in minted ==> ScopeKey(e) in Map(scope, ScopeKey)
    ensures forall e :: e in minted ==> e in scope
    ensures ValidScope(minted)
  {
    forall e | e in minted ensures e in scope {
      KeyMembership(scope, e);
    }
  }

  lemma MintDerives(env: Env, input: MintInput)
    requires Mint(env, input).Ok?
    ensures DerivedFrom(Mint(env, input).value, NormalConsent(env, input))
    ensures ValidScope(MintedScope(env, input))
    ensures var consent := NormalConsent(env, input);
            Consents.WellFormed(env, consent) && consent.action == "grant"
  {
    ReadyFacts(env, input);
    DerivationFacts(env, input);
    WindowFacts(env, input);
    MintedScopeWithin(NormalConsent(env, input).scope, MintedScope(env, input));
  }

  // ---------------------------------------------------------------- when minting succeeds, and what it mints

  /** The consent is a well-formed grant, proven not revoked and inside its window at the instant. */
  ghost predicate ActiveGrantAt(env: Env, consent: Consents.Consent, at: int, port: RevocationPort) {
    && Consents.WellFormed(env, consent) && consent.action == "grant"
    && port(consent.consentHash) == Some(VerifiedNotRevoked)
    && env.parseDate(consent.issuedAt).Some? && env.parseDate(consent.issuedAt).value <= at
    && (consent.expiresAt.Some? ==>
          env.parseDate(consent.expiresAt.value).Some? && at < env.parseDate(consent.expiresAt.value).value)
  }

  /** What is asked for is in the consent, and its market maker is not another one. */
  ghost predicate AsksWithin(input: MintInput, consent: Consents.Consent) {
    && input.requestedScope != [] && EntriesWithin(input, consent)
    && input.requestedPermissions != [] && PermissionsWithin(input, consent)
    && (input.marketMakerId.Some? ==> input.marketMakerId == consent.marketMakerId)
  }

  /** The expiry is the requested one, else the consent's, and all stamps are in order. */
  predicate StampsInOrder(input: MintInput, consent: Consents.Consent, expiresAt: string) {
    && (if input.expiresAt.Some? then input.expiresAt == Some(expiresAt) else consent.expiresAt == Some(expiresAt))
    && IsIsoSecond(expiresAt) && StrLt(input.issuedAt, expiresAt)
    && (consent.expiresAt.Some? ==> StrLe(expiresAt, consent.expiresAt.value))
    && (input.notBefore.Some? ==>
          && IsIsoSecond(input.notBefore.value)
          && StrLe(input.issuedAt, input.notBefore.value) && StrLt(input.notBefore.value, expiresAt))
  }

  /** The capability carries what was asked for, no more and no less, and the consent's parties and market maker. */
  ghost predicate MintsWhatWasAsked(env: Env, input: MintInput, consent: Consents.Consent, c: Capability) {
    && c.parentConsentHash == consent.consentHash && c.subject == consent.subject && c.grantee == consent.grantee
    && c.marketMakerId == consent.marketMakerId
    && multiset(c.scope) == multiset(Map(input.requestedScope, Consents.NormEntry))
    && Distinct(c.permissions) && (forall p :: p in c.permissions <==> p in Map(input.requestedPermissions, Norm))
    && c.issuedAt == input.issuedAt && c.notBefore == input.notBefore
    && StampsInOrder(input, consent, c.expiresAt)
    && c.capabilityHash == env.hash(Payload(env, c))
  }

  lemma ReadyIff(env: Env, input: MintInput)
    ensures CheckConsentReady(env, input).None? <==>
            && IsIsoSecond(input.issuedAt) && env.parseDate(input.issuedAt).Some?
            && Consents.Parses(env, input.consent)
            && ActiveGrantAt(env, NormalConsent(env, input), env.parseDate(input.issuedAt).value, input.port)
  {
    if env.parseDate(input.issuedAt).Some? {
      Consents.ActiveMeaning(env, NormalConsent(env, input), env.parseDate(input.issuedAt).value, input.port);
      Consents.WellFormedIffNoErrors(env, NormalConsent(env, input));
    }
  }

  lemma MintedScopeMembers(env: Env, input: MintInput)
    requires Sound(env)
    ensures multiset(MintedScope(env, input)) == multiset(Map(input.requestedScope, Consents.NormEntry))
    ensures forall e :: e in MintedScope(env, input) <==> e in Map(input.requestedScope, Consents.NormEntry)
  {
    var byKey := (a: ScopeEntry, b: ScopeEntry) => ByKey(env.rank, a, b);
    ByKeyOrder(env.rank);
    SortProperties(Map(input.requestedScope, Consents.NormEntry), byKey);
    SortMembers(Map(input.requestedScope, Consents.NormEntry), byKey);
  }

  lemma MintedScopeInConsent(env: Env, input: MintInput)
    requires Sound(env) && ValidScope(NormalConsent(env, input).scope)
    ensures (forall e :: e in MintedScope(env, input) ==>
             ScopeKey(e) in Map(NormalConsent(env, input).scope, ScopeKey)) <==>
            (forall e :: e in Map(input.requestedScope, Consents.NormEntry) ==> e in NormalConsent(env, input).scope)
  {
    MintedScopeMembers(env, input);
    forall e ensures ScopeKey(e) in Map(NormalConsent(env, input).scope, ScopeKey) <==>
      e in NormalConsent(env, input).scope {
      KeyMembership(NormalConsent(env, input).scope, e);
    }
  }

  lemma WithinIff(env: Env, input: MintInput)
    requires Sound(env) && ValidScope(NormalConsent(env, input).scope)
    ensures CheckDerivation(env, input).None? <==> AsksWithin(input, NormalConsent(env, input))
  {
    MintedScopeInConsent(env, input);
    UniqueSortedProperties(Map(input.requestedPermissions, Norm));
  }

  lemma WindowIff(env: Env, input: MintInput)
    ensures CheckWindow(env, input).None? <==>
            MintedExpiry(env, input).Some?
              && StampsInOrder(input, NormalConsent(env, input), MintedExpiry(env, input).value)
  {
    StrOrder();
  }

  /** Minting succeeds exactly when an active grant consent covers the request and the stamps are in order; and what it
      mints is what was asked for. */
  lemma MintMeaning(env: Env, input: MintInput)
    requires Sound(env)
    ensures var consent := NormalConsent(env, input);
            Mint(env, input).Ok? <==>
              && IsIsoSecond(input.issuedAt) && env.parseDate(input.issuedAt).Some?
                 && Consents.Parses(env, input.consent)
              && ActiveGrantAt(env, consent, env.parseDate(input.issuedAt).value, input.port)
              && AsksWithin(input, consent)
              && exists expiresAt :: StampsInOrder(input, consent, expiresAt)
    ensures Mint(env, input).Ok? ==>
              MintsWhatWasAsked(env, input, NormalConsent(env, input), Mint(env, input).value)
  {
    ReadyIff(env, input);
    WindowIff(env, input);
    if CheckConsentReady(env, input).None? {
      WithinIff(env, input);
    }
    if Mint(env, input).Ok? {
      MintedAsAsked(env, input);
    }
  }

  lemma MintedAsAsked(env: Env, input: MintInput)
    requires Sound(env) && Mint(env, input).Ok?
    ensures MintsWhatWasAsked(env, input, NormalConsent(env, input), Mint(env, input).value)
  {
    WindowIff(env, input);
    MintedScopeMembers(env, input);
    UniqueSortedProperties(Map(input.requestedPermissions, Norm));
    var c := Mint(env, input).value;
    assert Payload(env, c) == Payload(env, c.(capabilityHash := ""));
  }

  predicate Stamped(env: Env, input: MintInput) {
    IsIsoSecond(input.issuedAt) && env.parseDate(input.issuedAt).Some?
  }

  ghost predicate ReadyToMint(env: Env, input: MintInput) {
    && Stamped(env, input) && Consents.Parses(env, input.consent)
    && ActiveGrantAt(env, NormalConsent(env, input), env.parseDate(input.issuedAt).value, input.port)
  }

  /** What keeps a consent from being minted from. */
  ghost predicate UnreadyFor(env: Env, input: MintInput, e: MintError) {
    match e
    case IssuedAtNotIso => !IsIsoSecond(input.issuedAt)
    case IssuedAtUnparsable => IsIsoSecond(input.issuedAt) && env.parseDate(input.issuedAt).None?
    case ConsentUnparsable => Stamped(env, input) && !Consents.Parses(env, input.consent)
    case ConsentInvalid =>
      Stamped(env, input) && Consents.Parses(env, input.consent) && !Consents.WellFormed(env, NormalConsent(env, input))
    case ConsentNotActive =>
      && Stamped(env, input) && Consents.Parses(env, input.consent)
         && Consents.WellFormed(env, NormalConsent(env, input))
      && !ActiveGrantAt(env, NormalConsent(env, input), env.parseDate(input.issuedAt).value, input.port)
    case _ => false
  }

  ghost predicate EntriesWithin(input: MintInput, consent: Consents.Consent) {
    forall e :: e in Map(input.requestedScope, Consents.NormEntry) ==> e in consent.scope
  }

  ghost predicate PermissionsWithin(input: MintInput, consent: Consents.Consent) {
    forall p :: p in Map(input.requestedPermissions, Norm) ==> p in consent.permissions
  }

  /** What is wrong with the request: the lists first, then the market maker. */
  ghost predicate Exceeds(input: MintInput, consent: Consents.Consent, e: MintError) {
    var listed := input.requestedScope != [] && input.requestedPermissions != [];
    var within := listed && EntriesWithin(input, consent) && PermissionsWithin(input, consent);
    match e
    case EmptyScope => input.requestedScope == []
    case EmptyPermissions => input.requestedScope != [] && input.requestedPermissions == []
    case ScopeNotSubset => listed && !EntriesWithin(input, consent)
    case PermissionsNotSubset => listed && EntriesWithin(input, consent) && !PermissionsWithin(input, consent)
    case MarketMakerMismatch =>
      within && consent.marketMakerId.Some? && input.marketMakerId.Some? && consent.marketMakerId != input.marketMakerId
    case MarketMakerIntroduced => within && consent.marketMakerId.None? && input.marketMakerId.Some?
    case _ => false
  }

  /** What is wrong with the stamps: the expiry first, then the start. */
  predicate OutOfOrder(input: MintInput, consent: Consents.Consent, e: MintError) {
    var expiry := if input.expiresAt.Some? then input.expiresAt else consent.expiresAt;
    if expiry.None? then e == ExpiryMissing
    else
      var dated := IsIsoSecond(expiry.value);
      var lasting := dated && StrLt(input.issuedAt, expiry.value);
      var bounded := lasting && (consent.expiresAt.Some? ==> StrLe(expiry.value, consent.expiresAt.value));
      match e
      case ExpiryNotIso => !dated
      case ExpiryNotAfterIssuedAt => dated && StrLe(expiry.value, input.issuedAt)
      case ExpiryBeyondConsent =>
        lasting && consent.expiresAt.Some? && StrLt(consent.expiresAt.value, expiry.value)
      case NotBeforeNotIso => bounded && input.notBefore.Some? && !IsIsoSecond(input.notBefore.value)
      case NotBeforeTooEarly =>
        && bounded && input.notBefore.Some? && IsIsoSecond(input.notBefore.value)
        && StrLt(input.notBefore.value, input.issuedAt)
      case NotBeforeTooLate =>
        && bounded && input.notBefore.Some? && IsIsoSecond(input.notBefore.value)
        && StrLe(input.issuedAt, input.notBefore.value) && StrLe(expiry.value, input.notBefore.value)
      case _ => false
  }

  lemma UnreadySays(env: Env, input: MintInput)
    ensures CheckConsentReady(env, input).Some? ==> UnreadyFor(env, input, CheckConsentReady(env, input).value)
  {
    ReadyIff(env, input);
    Consents.WellFormedIffNoErrors(env, NormalConsent(env, input));
  }

  lemma ExceedsSays(env: Env, input: MintInput)
    requires Sound(env) && ValidScope(NormalConsent(env, input).scope)
    ensures CheckDerivation(env, input).Some? ==>
              Exceeds(input, NormalConsent(env, input), CheckDerivation(env, input).value)
  {
    MintedScopeInConsent(env, input);
    UniqueSortedProperties(Map(input.requestedPermissions, Norm));
  }

  lemma OutOfOrderSays(env: Env, input: MintInput)
    ensures CheckWindow(env, input).Some? ==>
            OutOfOrder(input, NormalConsent(env, input), CheckWindow(env, input).value)
  {
    StrOrder();
  }

  /** The error a failed mint reports is what is wrong: with the consent first, then with the request, then with the
      stamps. */
  lemma MintFailureSays(env: Env, input: MintInput)
    requires Sound(env) && Mint(env, input).Err?
    ensures var e, consent := Mint(env, input).error, NormalConsent(env, input);
            || UnreadyFor(env, input, e)
            || (ReadyToMint(env, input) && Exceeds(input, consent, e))
            || (ReadyToMint(env, input) && AsksWithin(input, consent) && OutOfOrder(input, consent, e))
  {
    UnreadySays(env, input);
    ReadyIff(env, input);
    if CheckConsentReady(env, input).None? {
      ExceedsSays(env, input);
      WithinIff(env, input);
      OutOfOrderSays(env, input);
    }
  }

  lemma SortedByKeyIsNormal(env: Env, requested: seq<ScopeEntry>)
    requires Sound(env) && requested != [] && ValidScope(SortByKey(env.rank, requested))
    ensures NormalScope(SortByKey(env.rank, requested))
    ensures SortByKindRef(env.rank, SortByKey(env.rank, requested)) == SortByKey(env.rank, requested)
  {
    var byKey := (a: ScopeEntry, b: ScopeEntry) => ByKey(env.rank, a, b);
    ByKeyOrder(env.rank);
    SortProperties(requested, byKey);
    SortMembers(requested, byKey);
    SortsAgree(env.rank, requested);
    SortKindRefProperties(env.rank, requested);
  }

  lemma PermissionsWithinAreNormal(granted: seq<string>, requested: seq<string>)
    requires requested != [] && forall p :: p in granted ==> IsPermission(p)
    requires forall p :: p in UniqueSorted(requested) ==> p in granted
    ensures NormalPermissions(UniqueSorted(requested))
  {
    UniqueSortedProperties(requested);
    assert requested[0] in requested;
  }

  lemma MintedScopeIsNormal(env: Env, input: MintInput)
    requires Sound(env) && CheckConsentReady(env, input).None? && CheckDerivation(env, input).None?
    ensures NormalScope(MintedScope(env, input))
    ensures SortByKindRef(env.rank, MintedScope(env, input)) == MintedScope(env, input)
  {
    ReadyFacts(env, input);
    DerivationFacts(env, input);
    MintedScopeWithin(NormalConsent(env, input).scope, MintedScope(env, input));
    SortedByKeyIsNormal(env, Map(input.requestedScope, Consents.NormEntry));
  }

  lemma MintedPermissionsAreNormal(env: Env, input: MintInput)
    requires CheckConsentReady(env, input).None? && CheckDerivation(env, input).None?
    ensures NormalPermissions(MintedPermissions(input))
  {
    ReadyFacts(env, input);
    DerivationFacts(env, input);
    PermissionsWithinAreNormal(NormalConsent(env, input).permissions, Map(input.requestedPermissions, Norm));
  }

  lemma MintedPartiesAreNormal(env: Env, input: MintInput)
    requires CheckConsentReady(env, input).None?
    ensures var consent := NormalConsent(env, input);
            IsDid(consent.subject) && IsDid(consent.grantee) && IsHash64(consent.consentHash)
    ensures IsIsoSecond(input.issuedAt)
  {
    ReadyFacts(env, input);
  }

  ghost predicate NormalTimes(c: Capability) {
    IsIsoSecond(c.issuedAt) && IsIsoSecond(c.expiresAt) && (c.notBefore.Some? ==> IsIsoSecond(c.notBefore.value))
  }

  lemma AssembleNormal(c: Capability)
    requires NormalTimes(c) && NormalScope(c.scope) && NormalPermissions(c.permissions)
             && NormalMarketMaker(c.marketMakerId)
    requires IsHash64(c.capabilityHash) && IsHash64(c.parentConsentHash) && IsDid(c.subject) && IsDid(c.grantee)
    ensures Normal(c)
  {
  }

  /** A minted capability is in normal form, but for a market maker that may be blank, and its scope is
      already in the order verification sorts it into. */
  lemma MintIsNormal(env: Env, input: MintInput)
    requires Sound(env) && Mint(env, input).Ok?
    ensures Normal(Mint(env, input).value.(marketMakerId := None))
    ensures SortByKindRef(env.rank, Mint(env, input).value.scope) == Mint(env, input).value.scope
    ensures Mint(env, input).value.marketMakerId == Consents.MapOption(input.consent.marketMakerId, Trim)
  {
    MintedScopeIsNormal(env, input);
    MintedPermissionsAreNormal(env, input);
    MintedPartiesAreNormal(env, input);
    WindowFacts(env, input);
    AssembleNormal(Mint(env, input).value.(marketMakerId := None));
  }

  lemma MintWindowVerifies(env: Env, input: MintInput)
    requires Mint(env, input).Ok?
    ensures VerifyErrors(env, Mint(env, input).value) == []
  {
    WindowFacts(env, input);
    SealedVerifies(env, Draft(NormalConsent(env, input), MintedScope(env, input), MintedPermissions(input),
                              input.issuedAt, MintedExpiry(env, input).value, input.notBefore));
  }

  lemma SealedVerifies(env: Env, c: Capability)
    requires !StrLe(c.expiresAt, c.issuedAt)
    requires c.notBefore.Some? ==> !StrLt(c.notBefore.value, c.issuedAt) && !StrLe(c.expiresAt, c.notBefore.value)
    ensures VerifyErrors(env, Sealed(env, c)) == []
  {
    assert Payload(env, Sealed(env, c)) == Payload(env, c);
  }

  /** A freshly minted capability verifies, and comes back unchanged, exactly when its consent's market
      maker is absent or not blank. */
  lemma MintVerifiesIff(env: Env, input: MintInput)
    requires Sound(env) && Mint(env, input).Ok?
    ensures var c := Mint(env, input).value;
            if input.consent.marketMakerId.Some? && Trim(input.consent.marketMakerId.value) == ""
            then Verify(env, c) == Err([ParseFailed(BadMarketMaker)])
            else Verify(env, c) == Ok(c)
  {
    var c := Mint(env, input).value;
    MintIsNormal(env, input);
    MintWindowVerifies(env, input);
    if input.consent.marketMakerId.Some? {
      TrimIdempotent(input.consent.marketMakerId.value);
    }
    VerifyUpToMarketMaker(env, c);
  }

  lemma VerifyUpToMarketMaker(env: Env, c: Capability)
    requires Normal(c.(marketMakerId := None)) && SortByKindRef(env.rank, c.scope) == c.scope
    requires c.marketMakerId.Some? ==> Trim(c.marketMakerId.value) == c.marketMakerId.value
    requires VerifyErrors(env, c) == []
    ensures if c.marketMakerId == Some("") then Verify(env, c) == Err([ParseFailed(BadMarketMaker)])
            else Verify(env, c) == Ok(c)
  {
    if c.marketMakerId == Some("") {
      ParseFixesNormal(env, c.(marketMakerId := None));
    } else {
      ParseFixesNormal(env, c);
    }
  }

  // ---------------------------------------------------------------- grants that can be minted from

  function SomeHash(): string {
    seq(64, i => '0')
  }

  const SOME_DID := "did:a:b"

  function Proven(): RevocationPort {
    id => Some(VerifiedNotRevoked)
  }

  /** A grant without expiry of reading one field. */
  function OpenGrant(issuedAt: string, marketMakerId: Option<string>): Consents.Consent {
    Consents.Consent("1.0", SOME_DID, SOME_DID, "grant", [ScopeEntry("field", SomeHash())], ["read"], marketMakerId,
                     None,
                     issuedAt, None, None, SomeHash())
  }

  /** Asking for all of it. */
  function OpenInput(
      issuedAt: string, expiresAt: string, notBefore: Option<string>, marketMakerId: Option<string>): MintInput {
    MintInput(OpenGrant(issuedAt, marketMakerId), [ScopeEntry("field", SomeHash())], ["read"], issuedAt,
              Some(expiresAt), notBefore,
              None, Proven())
  }

  lemma StampIsTrimmed(s: string)
    requires IsIsoSecond(s)
    ensures Trim(s) == s && s != ""
  {
    assert IsDigit(s[0]) && Last(s) == 'Z';
    TrimOfTrimmed(s);
  }

  lemma SomeValuesMatch()
    ensures IsHash64(SomeHash()) && Norm(SomeHash()) == SomeHash()
    ensures IsDid(SOME_DID) && Trim(SOME_DID) == SOME_DID
    ensures IsPermission("read") && Norm("read") == "read"
    ensures IsVersion("1.0") && Trim("1.0") == "1.0"
  {
    HashIsPlain(SomeHash());
    assert SOME_DID[5] == ':' && SOME_DID[4..5] == "a" && SOME_DID[6..] == "b";
    assert SOME_DID[..4] == "did:";
    DidIsTrimmed(SOME_DID);
    PermissionIsPlain("read");
    var version := "1.0";
    assert version[1] == '.' && version[..1] == "1" && version[2..] == "0";
    TrimOfTrimmed(version);
  }

  lemma MapOne<T, U>(x: T, f: T -> U)
    ensures Map([x], f) == [f(x)]
  {
  }

  lemma SortOne<T>(x: T, le: (T, T) -> bool)
    ensures Sort([x], le) == [x]
  {
    assert DropLast([x]) == [];
  }

  /** Normalising such a grant trims its market maker. */
  lemma OpenGrantNormal(env: Env, issuedAt: string, marketMakerId: Option<string>)
    requires IsIsoSecond(issuedAt)
    ensures Consents.Normalize(env, OpenGrant(issuedAt, marketMakerId)) ==
            OpenGrant(issuedAt, Consents.MapOption(marketMakerId, Trim))
  {
    SomeValuesMatch();
    StampIsTrimmed(issuedAt);
    MapOne(ScopeEntry("field", SomeHash()), Consents.NormEntry);
    SortOne(ScopeEntry("field", SomeHash()), (a, b) => ByKindRef(env.rank, a, b));
    MapOne("read", Norm);
    SortOne("read", StrLe);
  }

  lemma OpenGrantActive(env: Env, issuedAt: string, marketMakerId: Option<string>)
    requires IsIsoSecond(issuedAt) && env.parseDate(issuedAt).Some?
    ensures Consents.EvaluateState(env, OpenGrant(issuedAt, marketMakerId), env.parseDate(issuedAt).value, Proven())
            == Consents.ActiveConsent
    ensures Consents.Parses(env, OpenGrant(issuedAt, marketMakerId))
  {
    SomeValuesMatch();
    var c := OpenGrant(issuedAt, marketMakerId);
    assert Consents.Parses(env, c) by {
      HashIsPlain(SomeHash());
    }
    assert Consents.WellFormed(env, c);
    Consents.ActiveMeaning(env, c, env.parseDate(issuedAt).value, Proven());
  }

  lemma OpenScopeMinted(env: Env, input: MintInput)
    requires input.requestedScope == NormalConsent(env, input).scope == [ScopeEntry("field", SomeHash())]
    ensures forall e :: e in MintedScope(env, input) ==> ScopeKey(e) in Map(NormalConsent(env, input).scope, ScopeKey)
  {
    var e := ScopeEntry("field", SomeHash());
    SomeValuesMatch();
    MapOne(e, Consents.NormEntry);
    SortOne(e, (a, b) => ByKey(env.rank, a, b));
    MapOne(e, ScopeKey);
  }

  lemma OpenPermissionsMinted(env: Env, input: MintInput)
    requires input.requestedPermissions == NormalConsent(env, input).permissions == ["read"]
    ensures forall p :: p in MintedPermissions(input) ==> p in NormalConsent(env, input).permissions
  {
    SomeValuesMatch();
    MapOne("read", Norm);
    UniqueSortedProperties(["read"]);
  }

  lemma DerivationPasses(env: Env, input: MintInput)
    requires input.requestedScope != [] && input.requestedPermissions != [] && input.marketMakerId.None?
    requires forall e :: e in MintedScope(env, input) ==> ScopeKey(e) in Map(NormalConsent(env, input).scope, ScopeKey)
    requires forall p :: p in MintedPermissions(input) ==> p in NormalConsent(env, input).permissions
    ensures CheckDerivation(env, input).None?
  {
  }

  /** Such a grant can be minted from, whatever its market maker. */
  lemma OpenGrantIsMinted(
      env: Env, issuedAt: string, expiresAt: string, notBefore: Option<string>, marketMakerId: Option<string>)
    requires Sound(env) && IsIsoSecond(issuedAt) && env.parseDate(issuedAt).Some?
    requires IsIsoSecond(expiresAt) && StrLt(issuedAt, expiresAt)
    requires notBefore.Some? ==>
               IsIsoSecond(notBefore.value) && !StrLt(notBefore.value, issuedAt) && !StrLe(expiresAt, notBefore.value)
    ensures Mint(env, OpenInput(issuedAt, expiresAt, notBefore, marketMakerId)).Ok?
  {
    var input := OpenInput(issuedAt, expiresAt, notBefore, marketMakerId);
    OpenGrantNormal(env, issuedAt, marketMakerId);
    OpenGrantActive(env, issuedAt, marketMakerId);
    OpenGrantActive(env, issuedAt, Consents.MapOption(marketMakerId, Trim));
    Consents.ActiveMeaning(env, NormalConsent(env, input), env.parseDate(issuedAt).value, Proven());
    Consents.WellFormedIffNoErrors(env, NormalConsent(env, input));
    OpenScopeMinted(env, input);
    OpenPermissionsMinted(env, input);
    DerivationPasses(env, input);
  }

  lemma SpaceIsBlank()
    ensures Trim(" ") == ""
  {
    assert TrimStart(" ") == TrimStart(" "[1..]);
  }

  /** From a grant with a blank market maker a capability is minted that does not verify. */
  lemma BlankMarketMakerIsMinted(env: Env, issuedAt: string, expiresAt: string)
    requires Sound(env) && IsIsoSecond(issuedAt) && env.parseDate(issuedAt).Some?
    requires IsIsoSecond(expiresAt) && StrLt(issuedAt, expiresAt)
    ensures var minted := Mint(env, OpenInput(issuedAt, expiresAt, None, Some(" ")));
            minted.Ok? && Verify(env, minted.value) == Err([ParseFailed(BadMarketMaker)])
  {
    OpenGrantIsMinted(env, issuedAt, expiresAt, None, Some(" "));
    SpaceIsBlank();
    MintVerifiesIff(env, OpenInput(issuedAt, expiresAt, None, Some(" ")));
  }

  // ---------------------------------------------------------------- capability-state.ts

  datatype CapabilityState =
    | ActiveCapability | ExpiredCapability | NotYetActive | RevokedCapability | CapabilityRevocationUnknown
      | InvalidCapability

  function EvaluateState(env: Env, raw: Capability, now: int, port: RevocationPort): CapabilityState {
    match Verify(env, raw)
    case Err(_) => InvalidCapability
    case Ok(c) => VerifiedState(env, c, now, port)
  }

  function VerifiedState(env: Env, c: Capability, now: int, port: RevocationPort): CapabilityState {
    match Resolve(port, c.capabilityHash)
    case Revoked => RevokedCapability
    case Unknown => CapabilityRevocationUnknown
    case VerifiedNotRevoked =>
      if c.notBefore.Some? && StrLt(env.iso(now), c.notBefore.value) then NotYetActive
      else if StrLe(c.expiresAt, env.iso(now)) then ExpiredCapability
      else ActiveCapability
  }

  /** Anything but a proof of non-revocation blocks a capability. */
  lemma ActiveNeedsProof(env: Env, raw: Capability, now: int, port: RevocationPort)
    requires EvaluateState(env, raw, now, port) == ActiveCapability
    ensures Verify(env, raw).Ok? && port(Verify(env, raw).value.capabilityHash) == Some(VerifiedNotRevoked)
  {
  }

  /** The string comparisons that decide between active, not yet active and expired. */
  predicate InWindow(env: Env, c: Capability, now: int) {
    && (c.notBefore.Some? ==> !StrLt(env.iso(now), c.notBefore.value))
    && !StrLe(c.expiresAt, env.iso(now))
  }

  lemma ActiveIff(env: Env, raw: Capability, now: int, port: RevocationPort)
    ensures EvaluateState(env, raw, now, port) == ActiveCapability <==>
            && Verify(env, raw).Ok?
            && port(Verify(env, raw).value.capabilityHash) == Some(VerifiedNotRevoked)
            && InWindow(env, Verify(env, raw).value, now)
  {
  }

  /** What keeps a verified capability from being active: first the revocation port, then time. */
  ghost predicate StateSays(env: Env, c: Capability, now: int, port: RevocationPort, state: CapabilityState) {
    var standing := port(c.capabilityHash) == Some(VerifiedNotRevoked);
    var early := c.notBefore.Some? && StrLt(env.iso(now), c.notBefore.value);
    && state != InvalidCapability
    && (state == RevokedCapability <==> port(c.capabilityHash) == Some(Revoked))
    && (state == CapabilityRevocationUnknown <==> port(c.capabilityHash) in {None, Some(Unknown)})
    && (state == NotYetActive <==> standing && early)
    && (state == ExpiredCapability <==> standing && !early && StrLe(c.expiresAt, env.iso(now)))
  }

  lemma VerifiedStateSays(env: Env, c: Capability, now: int, port: RevocationPort)
    ensures StateSays(env, c, now, port, VerifiedState(env, c, now, port))
  {
  }

  /** The state of a verified capability says why it is not active. */
  lemma StateMeaning(env: Env, raw: Capability, now: int, port: RevocationPort)
    requires Verify(env, raw).Ok?
    ensures StateSays(env, Verify(env, raw).value, now, port, EvaluateState(env, raw, now, port))
  {
    VerifiedStateSays(env, Verify(env, raw).value, now, port);
  }

  /** What does not verify is invalid, and nothing else is. */
  lemma InvalidIff(env: Env, raw: Capability, now: int, port: RevocationPort)
    ensures EvaluateState(env, raw, now, port) == InvalidCapability <==> Verify(env, raw).Err?
  {
    if Verify(env, raw).Ok? { StateMeaning(env, raw, now, port); }
  }

  lemma StateOfVerified(env: Env, raw: Capability, now: int, port: RevocationPort)
    requires Sound(env) && Verify(env, raw).Ok?
    ensures EvaluateState(env, Verify(env, raw).value, now, port) == EvaluateState(env, raw, now, port)
  {
    VerifyIdempotent(env, raw);
  }

  // ---------------------------------------------------------------- capability-machine.ts

  datatype AccessRequest = AccessRequest(
    requestedScope: seq<ScopeEntry>, requestedPermissions: seq<string>,
    subject: Option<string>, grantee: Option<string>, marketMakerId: Option<string>, now: int)

  /** An absent binding asks for nothing. */
  predicate Binds(requested: Option<string>, actual: Option<string>) {
    requested.Some? ==> requested == actual
  }

  function EvaluateAccess(env: Env, raw: Capability, request: AccessRequest, port: RevocationPort): bool {
    if EvaluateState(env, raw, request.now, port) != ActiveCapability then false
    else if request.requestedScope == [] then false
    else if request.requestedPermissions == [] then false
    else
      match Verify(env, raw)
      case Err(_) => false
      case Ok(c) => Grants(c, request)
  }

  /** The comparisons of a request with a verified capability. */
  predicate Grants(c: Capability, request: AccessRequest) {
    if !Binds(request.subject, Some(c.subject)) then false
    else if !Binds(request.grantee, Some(c.grantee)) then false
    else if !Binds(request.marketMakerId, c.marketMakerId) then false
    else if exists e :: e in request.requestedScope
                   && (Trim(e.ref) == "" || ScopeKey(Consents.NormEntry(e)) !in Map(c.scope, ScopeKey)) then false
    else if exists p :: p in request.requestedPermissions && (Trim(p) == "" || Norm(p) !in c.permissions) then false
    else true
  }

  /** Everything the request asks for, after normalising, is in the capability. */
  ghost predicate Holds(c: Capability, request: AccessRequest) {
    && request.requestedScope != [] && request.requestedPermissions != []
    && (forall e :: e in request.requestedScope ==> Consents.NormEntry(e) in c.scope)
    && (forall p :: p in request.requestedPermissions ==> Norm(p) in c.permissions)
    && (request.subject.Some? ==> request.subject.value == c.subject)
    && (request.grantee.Some? ==> request.grantee.value == c.grantee)
    && (request.marketMakerId.Some? ==> request.marketMakerId == c.marketMakerId)
  }

  /** What the machine accepts, of any request: what an active capability holds. */
  lemma AccessIff(env: Env, raw: Capability, request: AccessRequest, port: RevocationPort)
    requires Sound(env)
    ensures EvaluateAccess(env, raw, request, port) <==>
            EvaluateState(env, raw, request.now, port) == ActiveCapability && Holds(Verify(env, raw).value, request)
  {
    if EvaluateState(env, raw, request.now, port) == ActiveCapability {
      ActiveNeedsProof(env, raw, request.now, port);
      VerifyIdempotent(env, raw);
      if request.requestedScope != [] && request.requestedPermissions != [] {
        GrantsIffHolds(Verify(env, raw).value, request);
      }
    }
  }

  lemma GrantsIffHolds(c: Capability, request: AccessRequest)
    requires ValidScope(c.scope) && NormalPermissions(c.permissions)
    requires request.requestedScope != [] && request.requestedPermissions != []
    ensures Grants(c, request) <==> Holds(c, request)
  {
    forall e: ScopeEntry
      ensures Trim(e.ref) != "" && ScopeKey(Consents.NormEntry(e)) in Map(c.scope, ScopeKey) <==>
              Consents.NormEntry(e) in c.scope
    {
      NormalMember(c.scope, e);
    }
    forall p | Norm(p) in c.permissions ensures Trim(p) != "" {
      NormIdempotent(p);
      assert IsPermission(Norm(p));
    }
  }

  lemma NormalMember(scope: seq<ScopeEntry>, e: ScopeEntry)
    requires ValidScope(scope)
    ensures Trim(e.ref) != "" && ScopeKey(Consents.NormEntry(e)) in Map(scope, ScopeKey) <==>
            Consents.NormEntry(e) in scope
  {
    KeyMembership(scope, Consents.NormEntry(e));
    NormIdempotent(e.ref);
    if Consents.NormEntry(e) in scope {
      HashIsPlain(Norm(e.ref));
    }
  }
}
