/** Execution authorisation (protocol/execution): a request is parsed, enforced, and turned into a
    contract. */
module Execution {
  import opened Wrappers
  import opened Sequences
  import opened Text
  import opened Scope
  import opened Environment
  import opened Capabilities
  import opened Enforcement
  import Consents

  datatype Target = Target(adapter: string, operation: string)

  datatype ExecutionRequest = ExecutionRequest(base: Request, target: Target)

  datatype Contract = Contract(
    adapter: string, operation: string, subject: string, grantee: string,
    allowedScope: seq<ScopeEntry>, allowedPermissions: seq<string>,
    capabilityHash: string, parentConsentHash: string, marketMakerId: Option<string>, resource: Resource)

  datatype ExecutionReason = EXECUTION_REQUEST_INVALID | EXECUTION_AUTHORIZED | Rejected(reason: ReasonCode)

  datatype Authorization = Authorization(
    authorized: bool, reason: ExecutionReason, target: Target,
    request: Option<ExecutionRequest>, decision: Option<Decision>, contract: Option<Contract>)

  predicate TargetParses(t: Target) {
    Trim(t.adapter) != "" && Trim(t.operation) != ""
  }

  predicate ExecutionParses(r: ExecutionRequest) {
    RequestParses(r.base) && TargetParses(r.target)
  }

  function TrimTarget(t: Target): Target {
    Target(Trim(t.adapter), Trim(t.operation))
  }

  function NormalExecution(env: Env, r: ExecutionRequest): ExecutionRequest {
    ExecutionRequest(NormalRequest(env, r.base), TrimTarget(r.target))
  }

  /** The target reported for a request that does not parse. */
  function FallbackTarget(t: Target): Target {
    Target(if Trim(t.adapter) != "" then Trim(t.adapter) else "unknown",
           if Trim(t.operation) != "" then Trim(t.operation) else "unknown")
  }

  function BuildContract(n: ExecutionRequest, c: Capability): Contract {
    Contract(n.target.adapter, n.target.operation, c.subject, c.grantee,
             n.base.requestedScope, n.base.requestedPermissions,
             c.capabilityHash, c.parentConsentHash, n.base.marketMakerId, n.base.resource)
  }

  function Authorize(env: Env, request: ExecutionRequest, clock: int, port: RevocationPort): Authorization {
    if !ExecutionParses(request) then
      Authorization(false, EXECUTION_REQUEST_INVALID, FallbackTarget(request.target), None, None, None)
    else
      var n := NormalExecution(env, request);
      var decision := Evaluate(env, n.base.(now := Some(n.base.now.GetOr(clock))), clock, port);
      if !decision.allowed || decision.capability.None? then
        Authorization(false, Rejected(decision.reason), n.target, Some(n), Some(decision), None)
      else
        Authorization(true, EXECUTION_AUTHORIZED, n.target, Some(n), Some(decision),
                      Some(BuildContract(n, decision.capability.value)))
  }

  /** Enforcement sees the normal form as it is: its own parse adds nothing. */
  lemma EnforcedRequest(env: Env, request: ExecutionRequest, clock: int)
    requires Sound(env) && RequestParses(request.base)
    ensures var n := NormalRequest(env, request.base);
            var m := n.(now := Some(n.now.GetOr(clock)));
            RequestParses(m) && NormalRequest(env, m) == m
  {
    NormalRequestIdempotent(env, request.base);
  }

  /** An execution is authorised exactly when its request parses and the capability machine accepts the
      normal form of what it asks. */
  lemma AuthorizedIffAccess(env: Env, request: ExecutionRequest, clock: int, port: RevocationPort)
    requires Sound(env)
    ensures Authorize(env, request, clock, port).authorized <==>
            && ExecutionParses(request)
            && EvaluateAccess(env, request.base.capability, AccessOf(NormalRequest(env, request.base), clock), port)
    ensures Authorize(env, request, clock, port).authorized <==> Authorize(env, request, clock, port).contract.Some?
  {
    if ExecutionParses(request) {
      var n := NormalRequest(env, request.base);
      var m := n.(now := Some(n.now.GetOr(clock)));
      EnforcedRequest(env, request, clock);
      AllowedIffAccess(env, m, clock, port);
      if Evaluate(env, m, clock, port).allowed {
        AllowedMeaning(env, m, clock, port);
      }
    }
  }

  /** The target as it is reported: trimmed, and "unknown" where it is blank. */
  ghost predicate ReportsTarget(given: Target, reported: Target) {
    && (Trim(given.adapter) != "" ==> reported.adapter == Trim(given.adapter))
    && (Trim(given.adapter) == "" ==> reported.adapter == "unknown")
    && (Trim(given.operation) != "" ==> reported.operation == Trim(given.operation))
    && (Trim(given.operation) == "" ==> reported.operation == "unknown")
  }

  /** What an authorisation reports: for a request that does not parse just that, otherwise the normal request, the
      decision of enforcement about it, and its reason unless it allows. */
  lemma AuthorizationSays(env: Env, request: ExecutionRequest, clock: int, port: RevocationPort)
    requires Sound(env)
    ensures var a := Authorize(env, request, clock, port);
            var parses := RequestParses(request.base)
                          && Trim(request.target.adapter) != "" && Trim(request.target.operation) != "";
            && ReportsTarget(request.target, a.target)
            && (a.reason == EXECUTION_REQUEST_INVALID <==> !parses)
            && (!parses ==> !a.authorized && a.request == None && a.decision == None && a.contract == None)
            && (parses ==>
                  && a.request == Some(ExecutionRequest(NormalRequest(env, request.base), a.target))
                  && a.decision.Some? && a.decision.value.reason == Evaluate(env, request.base, clock, port).reason
                  && (a.authorized <==> a.decision.value.reason == ENFORCEMENT_ALLOW)
                  && (a.reason == EXECUTION_AUTHORIZED <==> a.authorized)
                  && (!a.authorized ==> a.reason == Rejected(a.decision.value.reason) && a.contract == None))
  {
    if ExecutionParses(request) {
      var n := NormalRequest(env, request.base);
      var m := n.(now := Some(n.now.GetOr(clock)));
      EnforcedRequest(env, request, clock);
      FinalDenialUnreachable(env, m, clock, port);
      if Evaluate(env, m, clock, port).allowed { AllowedMeaning(env, m, clock, port); }
      SameReason(env, request.base, m, clock, port);
    }
  }

  /** Fixing the clock beforehand changes no reason. */
  lemma SameReason(env: Env, r: Request, m: Request, clock: int, port: RevocationPort)
    requires Sound(env) && RequestParses(r) && RequestParses(m)
    requires NormalRequest(env, m) == m == NormalRequest(env, r).(now := Some(r.now.GetOr(clock)))
    ensures Evaluate(env, m, clock, port).reason == Evaluate(env, r, clock, port).reason
  {
    NormalRequestKeeps(env, r);
    ReasonSays(env, r, clock, port);
    ReasonSays(env, m, clock, port);
    if Verify(env, r.capability).Ok? && EvaluateState(env, r.capability, r.now.GetOr(clock), port) == ActiveCapability {
      OneFirstMismatch(NormalRequest(env, r), m, Verify(env, r.capability).value, Evaluate(env, r, clock, port).reason,
                       Evaluate(env, m, clock, port).reason);
    }
  }

  lemma OneFirstMismatch(n: Request, m: Request, c: Capability, a: ReasonCode, b: ReasonCode)
    requires m == n.(now := m.now) && NamesFirstMismatch(n, c, a) && NamesFirstMismatch(m, c, b)
    ensures a == b
  {
    assert forall r :: Mismatches(n, c, r) <==> Mismatches(m, c, r);
  }

  /** What a contract grants lies within the capability it names, which is active. */
  lemma ContractWithinCapability(env: Env, request: ExecutionRequest, clock: int, port: RevocationPort)
    requires Sound(env) && Authorize(env, request, clock, port).authorized
    ensures Authorize(env, request, clock, port).contract.Some?
    ensures Verify(env, request.base.capability).Ok?
    ensures EvaluateState(env, request.base.capability, request.base.now.GetOr(clock), port) == ActiveCapability
    ensures var contract := Authorize(env, request, clock, port).contract.value;
            var c := Verify(env, request.base.capability).value;
            && contract.subject == c.subject && contract.grantee == c.grantee
            && contract.capabilityHash == c.capabilityHash && contract.parentConsentHash == c.parentConsentHash
            && (forall e :: e in contract.allowedScope ==> AllowsEntry(c.scope, e))
            && (forall p :: p in contract.allowedPermissions ==> p in c.permissions)
            && (contract.marketMakerId.Some? ==> contract.marketMakerId == c.marketMakerId)
  {
    var n := NormalRequest(env, request.base);
    var m := n.(now := Some(n.now.GetOr(clock)));
    EnforcedRequest(env, request, clock);
    AllowedMeaning(env, m, clock, port);
  }

  /** What a contract grants is what was asked for: every requested entry and permission, normalised. */
  lemma ContractCoversRequest(env: Env, request: ExecutionRequest, clock: int, port: RevocationPort)
    requires Sound(env) && Authorize(env, request, clock, port).authorized
    ensures Authorize(env, request, clock, port).contract.Some?
    ensures var contract := Authorize(env, request, clock, port).contract.value;
            && (forall e :: e in contract.allowedScope <==> e in Map(request.base.requestedScope, ParseEntry))
            && (forall p :: p in contract.allowedPermissions <==> p in Map(request.base.requestedPermissions, Norm))
            && contract.adapter == Trim(request.target.adapter) && contract.operation == Trim(request.target.operation)
            && TrimsTo(request.base.marketMakerId, contract.marketMakerId)
            && (if request.base.resource.Resource?
                then contract.resource == Resource(Trim(request.base.resource.kind), Norm(request.base.resource.ref))
                else contract.resource == request.base.resource)
  {
    NormalRequestProperties(env, request.base);
    NormalRequestKeeps(env, request.base);
  }

  function WithResource(request: ExecutionRequest, resource: Resource): ExecutionRequest {
    request.(base := request.base.(resource := resource))
  }

  /** The entry a resource stands for; one that is absent or null asks for nothing. */
  predicate ResourceWithin(scope: seq<ScopeEntry>, resource: Resource) {
    resource.Resource? ==> AllowsEntry(scope, ParseEntry(ScopeEntry(resource.kind, resource.ref)))
  }

  /** The resource goes into the contract without a look at the capability: an authorised request stays authorised
      with any other resource that parses, and its contract differs in the resource only. So the contract's resource
      lies within the capability exactly when the requested one does. */
  lemma ResourceIsUnchecked(env: Env, request: ExecutionRequest, resource: Resource, clock: int, port: RevocationPort)
    requires Sound(env) && Authorize(env, request, clock, port).authorized && ResourceParses(resource)
    ensures Authorize(env, request, clock, port).contract.Some? && Verify(env, request.base.capability).Ok?
    ensures var before := Authorize(env, request, clock, port);
            var after := Authorize(env, WithResource(request, resource), clock, port);
            && after.authorized && after.contract.Some?
            && after.contract.value.(resource := before.contract.value.resource) == before.contract.value
            && var scope := Verify(env, request.base.capability).value.scope;
               ResourceWithin(scope, after.contract.value.resource) <==> ResourceWithin(scope, resource)
  {
    AuthorizedIffAccess(env, request, clock, port);
    AuthorizedIffAccess(env, WithResource(request, resource), clock, port);
    ContractIsBuilt(env, request, clock, port);
    ContractIsBuilt(env, WithResource(request, resource), clock, port);
    if resource.Resource? {
      ParseEntryIdempotent(ScopeEntry(resource.kind, resource.ref));
    }
  }

  lemma ParseEntryIdempotent(e: ScopeEntry)
    ensures ParseEntry(ParseEntry(e)) == ParseEntry(e)
  {
    TrimIdempotent(e.kind);
    NormIdempotent(e.ref);
  }

  lemma ContractIsBuilt(env: Env, request: ExecutionRequest, clock: int, port: RevocationPort)
    requires Sound(env) && Authorize(env, request, clock, port).authorized
    ensures Verify(env, request.base.capability).Ok?
    ensures Authorize(env, request, clock, port).contract ==
            Some(BuildContract(NormalExecution(env, request), Verify(env, request.base.capability).value))
  {
    ContractWithinCapability(env, request, clock, port);
    var n := NormalRequest(env, request.base);
    EnforcedRequest(env, request, clock);
    AllowedMeaning(env, n.(now := Some(n.now.GetOr(clock))), clock, port);
  }

  /** In particular some resource outside the capability gets its contract. */
  lemma OutsideResourceIsContracted(env: Env, request: ExecutionRequest, clock: int, port: RevocationPort)
    requires Sound(env) && Authorize(env, request, clock, port).authorized
    ensures Verify(env, request.base.capability).Ok?
    ensures var authorization := Authorize(env, WithResource(request, Resource("field", "x")), clock, port);
            && authorization.authorized && authorization.contract.Some?
            && !ResourceWithin(Verify(env, request.base.capability).value.scope, authorization.contract.value.resource)
  {
    var resource := Resource("field", "x");
    ContractIsBuilt(env, request, clock, port);
    var c := Verify(env, request.base.capability).value;
    VerifyIdempotent(env, request.base.capability);
    OutsideEntry(c.scope);
    ResourceIsUnchecked(env, request, resource, clock, port);
  }

  lemma OutsideEntry(scope: seq<ScopeEntry>)
    requires ValidScope(scope)
    ensures ResourceParses(Resource("field", "x")) && !ResourceWithin(scope, Resource("field", "x"))
  {
    var e := ScopeEntry("field", "x");
    assert AllIn("field", Plain) && AllIn("x", Plain);
    NormOfPlain("field");
    NormOfPlain("x");
    KeyMembership(scope, e);
    assert !ValidEntry(e);
  }

  /** From consent to contract: whatever a minted capability authorises stays within the consent it was
      minted from, names that consent and its parties, and needs both to be proven not revoked. */
  lemma ContractWithinConsent(env: Env, input: MintInput, request: ExecutionRequest, clock: int, port: RevocationPort)
    requires Sound(env) && Mint(env, input).Ok?
    requires request.base.capability == Mint(env, input).value
    requires Authorize(env, request, clock, port).authorized
    ensures Authorize(env, request, clock, port).contract.Some?
    ensures var contract := Authorize(env, request, clock, port).contract.value;
            var consent := NormalConsent(env, input);
            && contract.subject == consent.subject && contract.grantee == consent.grantee
            && contract.parentConsentHash == consent.consentHash
            && (forall e :: e in contract.allowedScope ==> e in consent.scope)
            && (forall p :: p in contract.allowedPermissions ==> p in consent.permissions)
            && (contract.marketMakerId.Some? ==> contract.marketMakerId == consent.marketMakerId)
            && input.port(consent.consentHash) == Some(VerifiedNotRevoked)
            && port(contract.capabilityHash) == Some(VerifiedNotRevoked)
  {
    var c := request.base.capability;
    MintVerifiesIff(env, input);
    MintDerives(env, input);
    ContractWithinCapability(env, request, clock, port);
    ActiveNeedsProof(env, c, request.base.now.GetOr(clock), port);
    MintNeedsProof(env, input);
    EntriesWithin(Authorize(env, request, clock, port).contract.value.allowedScope, c.scope,
                  NormalConsent(env, input).scope);
  }

  lemma EntriesWithin(granted: seq<ScopeEntry>, scope: seq<ScopeEntry>, consentScope: seq<ScopeEntry>)
    requires ValidScope(scope) && (forall e :: e in granted ==> AllowsEntry(scope, e))
    requires forall e :: e in scope ==> e in consentScope
    ensures forall e :: e in granted ==> e in consentScope
  {
    forall e | e in granted ensures e in consentScope {
      KeyMembership(scope, e);
    }
  }

  lemma MintNeedsProof(env: Env, input: MintInput)
    requires Mint(env, input).Ok?
    ensures input.port(NormalConsent(env, input).consentHash) == Some(VerifiedNotRevoked)
  {
    Consents.ActiveMeaning(env, NormalConsent(env, input), env.parseDate(input.issuedAt).value, input.port);
  }
}
