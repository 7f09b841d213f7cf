/** The in-memory control plane of runtime/controlPlane.ts: access requests, grants, the append-only
    revocation evidence log, the revocation counter and the idempotency cache. */
module ControlPlane {
  import opened Wrappers
  import opened Sequences
  import opened OrderedMaps
  import opened Decimals

  datatype RequestStatus = Pending | Approved | Denied

  datatype AccessRequest = AccessRequest(
    requestId: string, subjectId: string, requesterId: string, datasetId: string, purpose: string,
    requestedScope: seq<string>, status: RequestStatus, createdAt: string, updatedAt: string)

  datatype GrantStatus = ActiveGrant | RevokedGrant

  datatype Grant = Grant(
    grantId: string, requestId: string, subjectId: string, requesterId: string, datasetId: string,
    scope: seq<string>, grantedAt: string, status: GrantStatus,
    revokedAt: Option<string>, revocationId: Option<string>, reasonCode: Option<string>)

  datatype Evidence = Evidence(
    evidenceRecordId: string, revocationId: string, grantId: string, subjectId: string, requesterId: string,
    reasonCode: string, idempotencyKey: Option<string>, requestedAt: string, completedAt: string)

  datatype CreateInput = CreateInput(
    subjectId: string, requesterId: string, datasetId: string, purpose: string, requestedScope: seq<string>)

  datatype DecideInput = DecideInput(
      requestId: string, subjectId: Option<string>, approve: bool, reason: Option<string>)

  datatype RevokeInput = RevokeInput(
    grantId: string, subjectId: Option<string>, requesterId: Option<string>,
    reason: Option<string>, idempotencyKey: Option<string>)

  /** The fields that the source serialises into a fingerprint string. */
  datatype Fingerprint = Fingerprint(
    grantId: string, reason: Option<string>, subjectId: Option<string>, requesterId: Option<string>)

  datatype RevokeResult = RevokeResult(
    grant: Grant, revocationId: string, idempotentReplay: bool, evidenceRecordId: string, completedAt: string)

  datatype Decision = Decision(request: AccessRequest, approved: bool, reasonCode: string, grant: Option<Grant>)

  datatype Failure =
    | GrantNotFound(id: string)
    | RequestNotFound(id: string)
    | SubjectMismatch(id: string)
    | IdempotencyConflict(key: string)

  datatype CacheEntry = CacheEntry(fingerprint: Fingerprint, result: RevokeResult)

  datatype State = State(
    requests: OrderedMap<string, AccessRequest>,
    grants: OrderedMap<string, Grant>,
    evidence: seq<Evidence>,
    idempotency: map<string, CacheEntry>,
    revocationSequence: nat)

  const INITIAL := State(Empty(), Empty(), [], map[], 0)

  function FingerprintOf(input: RevokeInput): Fingerprint {
    Fingerprint(input.grantId, input.reason, input.subjectId, input.requesterId)
  }

  /** `find` on the evidence log: the first record of a grant. */
  function FindEvidence(evidence: seq<Evidence>, grantId: string): Option<Evidence> {
    if evidence == [] then None
    else if evidence[0].grantId == grantId then Some(evidence[0])
    else FindEvidence(evidence[1..], grantId)
  }

  function Remember(s: State, input: RevokeInput, result: RevokeResult): State {
    if input.idempotencyKey.None? then s
    else s.(idempotency := s.idempotency[input.idempotencyKey.value := CacheEntry(FingerprintOf(input), result)])
  }

  // ---------------------------------------------------------------- the transitions

  function CreateRequest(s: State, input: CreateInput, now: string): (State, AccessRequest) {
    var id := Identifier("ar_", |s.requests.keys| + 1);
    var request := AccessRequest(id, input.subjectId, input.requesterId, input.datasetId, input.purpose,
                                 input.requestedScope, Pending, now, now);
    (s.(requests := s.requests.Set(id, request)), request)
  }

  function DecideRequest(
      s: State, input: DecideInput, decidedAt: string, grantedAt: string): (State, Result<Decision, Failure>) {
    if input.requestId !in s.requests.vals then (s, Err(RequestNotFound(input.requestId)))
    else
      var old_ := s.requests.vals[input.requestId];
      if input.subjectId.Some? && input.subjectId.value != old_.subjectId then
        (s, Err(SubjectMismatch(input.requestId)))
      else
        var reasonCode := input.reason.GetOr(if input.approve then "APPROVED" else "DENIED");
        var request := old_.(status := if input.approve then Approved else Denied, updatedAt := decidedAt);
        var decided := s.(requests := s.requests.Set(request.requestId, request));
        if !input.approve then (decided, Ok(Decision(request, false, reasonCode, None)))
        else
          var grant := Grant(Identifier("ga_", |s.grants.keys| + 1), request.requestId, request.subjectId,
                             request.requesterId, request.datasetId, request.requestedScope, grantedAt,
                             ActiveGrant, None, None, None);
          (decided.(grants := s.grants.Set(grant.grantId, grant)),
           Ok(Decision(request, true, reasonCode, Some(grant))))
  }

  /** The answer to a revocation of a grant that is already revoked. */
  function StableResult(s: State, grant: Grant, requestedAt: string): RevokeResult {
    var record := FindEvidence(s.evidence, grant.grantId);
    RevokeResult(grant, grant.revocationId.GetOr("unknown"), true,
                 if record.Some? then record.value.evidenceRecordId else "unknown",
                 grant.revokedAt.GetOr(requestedAt))
  }

  /** The atomic section: flip the grant and append its evidence. */
  function RevokeActive(
      s: State, input: RevokeInput, grant: Grant, requestedAt: string, completedAt: string): (State, RevokeResult) {
    var sequence := s.revocationSequence + 1;
    var revocationId := Identifier("rev_", sequence);
    var reasonCode := input.reason.GetOr("MANUAL_REVOCATION");
    var revoked := grant.(status := RevokedGrant, revokedAt := Some(completedAt),
                          revocationId := Some(revocationId), reasonCode := Some(reasonCode));
    var evidenceRecordId := Identifier("evd_", |s.evidence| + 1);
    var record := Evidence(evidenceRecordId, revocationId, grant.grantId, grant.subjectId, grant.requesterId,
                           reasonCode, input.idempotencyKey, requestedAt, completedAt);
    (s.(revocationSequence := sequence,
        grants := s.grants.Set(grant.grantId, revoked),
        evidence := s.evidence + [record]),
     RevokeResult(revoked, revocationId, false, evidenceRecordId, completedAt))
  }

  function Revoke(
      s: State, input: RevokeInput, requestedAt: string, completedAt: string): (State, Result<RevokeResult, Failure>) {
    if input.idempotencyKey.Some? && input.idempotencyKey.value in s.idempotency then
      var cached := s.idempotency[input.idempotencyKey.value];
      if cached.fingerprint != FingerprintOf(input) then (s, Err(IdempotencyConflict(input.idempotencyKey.value)))
      else (s, Ok(cached.result.(idempotentReplay := true)))
    else if input.grantId !in s.grants.vals then (s, Err(GrantNotFound(input.grantId)))
    else
      var grant := s.grants.vals[input.grantId];
      if input.subjectId.Some? && input.subjectId.value != grant.subjectId then (s, Err(SubjectMismatch(input.grantId)))
      else if grant.status == RevokedGrant then
        var result := StableResult(s, grant, requestedAt);
        (Remember(s, input, result), Ok(result))
      else
        var (next, result) := RevokeActive(s, input, grant, requestedAt, completedAt);
        (Remember(next, input, result), Ok(result))
  }

  function IsListed(subjectId: Option<string>, requesterId: Option<string>): Grant -> bool {
    (g: Grant) =>
      && g.status == ActiveGrant
      && (subjectId.GetOr("") == "" || g.subjectId == subjectId.value)
      && (requesterId.GetOr("") == "" || g.requesterId == requesterId.value)
  }

  // ---------------------------------------------------------------- the service

  class ControlPlaneService {
    var requests: OrderedMap<string, AccessRequest>
    var grants: OrderedMap<string, Grant>
    var revocationEvidence: seq<Evidence>
    var revocationIdempotency: map<string, CacheEntry>
    var revocationSequence: nat

    function View(): State
      reads this
    {
      State(requests, grants, revocationEvidence, revocationIdempotency, revocationSequence)
    }

    ghost predicate Valid()
      reads this
    {
      Inv(View())
    }

    constructor ()
      ensures View() == INITIAL && Valid()
    {
      requests, grants := Empty(), Empty();
      revocationEvidence, revocationIdempotency, revocationSequence := [], map[], 0;
      new;
      InitialInv();
    }

    method CreateAccessRequest(input: CreateInput, now: string) returns (request: AccessRequest)
      requires Valid()
      modifies this
      ensures Valid()
      ensures (View(), request) == CreateRequest(old(View()), input, now)
    {
      CreateInv(View(), input, now);
      var requestId := Identifier("ar_", |requests.keys| + 1);
      request := AccessRequest(requestId, input.subjectId, input.requesterId, input.datasetId, input.purpose,
                               input.requestedScope, Pending, now, now);
      requests := requests.Set(requestId, request);
    }

    method DecideAccessRequest(input: DecideInput, decidedAt: string, grantedAt: string)
      returns (r: Result<Decision, Failure>)
      requires Valid()
      modifies this
      ensures Valid()
      ensures (View(), r) == DecideRequest(old(View()), input, decidedAt, grantedAt)
    {
      DecideInv(View(), input, decidedAt, grantedAt);
      if input.requestId !in requests.vals {
        return Err(RequestNotFound(input.requestId));
      }
      var request := requests.vals[input.requestId];
      if input.subjectId.Some? && input.subjectId.value != request.subjectId {
        return Err(SubjectMismatch(input.requestId));
      }
      var reasonCode := input.reason.GetOr(if input.approve then "APPROVED" else "DENIED");
      request := request.(status := if input.approve then Approved else Denied);
      request := request.(updatedAt := decidedAt);
      requests := requests.Set(request.requestId, request);
      if !input.approve {
        return Ok(Decision(request, false, reasonCode, None));
      }
      var grant := Grant(Identifier("ga_", |grants.keys| + 1), request.requestId, request.subjectId,
                         request.requesterId, request.datasetId, request.requestedScope, grantedAt,
                         ActiveGrant, None, None, None);
      grants := grants.Set(grant.grantId, grant);
      r := Ok(Decision(request, true, reasonCode, Some(grant)));
    }

    method RevokeGrant(input: RevokeInput, requestedAt: string, completedAt: string)
      returns (r: Result<RevokeResult, Failure>)
      requires Valid()
      modifies this
      ensures Valid()
      ensures (View(), r) == Revoke(old(View()), input, requestedAt, completedAt)
      ensures KeyUnused(old(View()), input) ==>
                && (r == Err(GrantNotFound(input.grantId)) <==> input.grantId !in old(grants).vals)
                && (r.Ok? <==>
                      && input.grantId in old(grants).vals
                      && (input.subjectId.None? || input.subjectId.value == old(grants).vals[input.grantId].subjectId))
    {
      RevokeInv(View(), input, requestedAt, completedAt);
      if KeyUnused(View(), input) { RevocationVerdict(View(), input, requestedAt, completedAt); }
      r := PerformRevocation(input, requestedAt, completedAt);
    }

    /** The body of `RevokeGrant`; it needs no invariant to do what `Revoke` says. */
    method PerformRevocation(input: RevokeInput, requestedAt: string, completedAt: string)
      returns (r: Result<RevokeResult, Failure>)
      modifies this
      ensures (View(), r) == Revoke(old(View()), input, requestedAt, completedAt)
    {
      var fingerprint := FingerprintOf(input);
      if input.idempotencyKey.Some? {
        if input.idempotencyKey.value in revocationIdempotency {
          var cached := revocationIdempotency[input.idempotencyKey.value];
          if cached.fingerprint != fingerprint {
            return Err(IdempotencyConflict(input.idempotencyKey.value));
          }
          return Ok(cached.result.(idempotentReplay := true));
        }
      }
      if input.grantId !in grants.vals {
        return Err(GrantNotFound(input.grantId));
      }
      var grant := grants.vals[input.grantId];
      if input.subjectId.Some? && input.subjectId.value != grant.subjectId {
        return Err(SubjectMismatch(input.grantId));
      }
      if grant.status == RevokedGrant {
        var stable := StableResult(View(), grant, requestedAt);
        if input.idempotencyKey.Some? {
          revocationIdempotency := revocationIdempotency[input.idempotencyKey.value := CacheEntry(fingerprint, stable)];
        }
        return Ok(stable);
      }
      revocationSequence := revocationSequence + 1;
      var revocationId := Identifier("rev_", revocationSequence);
      var reasonCode := input.reason.GetOr("MANUAL_REVOCATION");
      grant := grant.(status := RevokedGrant);
      grant := grant.(revokedAt := Some(completedAt));
      grant := grant.(revocationId := Some(revocationId));
      grant := grant.(reasonCode := Some(reasonCode));
      grants := grants.Set(grant.grantId, grant);
      var evidenceRecordId := Identifier("evd_", |revocationEvidence| + 1);
      revocationEvidence := revocationEvidence + [
        Evidence(evidenceRecordId, revocationId, grant.grantId, grant.subjectId, grant.requesterId,
                 reasonCode, input.idempotencyKey, requestedAt, completedAt)];
      var result := RevokeResult(grant, revocationId, false, evidenceRecordId, completedAt);
      if input.idempotencyKey.Some? {
        revocationIdempotency := revocationIdempotency[input.idempotencyKey.value := CacheEntry(fingerprint, result)];
      }
      r := Ok(result);
    }

    /** The active grants that pass both filters, in the order they were made, each once. An empty filter string is
        falsy in the source and so filters nothing. */
    method ListActiveGrants(subjectId: Option<string>, requesterId: Option<string>) returns (r: seq<Grant>)
      requires Valid()
      ensures forall g :: g in r <==>
                && g.grantId in grants.vals && grants.vals[g.grantId] == g
                && (forall e :: e in revocationEvidence ==> e.grantId != g.grantId)
                && (subjectId.GetOr("") != "" ==> g.subjectId == subjectId.value)
                && (requesterId.GetOr("") != "" ==> g.requesterId == requesterId.value)
      ensures IsSelection(r, grants.Values(), IsListed(subjectId, requesterId))
      ensures Distinct(r)
    {
      var keep := IsListed(subjectId, requesterId);
      r := Filter(grants.Values(), keep);
      FilterIsSelection(grants.Values(), keep);
      GrantIdsDistinct(grants);
      FilterDistinct(grants.Values(), keep);
      FilterMembers(grants.Values(), keep);
      forall g: Grant ensures g in grants.Values() <==> g.grantId in grants.vals && grants.vals[g.grantId] == g {
        grants.ValuesMembers(g);
      }
      forall g: Grant | g.grantId in grants.vals && grants.vals[g.grantId] == g
        ensures g.status == ActiveGrant <==> forall e :: e in revocationEvidence ==> e.grantId != g.grantId
      {
        ActiveIffNoEvidence(View(), g.grantId);
      }
    }

    method ListRevocationEvidence(grantId: Option<string>) returns (r: seq<Evidence>)
      requires Valid()
      ensures grantId.None? ==> r == revocationEvidence
      ensures grantId.Some? ==>
                if grantId.value in grants.vals && grants.vals[grantId.value].status == RevokedGrant
                then |r| == 1 && r[0] in revocationEvidence && r[0].grantId == grantId.value
                else r == []
    {
      if grantId.None? {
        r := revocationEvidence;
      } else {
        r := Filter(revocationEvidence, (e: Evidence) => e.grantId == grantId.value);
        EvidenceOfGrant(View(), grantId.value);
      }
    }
  }

  // ---------------------------------------------------------------- the invariant

  ghost predicate RequestsInv(requests: OrderedMap<string, AccessRequest>) {
    && requests.Valid()
    && (forall i :: 0 <= i < |requests.keys| ==> requests.keys[i] == Identifier("ar_", i + 1))
    && (forall k :: k in requests.vals ==> requests.vals[k].requestId == k)
  }

  ghost predicate GrantsInv(grants: OrderedMap<string, Grant>) {
    && grants.Valid()
    && (forall i :: 0 <= i < |grants.keys| ==> grants.keys[i] == Identifier("ga_", i + 1))
    && (forall k :: k in grants.vals ==> grants.vals[k].grantId == k)
  }

  predicate StemsFrom(g: Grant, request: AccessRequest) {
    && g.requestId == request.requestId && g.subjectId == request.subjectId
    && g.requesterId == request.requesterId && g.datasetId == request.datasetId
    && g.scope == request.requestedScope
  }

  /** Every grant stems from a request and carries that request's terms. */
  ghost predicate ProvenanceInv(requests: map<string, AccessRequest>, grants: map<string, Grant>) {
    forall k :: k in grants ==>
      grants[k].requestId in requests && StemsFrom(grants[k], requests[grants[k].requestId])
  }

  /** The record and the grant it is about tell the same story. */
  predicate Agrees(e: Evidence, g: Grant) {
    && g.status == RevokedGrant
    && g.revocationId == Some(e.revocationId)
    && g.reasonCode == Some(e.reasonCode)
    && g.revokedAt == Some(e.completedAt)
    && g.subjectId == e.subjectId
    && g.requesterId == e.requesterId
  }

  ghost predicate EvidenceInv(evidence: seq<Evidence>, grants: map<string, Grant>) {
    && (forall i :: 0 <= i < |evidence| ==>
          && evidence[i].evidenceRecordId == Identifier("evd_", i + 1)
          && evidence[i].revocationId == Identifier("rev_", i + 1)
          && evidence[i].grantId in grants
          && Agrees(evidence[i], grants[evidence[i].grantId]))
    && (forall i, j :: 0 <= i < j < |evidence| ==> evidence[i].grantId != evidence[j].grantId)
  }

  ghost predicate HasEvidence(evidence: seq<Evidence>, grantId: string) {
    exists i :: 0 <= i < |evidence| && evidence[i].grantId == grantId
  }

  ghost predicate StatusInv(grants: map<string, Grant>, evidence: seq<Evidence>) {
    forall k :: k in grants ==>
      if grants[k].status == RevokedGrant then HasEvidence(evidence, k)
      else grants[k].revokedAt == None && grants[k].revocationId == None && grants[k].reasonCode == None
  }

  predicate Supports(e: Evidence, r: RevokeResult) {
    && e.grantId == r.grant.grantId && e.evidenceRecordId == r.evidenceRecordId
    && e.revocationId == r.revocationId && e.completedAt == r.completedAt
  }

  /** A result that states the revocation on record for its grant. */
  ghost predicate OnRecord(grants: map<string, Grant>, evidence: seq<Evidence>, r: RevokeResult) {
    && r.grant.grantId in grants
    && grants[r.grant.grantId] == r.grant
    && r.grant.status == RevokedGrant
    && exists e :: e in evidence && Supports(e, r)
  }

  ghost predicate CacheInv(cache: map<string, CacheEntry>, grants: map<string, Grant>, evidence: seq<Evidence>) {
    forall k :: k in cache ==>
      && OnRecord(grants, evidence, cache[k].result)
      && cache[k].fingerprint.grantId == cache[k].result.grant.grantId
  }

  ghost predicate Inv(s: State) {
    && RequestsInv(s.requests)
    && GrantsInv(s.grants)
    && ProvenanceInv(s.requests.vals, s.grants.vals)
    && EvidenceInv(s.evidence, s.grants.vals)
    && s.revocationSequence == |s.evidence|
    && StatusInv(s.grants.vals, s.evidence)
    && CacheInv(s.idempotency, s.grants.vals, s.evidence)
  }

  // What no step takes back: the log grows at its end, revoked grants are frozen, the others keep their
  // terms, and cache entries stay.

  predicate SameTerms(g: Grant, h: Grant) {
    && g.grantId == h.grantId && g.requestId == h.requestId && g.subjectId == h.subjectId
    && g.requesterId == h.requesterId && g.datasetId == h.datasetId && g.scope == h.scope
    && g.grantedAt == h.grantedAt
  }

  ghost predicate GrantsExtend(grants: map<string, Grant>, grants': map<string, Grant>) {
    forall k :: k in grants ==>
      && k in grants'
      && SameTerms(grants[k], grants'[k])
      && (grants[k].status == RevokedGrant ==> grants'[k] == grants[k])
  }

  ghost predicate CacheExtends(cache: map<string, CacheEntry>, cache': map<string, CacheEntry>) {
    forall k :: k in cache ==> k in cache' && cache'[k] == cache[k]
  }

  ghost predicate Extends(s: State, s': State) {
    && s.evidence <= s'.evidence
    && GrantsExtend(s.grants.vals, s'.grants.vals)
    && CacheExtends(s.idempotency, s'.idempotency)
  }

  lemma InitialInv()
    ensures Inv(INITIAL)
  {
  }

  lemma FreshIdentifier<V>(m: OrderedMap<string, V>, prefix: string)
    requires m.Valid()
    requires forall i :: 0 <= i < |m.keys| ==> m.keys[i] == Identifier(prefix, i + 1)
    ensures Identifier(prefix, |m.keys| + 1) !in m.vals
  {
    var id := Identifier(prefix, |m.keys| + 1);
    if id in m.vals {
      var i :| 0 <= i < |m.keys| && m.keys[i] == id;
      IdentifierInjective(prefix, i + 1, |m.keys| + 1);
    }
  }

  lemma CreateInv(s: State, input: CreateInput, now: string)
    requires Inv(s)
    ensures Inv(CreateRequest(s, input, now).0)
    ensures Extends(s, CreateRequest(s, input, now).0)
  {
    FreshIdentifier(s.requests, "ar_");
    var (s', request) := CreateRequest(s, input, now);
    RequestsSet(s.requests, request);
    ProvenanceRequests(s.requests.vals, s'.requests.vals, s.grants.vals);
  }

  lemma RequestsSet(requests: OrderedMap<string, AccessRequest>, request: AccessRequest)
    requires RequestsInv(requests)
    requires request.requestId in requests.vals || request.requestId == Identifier("ar_", |requests.keys| + 1)
    ensures RequestsInv(requests.Set(request.requestId, request))
  {
  }

  lemma ProvenanceRequests(
      requests: map<string, AccessRequest>, requests': map<string, AccessRequest>, grants: map<string, Grant>)
    requires ProvenanceInv(requests, grants)
    requires forall k :: k in requests ==>
               && k in requests'
               && requests'[k].(status := requests[k].status, updatedAt := requests[k].updatedAt) == requests[k]
    ensures ProvenanceInv(requests', grants)
  {
  }

  lemma GrantsSet(grants: OrderedMap<string, Grant>, grant: Grant)
    requires GrantsInv(grants)
    requires grant.grantId in grants.vals || grant.grantId == Identifier("ga_", |grants.keys| + 1)
    ensures GrantsInv(grants.Set(grant.grantId, grant))
  {
  }

  lemma OnRecordExtends(grants: map<string, Grant>, grants': map<string, Grant>,
                        evidence: seq<Evidence>, evidence': seq<Evidence>, r: RevokeResult)
    requires OnRecord(grants, evidence, r) && GrantsExtend(grants, grants') && evidence <= evidence'
    ensures OnRecord(grants', evidence', r)
  {
    var e :| e in evidence && Supports(e, r);
    var i :| 0 <= i < |evidence| && evidence[i] == e;
    assert evidence'[i] == e;
  }

  lemma CacheInvExtends(cache: map<string, CacheEntry>, grants: map<string, Grant>, grants': map<string, Grant>,
                        evidence: seq<Evidence>, evidence': seq<Evidence>)
    requires CacheInv(cache, grants, evidence) && GrantsExtend(grants, grants') && evidence <= evidence'
    ensures CacheInv(cache, grants', evidence')
  {
    forall k | k in cache ensures OnRecord(grants', evidence', cache[k].result) {
      OnRecordExtends(grants, grants', evidence, evidence', cache[k].result);
    }
  }

  lemma DecideInv(s: State, input: DecideInput, decidedAt: string, grantedAt: string)
    requires Inv(s)
    ensures Inv(DecideRequest(s, input, decidedAt, grantedAt).0)
    ensures Extends(s, DecideRequest(s, input, decidedAt, grantedAt).0)
  {
    var (s', r) := DecideRequest(s, input, decidedAt, grantedAt);
    if r.Ok? {
      var request := r.value.request;
      RequestsSet(s.requests, request);
      ProvenanceRequests(s.requests.vals, s'.requests.vals, s.grants.vals);
      if r.value.grant.Some? {
        NewGrantInv(s, s'.requests, r.value.grant.value, request);
      }
    }
  }

  lemma GrantsAdd(requests: map<string, AccessRequest>, grants: map<string, Grant>, g: Grant)
    requires g.grantId !in grants && ProvenanceInv(requests, grants)
    requires g.requestId in requests && StemsFrom(g, requests[g.requestId])
    ensures ProvenanceInv(requests, grants[g.grantId := g]) && GrantsExtend(grants, grants[g.grantId := g])
  {
  }

  lemma EvidenceIgnoresNewGrant(grants: map<string, Grant>, evidence: seq<Evidence>, g: Grant)
    requires g.grantId !in grants && EvidenceInv(evidence, grants) && StatusInv(grants, evidence)
    requires g.status == ActiveGrant && g.revokedAt == None && g.revocationId == None && g.reasonCode == None
    ensures EvidenceInv(evidence, grants[g.grantId := g]) && StatusInv(grants[g.grantId := g], evidence)
  {
  }

  lemma NewGrantInv(s: State, requests: OrderedMap<string, AccessRequest>, grant: Grant, request: AccessRequest)
    requires Inv(s) && ProvenanceInv(requests.vals, s.grants.vals)
    requires request.requestId in requests.vals && requests.vals[request.requestId] == request
    requires StemsFrom(grant, request) && grant.grantId == Identifier("ga_", |s.grants.keys| + 1)
    requires grant.status == ActiveGrant
      && grant.revokedAt == None && grant.revocationId == None && grant.reasonCode == None
    ensures var grants := s.grants.Set(grant.grantId, grant);
            && GrantsInv(grants) && ProvenanceInv(requests.vals, grants.vals)
            && EvidenceInv(s.evidence, grants.vals) && StatusInv(grants.vals, s.evidence)
            && CacheInv(s.idempotency, grants.vals, s.evidence)
            && GrantsExtend(s.grants.vals, grants.vals)
  {
    FreshIdentifier(s.grants, "ga_");
    GrantsSet(s.grants, grant);
    GrantsAdd(requests.vals, s.grants.vals, grant);
    EvidenceIgnoresNewGrant(s.grants.vals, s.evidence, grant);
    CacheInvExtends(s.idempotency, s.grants.vals, s.grants.vals[grant.grantId := grant], s.evidence, s.evidence);
  }

  /** A decision fails, without effect, exactly on an unknown request or a wrong subject. Otherwise it
      settles the request's status and nothing else about it; an approval adds one new active grant on the request's
      terms, also when the request was decided before, and a denial leaves the grants alone. */
  lemma DecisionEffect(s: State, input: DecideInput, decidedAt: string, grantedAt: string)
    requires Inv(s)
    ensures var (s', r) := DecideRequest(s, input, decidedAt, grantedAt);
            && (r == Err(RequestNotFound(input.requestId)) <==> input.requestId !in s.requests.vals)
            && (r == Err(SubjectMismatch(input.requestId)) <==>
                  && input.requestId in s.requests.vals
                  && input.subjectId.Some? && input.subjectId.value != s.requests.vals[input.requestId].subjectId)
            && (r.Ok? <==> && input.requestId in s.requests.vals
                           && (input.subjectId.None? || input.subjectId.value
                               == s.requests.vals[input.requestId].subjectId))
            && (r.Err? ==> s' == s)
            && (r.Ok? ==> Decided(s, s', input, r.value, decidedAt, grantedAt))
  {
    FreshIdentifier(s.grants, "ga_");
  }

  ghost predicate Decided(
      s: State, s': State, input: DecideInput, d: Decision, decidedAt: string, grantedAt: string)
    requires input.requestId in s.requests.vals
  {
    var request := s.requests.vals[input.requestId];
    && d.approved == input.approve
    && d.request == request.(status := if input.approve then Approved else Denied, updatedAt := decidedAt)
    && d.reasonCode == (if input.reason.Some? then input.reason.value
                        else if input.approve then "APPROVED" else "DENIED")
    && s'.requests.keys == s.requests.keys && s'.requests.vals == s.requests.vals[input.requestId := d.request]
    && s'.evidence == s.evidence && s'.idempotency == s.idempotency && s'.revocationSequence == s.revocationSequence
    && (!input.approve ==> d.grant.None? && s'.grants == s.grants)
    && (input.approve ==> d.grant.Some? && Granted(s, s', d.grant.value, request, grantedAt))
  }

  ghost predicate Granted(s: State, s': State, g: Grant, request: AccessRequest, grantedAt: string) {
    && g.grantId !in s.grants.vals
    && s'.grants.vals == s.grants.vals[g.grantId := g] && s'.grants.keys == s.grants.keys + [g.grantId]
    && StemsFrom(g, request) && g.grantedAt == grantedAt
    && g.status == ActiveGrant && g.revokedAt.None? && g.revocationId.None? && g.reasonCode.None?
  }

  /** A new request is pending and says what was asked for, under an id no request had. */
  lemma CreationEffect(s: State, input: CreateInput, now: string)
    requires Inv(s)
    ensures var (s', request) := CreateRequest(s, input, now);
            && request.requestId !in s.requests.vals
            && s'.requests.keys == s.requests.keys + [request.requestId]
            && s'.requests.vals == s.requests.vals[request.requestId := request]
            && s'.(requests := s.requests) == s
            && request.subjectId == input.subjectId && request.requesterId == input.requesterId
            && request.datasetId == input.datasetId && request.purpose == input.purpose
            && request.requestedScope == input.requestedScope
            && request.status == Pending && request.createdAt == now == request.updatedAt
  {
    FreshIdentifier(s.requests, "ar_");
  }

  lemma {:induction false} FindEvidenceFinds(evidence: seq<Evidence>, i: nat)
    requires i < |evidence|
    requires forall j :: 0 <= j < i ==> evidence[j].grantId != evidence[i].grantId
    ensures FindEvidence(evidence, evidence[i].grantId) == Some(evidence[i])
  {
    if i > 0 {
      assert evidence[0].grantId != evidence[i].grantId;
      FindEvidenceFinds(evidence[1..], i - 1);
    }
  }

  /** None of the three fallbacks of the stable answer is ever taken. */
  lemma FallbacksUnreachable(s: State, grantId: string, requestedAt: string)
    requires Inv(s)
    requires grantId in s.grants.vals && s.grants.vals[grantId].status == RevokedGrant
    ensures s.grants.vals[grantId].revocationId.Some? && s.grants.vals[grantId].revokedAt.Some?
    ensures FindEvidence(s.evidence, grantId).Some?
    ensures OnRecord(s.grants.vals, s.evidence, StableResult(s, s.grants.vals[grantId], requestedAt))
  {
    assert HasEvidence(s.evidence, grantId);
    var i :| 0 <= i < |s.evidence| && s.evidence[i].grantId == grantId;
    FindEvidenceFinds(s.evidence, i);
    assert Supports(s.evidence[i], StableResult(s, s.grants.vals[grantId], requestedAt));
  }

  lemma EvidenceAppend(evidence: seq<Evidence>, grants: map<string, Grant>, record: Evidence, revoked: Grant)
    requires EvidenceInv(evidence, grants) && revoked.grantId in grants && grants[revoked.grantId].status == ActiveGrant
    requires record.grantId == revoked.grantId && Agrees(record, revoked)
    requires record.evidenceRecordId == Identifier("evd_", |evidence| + 1)
    requires record.revocationId == Identifier("rev_", |evidence| + 1)
    ensures EvidenceInv(evidence + [record], grants[revoked.grantId := revoked])
  {
    var evidence' := evidence + [record];
    assert evidence'[|evidence|] == record;
    assert forall i :: 0 <= i < |evidence| ==> evidence'[i] == evidence[i];
    assert forall i :: 0 <= i < |evidence| ==> evidence[i].grantId != record.grantId;
  }

  lemma StatusAppend(evidence: seq<Evidence>, grants: map<string, Grant>, record: Evidence, revoked: Grant)
    requires StatusInv(grants, evidence)
    requires record.grantId == revoked.grantId && revoked.status == RevokedGrant
    ensures StatusInv(grants[revoked.grantId := revoked], evidence + [record])
  {
    var evidence' := evidence + [record];
    forall k | HasEvidence(evidence, k) ensures HasEvidence(evidence', k) {
      var i :| 0 <= i < |evidence| && evidence[i].grantId == k;
      assert evidence'[i].grantId == k;
    }
    assert evidence'[|evidence|] == record;
    assert HasEvidence(evidence', record.grantId);
  }

  lemma ProvenanceSet(requests: map<string, AccessRequest>, grants: map<string, Grant>, g: Grant)
    requires ProvenanceInv(requests, grants) && g.grantId in grants && SameTerms(grants[g.grantId], g)
    requires grants[g.grantId].status == ActiveGrant
    ensures ProvenanceInv(requests, grants[g.grantId := g]) && GrantsExtend(grants, grants[g.grantId := g])
  {
  }

  lemma RevokeActiveInv(s: State, input: RevokeInput, requestedAt: string, completedAt: string)
    requires Inv(s)
    requires input.grantId in s.grants.vals && s.grants.vals[input.grantId].status == ActiveGrant
    ensures var (s', r) := RevokeActive(s, input, s.grants.vals[input.grantId], requestedAt, completedAt);
            Inv(s') && Extends(s, s')
            && OnRecord(s'.grants.vals, s'.evidence, r) && r.grant.grantId == input.grantId
  {
    var (s', r) := RevokeActive(s, input, s.grants.vals[input.grantId], requestedAt, completedAt);
    var record := s'.evidence[|s.evidence|];
    EvidenceAppend(s.evidence, s.grants.vals, record, r.grant);
    StatusAppend(s.evidence, s.grants.vals, record, r.grant);
    GrantsSet(s.grants, r.grant);
    ProvenanceSet(s.requests.vals, s.grants.vals, r.grant);
    CacheInvExtends(s.idempotency, s.grants.vals, s'.grants.vals, s.evidence, s'.evidence);
    assert record in s'.evidence && Supports(record, r);
  }

  lemma CacheAdd(
      cache: map<string, CacheEntry>, key: string, entry: CacheEntry, grants: map<string, Grant>,
      evidence: seq<Evidence>)
    requires CacheInv(cache, grants, evidence) && key !in cache
    requires OnRecord(grants, evidence, entry.result) && entry.fingerprint.grantId == entry.result.grant.grantId
    ensures CacheInv(cache[key := entry], grants, evidence) && CacheExtends(cache, cache[key := entry])
  {
  }

  lemma RememberInv(s: State, input: RevokeInput, r: RevokeResult)
    requires Inv(s) && OnRecord(s.grants.vals, s.evidence, r) && r.grant.grantId == input.grantId
    requires input.idempotencyKey.Some? ==> input.idempotencyKey.value !in s.idempotency
    ensures Inv(Remember(s, input, r))
    ensures Extends(s, Remember(s, input, r))
  {
    if input.idempotencyKey.Some? {
      CacheAdd(s.idempotency, input.idempotencyKey.value, CacheEntry(FingerprintOf(input), r), s.grants.vals,
               s.evidence);
    }
  }

  lemma ExtendsTransitive(a: State, b: State, c: State)
    requires Extends(a, b) && Extends(b, c)
    ensures Extends(a, c)
  {
  }

  /** A revocation's effect is sound: the invariant holds, a failure changes nothing, an answer is on record. */
  ghost predicate SoundOutcome(s: State, s': State, r: Result<RevokeResult, Failure>, grantId: string) {
    && Inv(s') && Extends(s, s')
    && (r.Err? ==> s' == s)
    && (r.Ok? ==> OnRecord(s'.grants.vals, s'.evidence, r.value) && r.value.grant.grantId == grantId)
  }

  lemma FailureIsSound(s: State, error: Failure, grantId: string)
    requires Inv(s)
    ensures SoundOutcome(s, s, Err(error), grantId)
  {
  }

  lemma CachedIsSound(s: State, key: string, grantId: string)
    requires Inv(s) && key in s.idempotency && s.idempotency[key].fingerprint.grantId == grantId
    ensures SoundOutcome(s, s, Ok(s.idempotency[key].result.(idempotentReplay := true)), grantId)
  {
    OnRecordReplays(s.grants.vals, s.evidence, s.idempotency[key].result);
    FailureIsSound(s, GrantNotFound(grantId), grantId);
  }

  lemma OnRecordReplays(grants: map<string, Grant>, evidence: seq<Evidence>, r: RevokeResult)
    requires OnRecord(grants, evidence, r)
    ensures OnRecord(grants, evidence, r.(idempotentReplay := true))
  {
    var e :| e in evidence && Supports(e, r);
    assert Supports(e, r.(idempotentReplay := true));
  }

  predicate KeyUnused(s: State, input: RevokeInput) {
    input.idempotencyKey.Some? ==> input.idempotencyKey.value !in s.idempotency
  }

  lemma StableAnswerInv(s: State, input: RevokeInput, requestedAt: string)
    requires Inv(s) && KeyUnused(s, input)
    requires input.grantId in s.grants.vals && s.grants.vals[input.grantId].status == RevokedGrant
    ensures var r := StableResult(s, s.grants.vals[input.grantId], requestedAt);
            SoundOutcome(s, Remember(s, input, r), Ok(r), input.grantId)
  {
    FallbacksUnreachable(s, input.grantId, requestedAt);
    RememberInv(s, input, StableResult(s, s.grants.vals[input.grantId], requestedAt));
  }

  lemma FreshRevocationInv(s: State, input: RevokeInput, requestedAt: string, completedAt: string)
    requires Inv(s) && KeyUnused(s, input)
    requires input.grantId in s.grants.vals && s.grants.vals[input.grantId].status == ActiveGrant
    ensures var (next, r) := RevokeActive(s, input, s.grants.vals[input.grantId], requestedAt, completedAt);
            SoundOutcome(s, Remember(next, input, r), Ok(r), input.grantId)
  {
    RevokeActiveInv(s, input, requestedAt, completedAt);
    var (next, r) := RevokeActive(s, input, s.grants.vals[input.grantId], requestedAt, completedAt);
    RememberInv(next, input, r);
    ExtendsTransitive(s, next, Remember(next, input, r));
  }

  predicate SubjectMatches(input: RevokeInput, grant: Grant) {
    input.subjectId.None? || input.subjectId.value == grant.subjectId
  }

  lemma RevokeStableInv(s: State, input: RevokeInput, requestedAt: string, completedAt: string)
    requires Inv(s) && KeyUnused(s, input) && input.grantId in s.grants.vals
    requires SubjectMatches(input, s.grants.vals[input.grantId]) && s.grants.vals[input.grantId].status == RevokedGrant
    ensures var (s', r) := Revoke(s, input, requestedAt, completedAt);
            SoundOutcome(s, s', r, input.grantId)
  {
    StableAnswerInv(s, input, requestedAt);
  }

  lemma RevokeFreshInv(s: State, input: RevokeInput, requestedAt: string, completedAt: string)
    requires Inv(s) && KeyUnused(s, input) && input.grantId in s.grants.vals
    requires SubjectMatches(input, s.grants.vals[input.grantId]) && s.grants.vals[input.grantId].status == ActiveGrant
    ensures var (s', r) := Revoke(s, input, requestedAt, completedAt);
            SoundOutcome(s, s', r, input.grantId)
  {
    FreshRevocationInv(s, input, requestedAt, completedAt);
  }

  lemma RevokeCachedInv(s: State, input: RevokeInput, requestedAt: string, completedAt: string)
    requires Inv(s) && !KeyUnused(s, input)
    ensures var (s', r) := Revoke(s, input, requestedAt, completedAt);
            SoundOutcome(s, s', r, input.grantId)
  {
    var key := input.idempotencyKey.value;
    FailureIsSound(s, IdempotencyConflict(key), input.grantId);
    if s.idempotency[key].fingerprint == FingerprintOf(input) {
      CachedIsSound(s, key, input.grantId);
    }
  }

  /** A revocation keeps the invariant; what it answers is on record; what it fails on it leaves alone. */
  lemma RevokeInv(s: State, input: RevokeInput, requestedAt: string, completedAt: string)
    requires Inv(s)
    ensures var (s', r) := Revoke(s, input, requestedAt, completedAt);
            SoundOutcome(s, s', r, input.grantId)
  {
    if !KeyUnused(s, input) {
      RevokeCachedInv(s, input, requestedAt, completedAt);
    } else if input.grantId !in s.grants.vals {
      FailureIsSound(s, GrantNotFound(input.grantId), input.grantId);
    } else if !SubjectMatches(input, s.grants.vals[input.grantId]) {
      FailureIsSound(s, SubjectMismatch(input.grantId), input.grantId);
    } else if s.grants.vals[input.grantId].status == RevokedGrant {
      RevokeStableInv(s, input, requestedAt, completedAt);
    } else {
      RevokeFreshInv(s, input, requestedAt, completedAt);
    }
  }

  lemma RevokedIffEvidence(evidence: seq<Evidence>, grants: map<string, Grant>, grantId: string)
    requires EvidenceInv(evidence, grants) && StatusInv(grants, evidence)
    ensures grantId in grants && grants[grantId].status == RevokedGrant <==>
            exists e :: e in evidence && e.grantId == grantId
  {
    if grantId in grants && grants[grantId].status == RevokedGrant {
      assert HasEvidence(evidence, grantId);
      var i :| 0 <= i < |evidence| && evidence[i].grantId == grantId;
      assert evidence[i] in evidence;
    }
    if e :| e in evidence && e.grantId == grantId {
      var i :| 0 <= i < |evidence| && evidence[i] == e;
      assert Agrees(evidence[i], grants[grantId]);
    }
  }

  lemma ActiveIffNoEvidence(s: State, grantId: string)
    requires Inv(s) && grantId in s.grants.vals
    ensures s.grants.vals[grantId].status == ActiveGrant <==> forall e :: e in s.evidence ==> e.grantId != grantId
  {
    RevokedIffEvidence(s.evidence, s.grants.vals, grantId);
  }

  lemma {:induction false} SingleMatch(evidence: seq<Evidence>, i: nat)
    requires i < |evidence|
    requires forall j :: 0 <= j < |evidence| && j != i ==> evidence[j].grantId != evidence[i].grantId
    ensures Filter(evidence, (e: Evidence) => e.grantId == evidence[i].grantId) == [evidence[i]]
  {
    var id := evidence[i].grantId;
    if i == |evidence| - 1 {
      forall e | e in DropLast(evidence) ensures e.grantId != id {
        var j :| 0 <= j < |evidence| - 1 && evidence[j] == e;
      }
      FilterNone(DropLast(evidence), (e: Evidence) => e.grantId == id);
    } else {
      SingleMatch(DropLast(evidence), i);
    }
  }

  /** The log holds exactly one record of every revoked grant and none of any other. */
  lemma EvidenceOfGrant(s: State, grantId: string)
    requires Inv(s)
    ensures var records := Filter(s.evidence, (e: Evidence) => e.grantId == grantId);
            if grantId in s.grants.vals && s.grants.vals[grantId].status == RevokedGrant
            then |records| == 1 && records[0] in s.evidence && records[0].grantId == grantId
                 && Agrees(records[0], s.grants.vals[grantId])
            else records == []
  {
    RevokedIffEvidence(s.evidence, s.grants.vals, grantId);
    if grantId in s.grants.vals && s.grants.vals[grantId].status == RevokedGrant {
      OneRecord(s.evidence, s.grants.vals, grantId);
    } else {
      FilterNone(s.evidence, (e: Evidence) => e.grantId == grantId);
    }
  }

  lemma OneRecord(evidence: seq<Evidence>, grants: map<string, Grant>, grantId: string)
    requires EvidenceInv(evidence, grants) && grantId in grants && HasEvidence(evidence, grantId)
    ensures var records := Filter(evidence, (e: Evidence) => e.grantId == grantId);
            |records| == 1 && records[0] in evidence && records[0].grantId == grantId
              && Agrees(records[0], grants[grantId])
  {
    var i :| 0 <= i < |evidence| && evidence[i].grantId == grantId;
    SingleMatch(evidence, i);
  }

  ghost function RevokedIds(s: State): set<string> {
    set k | k in s.grants.vals && s.grants.vals[k].status == RevokedGrant
  }

  /** The revocation counter counts the log, and the log counts the revoked grants. */
  lemma CounterCountsRevokedGrants(s: State)
    requires Inv(s)
    ensures s.revocationSequence == |s.evidence| == |RevokedIds(s)|
  {
    var ids := seq(|s.evidence|, i requires 0 <= i < |s.evidence| => s.evidence[i].grantId);
    assert Distinct(ids);
    DistinctCardinality(ids);
    assert (set k | k in ids) == RevokedIds(s) by {
      forall k ensures k in ids <==> k in RevokedIds(s) {
        if k in RevokedIds(s) {
          assert HasEvidence(s.evidence, k);
          var i :| 0 <= i < |s.evidence| && s.evidence[i].grantId == k;
          assert ids[i] == k;
        }
      }
    }
  }

  lemma EvidenceIdsDistinct(evidence: seq<Evidence>, grants: map<string, Grant>)
    requires EvidenceInv(evidence, grants)
    ensures forall i, j :: 0 <= i < j < |evidence| ==>
              evidence[i].evidenceRecordId != evidence[j].evidenceRecordId
                && evidence[i].revocationId != evidence[j].revocationId
  {
    forall i, j | 0 <= i < j < |evidence|
      ensures evidence[i].evidenceRecordId != evidence[j].evidenceRecordId
      ensures evidence[i].revocationId != evidence[j].revocationId
    {
      if Identifier("evd_", i + 1) == Identifier("evd_", j + 1) { IdentifierInjective("evd_", i + 1, j + 1); }
      if Identifier("rev_", i + 1) == Identifier("rev_", j + 1) { IdentifierInjective("rev_", i + 1, j + 1); }
    }
  }

  lemma RequestIdsDistinct(requests: OrderedMap<string, AccessRequest>)
    requires RequestsInv(requests)
    ensures forall i, j :: 0 <= i < j < |requests.keys| ==>
            requests.Values()[i].requestId != requests.Values()[j].requestId
  {
  }

  lemma GrantIdsDistinct(grants: OrderedMap<string, Grant>)
    requires GrantsInv(grants)
    ensures forall i, j :: 0 <= i < j < |grants.keys| ==> grants.Values()[i].grantId != grants.Values()[j].grantId
  {
  }

  /** Every identifier the service has handed out is different from the others of its kind. */
  lemma IdentifiersDistinct(s: State)
    requires Inv(s)
    ensures forall i, j :: 0 <= i < j < |s.requests.keys| ==>
              s.requests.Values()[i].requestId != s.requests.Values()[j].requestId
    ensures forall i, j :: 0 <= i < j < |s.grants.keys| ==>
              s.grants.Values()[i].grantId != s.grants.Values()[j].grantId
    ensures forall i, j :: 0 <= i < j < |s.evidence| ==>
              s.evidence[i].evidenceRecordId != s.evidence[j].evidenceRecordId
              && s.evidence[i].revocationId != s.evidence[j].revocationId
  {
    RequestIdsDistinct(s.requests);
    GrantIdsDistinct(s.grants);
    EvidenceIdsDistinct(s.evidence, s.grants.vals);
  }

  // ---------------------------------------------------------------- runs

  datatype Command =
    | CreateCommand(create: CreateInput, now: string)
    | DecideCommand(decide: DecideInput, decidedAt: string, grantedAt: string)
    | RevokeCommand(revoke: RevokeInput, requestedAt: string, completedAt: string)

  function Step(s: State, c: Command): State {
    match c
    case CreateCommand(input, now) => CreateRequest(s, input, now).0
    case DecideCommand(input, decidedAt, grantedAt) => DecideRequest(s, input, decidedAt, grantedAt).0
    case RevokeCommand(input, requestedAt, completedAt) => Revoke(s, input, requestedAt, completedAt).0
  }

  function Run(s: State, commands: seq<Command>): State {
    if commands == [] then s else Step(Run(s, DropLast(commands)), Last(commands))
  }

  lemma StepKeepsInv(s: State, c: Command)
    requires Inv(s)
    ensures Inv(Step(s, c)) && Extends(s, Step(s, c))
  {
    match c
    case CreateCommand(input, now) => CreateInv(s, input, now);
    case DecideCommand(input, decidedAt, grantedAt) => DecideInv(s, input, decidedAt, grantedAt);
    case RevokeCommand(input, requestedAt, completedAt) => RevokeInv(s, input, requestedAt, completedAt);
  }

  /** Over every run from a good state the invariant holds and nothing recorded is lost: in particular no
      revoked grant ever becomes active again. */
  lemma {:induction false} RunKeepsInv(s: State, commands: seq<Command>)
    requires Inv(s)
    ensures Inv(Run(s, commands))
    ensures Extends(s, Run(s, commands))
  {
    if commands != [] {
      var before := Run(s, DropLast(commands));
      RunKeepsInv(s, DropLast(commands));
      StepKeepsInv(before, Last(commands));
      ExtendsTransitive(s, before, Step(before, Last(commands)));
    }
  }

  lemma ReachableInv(commands: seq<Command>)
    ensures Inv(Run(INITIAL, commands))
  {
    InitialInv();
    RunKeepsInv(INITIAL, commands);
  }

  // ---------------------------------------------------------------- when a revocation succeeds

  /** The inputs the cache takes for one another: everything that decides or is written, apart from the key. */
  predicate SameInput(a: RevokeInput, b: RevokeInput) {
    a.grantId == b.grantId && a.subjectId == b.subjectId && a.requesterId == b.requesterId && a.reason == b.reason
  }

  predicate Fingerprints(f: Fingerprint, input: RevokeInput) {
    && f.grantId == input.grantId && f.subjectId == input.subjectId
    && f.requesterId == input.requesterId && f.reason == input.reason
  }

  lemma FingerprintTellsInput(a: RevokeInput, b: RevokeInput)
    ensures FingerprintOf(a) == FingerprintOf(b) <==> SameInput(a, b)
    ensures forall f :: f == FingerprintOf(a) <==> Fingerprints(f, a)
  {
  }

  /** With an unused key a revocation succeeds exactly when the grant is known and the subject is absent or the
      grant's; it fails with `GrantNotFound` exactly for an unknown grant, and with `SubjectMismatch` exactly for a
      known grant of another subject, revoked or not. */
  lemma RevocationVerdict(s: State, input: RevokeInput, requestedAt: string, completedAt: string)
    requires Inv(s) && KeyUnused(s, input)
    ensures var r := Revoke(s, input, requestedAt, completedAt).1;
            var known := input.grantId in s.grants.vals;
            var foreign := known && input.subjectId.Some?
              && input.subjectId.value != s.grants.vals[input.grantId].subjectId;
            && (r.Ok? <==> known && !foreign)
            && (r == Err(GrantNotFound(input.grantId)) <==> !known)
            && (r == Err(SubjectMismatch(input.grantId)) <==> foreign)
  {
  }

  /** With a known key it succeeds exactly for the input the key was used with, and fails with a conflict otherwise. */
  lemma KeyedVerdict(s: State, input: RevokeInput, requestedAt: string, completedAt: string)
    requires Inv(s) && !KeyUnused(s, input)
    ensures var r := Revoke(s, input, requestedAt, completedAt).1;
            && (r.Ok? <==> Fingerprints(s.idempotency[input.idempotencyKey.value].fingerprint, input))
            && (r.Err? ==> r.error == IdempotencyConflict(input.idempotencyKey.value))
  {
    FingerprintTellsInput(input, input);
  }

  /** A successful answer to a keyed request is in the cache afterwards, with the input it was given for; nothing else
      enters the cache. */
  lemma AnswerIsCached(s: State, input: RevokeInput, t0: string, t1: string)
    requires Revoke(s, input, t0, t1).1.Ok?
    ensures var (s', r) := Revoke(s, input, t0, t1);
            && (input.idempotencyKey.None? ==> s'.idempotency == s.idempotency)
            && (input.idempotencyKey.Some? ==>
                  var key := input.idempotencyKey.value;
                  && key in s'.idempotency
                  && s'.idempotency == s.idempotency[key := s'.idempotency[key]]
                  && Fingerprints(s'.idempotency[key].fingerprint, input)
                  && s'.idempotency[key].result.(idempotentReplay := true) == r.value.(idempotentReplay := true))
  {
  }

  /** A key that has answered once replays that answer for the same input and refuses any other, after
      any number of further commands, and either way without touching the state. */
  lemma KnownKeyReplays(before: seq<Command>, input: RevokeInput, t0: string, t1: string,
                        after: seq<Command>, again: RevokeInput, t2: string, t3: string)
    requires input.idempotencyKey.Some? && again.idempotencyKey == input.idempotencyKey
    requires Revoke(Run(INITIAL, before), input, t0, t1).1.Ok?
    ensures var (s1, r) := Revoke(Run(INITIAL, before), input, t0, t1);
            var s2 := Run(s1, after);
            Revoke(s2, again, t2, t3) ==
              if SameInput(again, input)
              then (s2, Ok(r.value.(idempotentReplay := true)))
              else (s2, Err(IdempotencyConflict(input.idempotencyKey.value)))
  {
    var s := Run(INITIAL, before);
    ReachableInv(before);
    RevokeInv(s, input, t0, t1);
    AnswerIsCached(s, input, t0, t1);
    RunKeepsInv(Revoke(s, input, t0, t1).0, after);
    FingerprintTellsInput(again, again);
  }

  lemma OnRecordUnique(s: State, a: RevokeResult, b: RevokeResult)
    requires EvidenceInv(s.evidence, s.grants.vals)
    requires OnRecord(s.grants.vals, s.evidence, a) && OnRecord(s.grants.vals, s.evidence, b)
    requires a.grant.grantId == b.grant.grantId
    ensures a.(idempotentReplay := true) == b.(idempotentReplay := true)
  {
    var e :| e in s.evidence && Supports(e, a);
    var f :| f in s.evidence && Supports(f, b);
    var i :| 0 <= i < |s.evidence| && s.evidence[i] == e;
    var j :| 0 <= j < |s.evidence| && s.evidence[j] == f;
    assert i == j;
  }

  ghost predicate MayAnswer(s: State, again: RevokeInput, subjectId: string) {
    if again.idempotencyKey.Some? && again.idempotencyKey.value in s.idempotency
    then Fingerprints(s.idempotency[again.idempotencyKey.value].fingerprint, again)
    else again.subjectId.None? || again.subjectId.value == subjectId
  }

  /** Revoking a revoked grant touches the cache at most. */
  lemma RevokeRevokedShape(s: State, again: RevokeInput, t2: string, t3: string)
    requires again.grantId in s.grants.vals && s.grants.vals[again.grantId].status == RevokedGrant
    ensures var (s', later) := Revoke(s, again, t2, t3);
            && s'.(idempotency := s.idempotency) == s
            && (later.Ok? <==> MayAnswer(s, again, s.grants.vals[again.grantId].subjectId))
  {
  }

  /** What a revocation of an already revoked grant does. */
  lemma RevokeRevoked(s: State, first: RevokeResult, again: RevokeInput, t2: string, t3: string)
    requires Inv(s) && OnRecord(s.grants.vals, s.evidence, first)
    requires again.grantId == first.grant.grantId
    ensures var (s', later) := Revoke(s, again, t2, t3);
            && (later.Ok? ==> later.value == first.(idempotentReplay := true))
            && s'.(idempotency := s.idempotency) == s
            && (later.Ok? <==> MayAnswer(s, again, first.grant.subjectId))
  {
    RevokeInv(s, again, t2, t3);
    RevokeRevokedShape(s, again, t2, t3);
    var (s', later) := Revoke(s, again, t2, t3);
    if later.Ok? {
      OnRecordUnique(s, first, later.value);
      AnswersReplay(s, again, t2, t3);
    }
  }

  lemma AnswersReplay(s: State, again: RevokeInput, t2: string, t3: string)
    requires again.grantId in s.grants.vals && s.grants.vals[again.grantId].status == RevokedGrant
    ensures var later := Revoke(s, again, t2, t3).1;
            later.Ok? ==> later.value.idempotentReplay
  {
  }

  /** Once a grant is revoked, every later successful revocation of it gives the first revocation's id,
      evidence and completion time, and adds no evidence. It succeeds unless its key is taken by another
      input or its subject is wrong. */
  lemma RepeatedRevocationIsStable(before: seq<Command>, input: RevokeInput, t0: string, t1: string,
                                   after: seq<Command>, again: RevokeInput, t2: string, t3: string)
    requires Revoke(Run(INITIAL, before), input, t0, t1).1.Ok?
    requires again.grantId == input.grantId
    ensures var (s1, first) := Revoke(Run(INITIAL, before), input, t0, t1);
            var s2 := Run(s1, after);
            var (s3, later) := Revoke(s2, again, t2, t3);
            && (later.Ok? ==> later.value == first.value.(idempotentReplay := true))
            && s3.(idempotency := s2.idempotency) == s2
            && (later.Ok? <==> MayAnswer(s2, again, first.value.grant.subjectId))
  {
    var s := Run(INITIAL, before);
    ReachableInv(before);
    RevokeInv(s, input, t0, t1);
    var (s1, first) := Revoke(s, input, t0, t1);
    RunKeepsInv(s1, after);
    var s2 := Run(s1, after);
    OnRecordExtends(s1.grants.vals, s2.grants.vals, s1.evidence, s2.evidence, first.value);
    RevokeRevoked(s2, first.value, again, t2, t3);
  }

  lemma ActiveGrantsAreNotCached(s: State, input: RevokeInput, t0: string, t1: string)
    requires CacheInv(s.idempotency, s.grants.vals, s.evidence)
    requires input.grantId in s.grants.vals && s.grants.vals[input.grantId].status == ActiveGrant
    requires Revoke(s, input, t0, t1).1.Ok?
    ensures KeyUnused(s, input)
  {
  }

  /** The state after the first revocation of a grant, and the answer to it. */
  ghost predicate RevokesGrant(
      s: State, s': State, input: RevokeInput, r: RevokeResult, requestedAt: string, completedAt: string)
    requires input.grantId in s.grants.vals
  {
    var grant := s.grants.vals[input.grantId];
    var reasonCode := if input.reason.Some? then input.reason.value else "MANUAL_REVOCATION";
    && s'.requests == s.requests && s'.revocationSequence == s.revocationSequence + 1
    && s'.grants.keys == s.grants.keys && s'.grants.vals == s.grants.vals[input.grantId := r.grant]
    && r.grant == grant.(status := RevokedGrant, revokedAt := Some(completedAt), revocationId := Some(r.revocationId),
                         reasonCode := Some(reasonCode))
    && !r.idempotentReplay && r.completedAt == completedAt
    && |s'.evidence| == |s.evidence| + 1 && s.evidence <= s'.evidence
    && s'.evidence[|s.evidence|] ==
         Evidence(r.evidenceRecordId, r.revocationId, input.grantId, grant.subjectId, grant.requesterId, reasonCode,
                  input.idempotencyKey, requestedAt, completedAt)
  }

  ghost predicate NewRecordIds(s: State, r: RevokeResult) {
    forall e :: e in s.evidence ==> e.evidenceRecordId != r.evidenceRecordId && e.revocationId != r.revocationId
  }

  lemma FreshRevocationEffect(s: State, input: RevokeInput, t0: string, t1: string)
    requires KeyUnused(s, input) && Revoke(s, input, t0, t1).1.Ok?
    requires input.grantId in s.grants.vals && s.grants.vals[input.grantId].status == ActiveGrant
    requires s.grants.Valid() && s.grants.vals[input.grantId].grantId == input.grantId
    ensures RevokesGrant(s, Revoke(s, input, t0, t1).0, input, Revoke(s, input, t0, t1).1.value, t0, t1)
  {
  }

  lemma LastRecordIsNew(evidence: seq<Evidence>, grants: map<string, Grant>, n: nat)
    requires EvidenceInv(evidence, grants) && |evidence| == n + 1
    ensures forall e :: e in evidence[..n] ==>
              e.evidenceRecordId != evidence[n].evidenceRecordId && e.revocationId != evidence[n].revocationId
  {
    EvidenceIdsDistinct(evidence, grants);
    forall e | e in evidence[..n]
      ensures e.evidenceRecordId != evidence[n].evidenceRecordId && e.revocationId != evidence[n].revocationId
    {
      var i :| 0 <= i < n && evidence[..n][i] == e;
      assert evidence[i] == e;
    }
  }

  lemma OneMoreRecord(s: State, s': State, input: RevokeInput, r: RevokeResult, t0: string, t1: string)
    requires input.grantId in s.grants.vals && s.grants.vals[input.grantId].status == ActiveGrant
    requires RevokesGrant(s, s', input, r, t0, t1) && EvidenceInv(s'.evidence, s'.grants.vals)
    ensures NewRecordIds(s, r) && |RevokedIds(s')| == |RevokedIds(s)| + 1
  {
    LastRecordIsNew(s'.evidence, s'.grants.vals, |s.evidence|);
    assert RevokedIds(s') == RevokedIds(s) + {input.grantId};
  }

  /** The first revocation of an active grant: the grant is revoked, one record states it, nothing else moves. It
      happens exactly on the terms of `RevocationVerdict`, since an active grant is in no cached answer. */
  lemma FirstRevocationAddsOneRecord(s: State, input: RevokeInput, t0: string, t1: string)
    requires Inv(s) && input.grantId in s.grants.vals && s.grants.vals[input.grantId].status == ActiveGrant
    ensures var (s', r) := Revoke(s, input, t0, t1);
            && (r.Ok? <==> KeyUnused(s, input)
                           && (input.subjectId.None? || input.subjectId.value
                               == s.grants.vals[input.grantId].subjectId))
            && (r.Ok? ==>
                  && RevokesGrant(s, s', input, r.value, t0, t1) && NewRecordIds(s, r.value)
                  && |RevokedIds(s')| == |RevokedIds(s)| + 1)
  {
    var (s', r) := Revoke(s, input, t0, t1);
    if r.Ok? { ActiveGrantsAreNotCached(s, input, t0, t1); }
    if KeyUnused(s, input) { RevocationVerdict(s, input, t0, t1); }
    if r.Ok? {
      FreshRevocationEffect(s, input, t0, t1);
      RevokeInv(s, input, t0, t1);
      OneMoreRecord(s, s', input, r.value, t0, t1);
    }
  }
}
