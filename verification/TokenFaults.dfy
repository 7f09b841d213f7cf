/** Which error the verification of a capability token reports (capability/capabilityToken.ts): the first fault of the
    token, in a fixed order of checks, told from the token, its consent, the time and the registries alone. */
module TokenFaults {
  import opened Wrappers
  import opened Sequences
  import opened Text
  import opened Scope
  import opened Consents
  import opened CapabilityTokens

  /** What there is to find fault with. */
  datatype Case = Case(crypto: Crypto, token: Token, consent: Consent, now: string, reg: Registries)

  ghost predicate EntryFault(scope: seq<ScopeEntry>, e: TokenError) {
    match e
    case ScopeKindInvalid(i) => i < |scope| && scope[i].kind !in {"field", "content", "pack"}
    case ScopeRefInvalid(i) => i < |scope| && !IsHash64(scope[i].ref)
    case ScopeDuplicate(i) => RepeatsKey(scope, i)
    case _ => false
  }

  ghost predicate ActionFault(actions: seq<string>, e: TokenError) {
    match e
    case PermissionMalformed(i) => i < |actions| && !IsActionName(actions[i])
    case PermissionUnknown(i) => i < |actions| && actions[i] !in {"read", "store", "share", "derive", "aggregate"}
    case PermissionDuplicate(i) => i < |actions| && actions[i] in actions[..i]
    case _ => false
  }

  /** The party, the stamp and the market maker a field stands for. */
  function DidIn(c: Case, field: Field): Option<string> {
    if field == SubjectField then Some(c.token.payload.subject)
    else if field == GranteeField then Some(c.token.payload.grantee)
    else None
  }

  function StampIn(c: Case, field: Field): Option<string> {
    if field == IssuedAtField then Some(c.token.payload.issuedAt)
    else if field == ExpiresAtField then Some(c.token.payload.expiresAt)
    else if field == NotBeforeField then c.token.payload.notBefore
    else None
  }

  function MakerIn(c: Case, field: Field): Option<string> {
    if field == TokenMaker then c.token.payload.marketMakerId
    else if field == ParentMaker then c.consent.marketMakerId
    else None
  }

  /** What is wrong with the case when the error is reported. */
  ghost predicate Fault(c: Case, e: TokenError) {
    var p := c.token.payload;
    match e
    case VersionMalformed => !IsVersion(p.version)
    case DidEmpty(field) => DidIn(c, field).Some? && Trim(DidIn(c, field).value) == ""
    case DidTooShort(field) => DidIn(c, field).Some? && |DidIn(c, field).value| < 8
    case DidTooLong(field) => DidIn(c, field).Some? && |DidIn(c, field).value| > 2048
    case DidMalformed(field) => DidIn(c, field).Some? && !IsDid(DidIn(c, field).value)
    case ConsentRefMalformed => !IsHash64(p.consentRef)
    case ScopeEmpty => p.scope == []
    case ScopeTooLong => |p.scope| > 10000
    case ScopeKindInvalid(_) => EntryFault(p.scope, e)
    case ScopeRefInvalid(_) => EntryFault(p.scope, e)
    case ScopeDuplicate(_) => EntryFault(p.scope, e)
    case PermissionsEmpty => p.permissions == []
    case PermissionsTooLong => |p.permissions| > 100
    case PermissionMalformed(_) => ActionFault(p.permissions, e)
    case PermissionUnknown(_) => ActionFault(p.permissions, e)
    case PermissionDuplicate(_) => ActionFault(p.permissions, e)
    case TimestampMalformed(field) => StampIn(c, field).Some? && !IsIsoSecond(StampIn(c, field).value)
    case TokenIdMalformed => !IsHash64(p.tokenId)
    case MakerBlank(field) => MakerIn(c, field).Some? && Trim(MakerIn(c, field).value) == ""
    case MakerMalformed(field) => MakerIn(c, field).Some? && !IsMarketMakerId(MakerIn(c, field).value)
    case ExpiryNotAfterIssue => StrLe(p.expiresAt, p.issuedAt)
    case StartBeforeIssue => p.notBefore.Some? && StrLt(p.notBefore.value, p.issuedAt)
    case StartNotBeforeExpiry => p.notBefore.Some? && StrLe(p.expiresAt, p.notBefore.value)
    case HashMalformed => !IsHash64(c.token.capabilityHash)
    case HashMismatch => c.token.capabilityHash != TokenHash(c.crypto, p)
    case ConsentRefMismatch => p.consentRef != c.consent.consentHash
    case ParentNotGrant => c.consent.action != "grant"
    case SubjectMismatch => p.subject != c.consent.subject
    case GranteeMismatch => p.grantee != c.consent.grantee
    case MakerMismatch => p.marketMakerId != c.consent.marketMakerId
    case ScopeEscalation(i) => i < |p.scope| && Lacks(c.consent.scope, p.scope[i])
    case PermissionEscalation(i) => i < |p.permissions| && p.permissions[i] !in c.consent.permissions
    case IssuedBeforeConsent => StrLt(p.issuedAt, c.consent.issuedAt)
    case OutlivesConsent => c.consent.expiresAt.Some? && StrLt(c.consent.expiresAt.value, p.expiresAt)
    case StartBeforeConsent => p.notBefore.Some? && StrLt(p.notBefore.value, c.consent.issuedAt)
    case Expired => StrLt(p.expiresAt, c.now)
    case NotYetValid => StrLt(c.now, if p.notBefore.Some? then p.notBefore.value else p.issuedAt)
    case TokenRevoked => c.token.capabilityHash in c.reg.revoked
    case Replayed => p.tokenId in c.reg.seen
    case MakerIntroduced => false
    case RevocationTargetMalformed => false
  }

  ghost function Faults(c: Case): iset<TokenError> {
    iset e | Fault(c, e)
  }

  ghost predicate Lacks(scope: seq<ScopeEntry>, e: ScopeEntry) {
    forall c :: c in scope ==> ScopeKey(c) != ScopeKey(e)
  }

  // ---------------------------------------------------------------- the order of the checks

  /** The check that finds a fault: structure, hash, derivation, window, registries. */
  function Stage(e: TokenError): nat {
    match e
    case VersionMalformed => 0
    case DidEmpty(field) => DidStage(field)
    case DidTooShort(field) => DidStage(field) + 1
    case DidTooLong(field) => DidStage(field) + 2
    case DidMalformed(field) => DidStage(field) + 3
    case ConsentRefMalformed => 9
    case ScopeEmpty => 10
    case ScopeTooLong => 11
    case ScopeKindInvalid(_) => 12
    case ScopeRefInvalid(_) => 12
    case ScopeDuplicate(_) => 12
    case PermissionsEmpty => 13
    case PermissionsTooLong => 14
    case PermissionMalformed(_) => 15
    case PermissionUnknown(_) => 15
    case PermissionDuplicate(_) => 15
    case TimestampMalformed(field) => StampStage(field)
    case TokenIdMalformed => 18
    case MakerBlank(field) => MakerStage(field)
    case MakerMalformed(field) => MakerStage(field) + 1
    case ExpiryNotAfterIssue => 22
    case StartBeforeIssue => 23
    case StartNotBeforeExpiry => 24
    case HashMalformed => 25
    case HashMismatch => 26
    case ConsentRefMismatch => 27
    case ParentNotGrant => 28
    case SubjectMismatch => 29
    case GranteeMismatch => 30
    case MakerMismatch => 33
    case ScopeEscalation(_) => 34
    case PermissionEscalation(_) => 35
    case IssuedBeforeConsent => 36
    case OutlivesConsent => 37
    case StartBeforeConsent => 38
    case Expired => 39
    case NotYetValid => 40
    case TokenRevoked => 41
    case Replayed => 42
    case MakerIntroduced => 43
    case RevocationTargetMalformed => 43
  }

  function DidStage(field: Field): nat {
    if field == SubjectField then 1 else if field == GranteeField then 5 else 43
  }

  function StampStage(field: Field): nat {
    if field == IssuedAtField then 16
    else if field == ExpiresAtField then 17
    else if field == NotBeforeField then 21
    else 43
  }

  function MakerStage(field: Field): nat {
    if field == TokenMaker then 19 else if field == ParentMaker then 31 else 43
  }

  /** Within a check over a list, the position, and what is looked at first there. */
  function Place(e: TokenError): nat {
    match e
    case ScopeKindInvalid(i) => 3 * i
    case ScopeRefInvalid(i) => 3 * i + 1
    case ScopeDuplicate(i) => 3 * i + 2
    case PermissionMalformed(i) => 3 * i
    case PermissionUnknown(i) => 3 * i + 1
    case PermissionDuplicate(i) => 3 * i + 2
    case ScopeEscalation(i) => i
    case PermissionEscalation(i) => i
    case _ => 0
  }

  predicate NotAfter(e: TokenError, f: TokenError) {
    Stage(e) < Stage(f) || (Stage(e) == Stage(f) && Place(e) <= Place(f))
  }

  /** What the check reports is a fault of these stages. */
  ghost predicate Truthful(c: Case, check: Check, lo: nat, hi: nat) {
    check.Some? ==> lo <= Stage(check.value) < hi && check.value in Faults(c)
  }

  /** If f is a fault of these stages, the check reports it or an earlier one. */
  ghost predicate Finds(c: Case, check: Check, lo: nat, hi: nat, f: TokenError) {
    lo <= Stage(f) < hi && f in Faults(c) ==> check.Some? && NotAfter(check.value, f)
  }

  lemma ThenTruthful(c: Case, a: Check, b: Check, lo: nat, mid: nat, hi: nat)
    requires lo <= mid <= hi && Truthful(c, a, lo, mid) && Truthful(c, b, mid, hi)
    ensures Truthful(c, Then(a, b), lo, hi)
  {
  }

  lemma ThenFinds(c: Case, a: Check, b: Check, lo: nat, mid: nat, hi: nat, f: TokenError)
    requires lo <= mid <= hi && Truthful(c, a, lo, mid) && Finds(c, a, lo, mid, f) && Finds(c, b, mid, hi, f)
    ensures Finds(c, Then(a, b), lo, hi, f)
  {
  }

  // ---------------------------------------------------------------- the checks over lists

  ghost predicate FirstEntryFault(check: Check, scope: seq<ScopeEntry>, f: TokenError) {
    && (check.Some? ==> EntryFault(scope, check.value))
    && (EntryFault(scope, f) ==> check.Some? && Place(check.value) <= Place(f))
  }

  lemma LastEntryFault(front: seq<ScopeEntry>, last: ScopeEntry, e: TokenError)
    ensures EntryFault(front + [last], e) <==>
            || EntryFault(front, e)
            || (e == ScopeKindInvalid(|front|) && last.kind !in VALID_KINDS)
            || (e == ScopeRefInvalid(|front|) && !IsHash64(last.ref))
            || (e == ScopeDuplicate(|front|) && ScopeKey(last) in Map(front, ScopeKey))
    ensures EntryFault(front, e) ==> Place(e) < 3 * |front|
  {
    var scope := front + [last];
    KeyBefore(front, last);
    assert forall k :: 0 <= k < |front| ==> scope[k] == front[k];
  }

  lemma {:induction false} EntriesFindFirst(scope: seq<ScopeEntry>, f: TokenError)
    ensures FirstEntryFault(EntriesCheck(scope), scope, f)
  {
    if scope != [] {
      var front, last, check := DropLast(scope), Last(scope), EntriesCheck(scope);
      EntriesFindFirst(front, f);
      assert scope == front + [last];
      LastEntryFault(front, last, f);
      if check.Some? { LastEntryFault(front, last, check.value); }
      if EntriesCheck(front).Some? { LastEntryFault(front, last, EntriesCheck(front).value); }
    }
  }

  ghost predicate FirstActionFault(check: Check, actions: seq<string>, f: TokenError) {
    && (check.Some? ==> ActionFault(actions, check.value))
    && (ActionFault(actions, f) ==> check.Some? && Place(check.value) <= Place(f))
  }

  lemma LastActionFault(front: seq<string>, last: string, e: TokenError)
    ensures ActionFault(front + [last], e) <==>
            || ActionFault(front, e)
            || (e == PermissionMalformed(|front|) && !IsActionName(last))
            || (e == PermissionUnknown(|front|) && last !in CANONICAL_ACTIONS)
            || (e == PermissionDuplicate(|front|) && last in front)
    ensures ActionFault(front, e) ==> Place(e) < 3 * |front|
  {
    var actions := front + [last];
    assert forall k :: 0 <= k < |front| ==> actions[k] == front[k];
    assert forall k :: 0 <= k <= |front| ==> actions[..k] == front[..k];
    assert front[..|front|] == front;
  }

  lemma {:induction false} ActionsFindFirst(actions: seq<string>, f: TokenError)
    ensures FirstActionFault(ActionsCheck(actions), actions, f)
  {
    if actions != [] {
      var front, last, check := DropLast(actions), Last(actions), ActionsCheck(actions);
      ActionsFindFirst(front, f);
      assert actions == front + [last];
      LastActionFault(front, last, f);
      if check.Some? { LastActionFault(front, last, check.value); }
      if ActionsCheck(front).Some? { LastActionFault(front, last, ActionsCheck(front).value); }
    }
  }

  /** The position of the first entry the consent lacks. */
  lemma {:induction false} ScopeContainmentFindsFirst(scope: seq<ScopeEntry>, parent: seq<ScopeEntry>)
    ensures ScopeContainment(scope, parent).None? ==>
              forall i :: 0 <= i < |scope| ==> !Lacks(parent, scope[i])
    ensures ScopeContainment(scope, parent).Some? ==>
              var e := ScopeContainment(scope, parent).value;
              && e.ScopeEscalation? && e.index < |scope| && Lacks(parent, scope[e.index])
              && forall i :: 0 <= i < e.index ==> !Lacks(parent, scope[i])
  {
    if scope != [] {
      ScopeContainmentFindsFirst(DropLast(scope), parent);
      HasKeyIff(parent, Last(scope));
    }
  }

  lemma {:induction false} PermissionContainmentFindsFirst(permissions: seq<string>, parent: seq<string>)
    ensures PermissionContainment(permissions, parent).None? ==>
              forall i :: 0 <= i < |permissions| ==> permissions[i] in parent
    ensures PermissionContainment(permissions, parent).Some? ==>
              var e := PermissionContainment(permissions, parent).value;
              && e.PermissionEscalation? && e.index < |permissions| && permissions[e.index] !in parent
              && forall i :: 0 <= i < e.index ==> permissions[i] in parent
  {
    if permissions != [] {
      PermissionContainmentFindsFirst(DropLast(permissions), parent);
    }
  }

  lemma HasKeyIff(scope: seq<ScopeEntry>, e: ScopeEntry)
    ensures ScopeKey(e) in Map(scope, ScopeKey) <==> !Lacks(scope, e)
  {
    MapMembers(scope, ScopeKey, ScopeKey(e));
  }

  // ---------------------------------------------------------------- every report is true

  lemma IdentityIsTrue(c: Case)
    ensures Truthful(c, IdentityCheck(c.token.payload), 0, 10)
  {
  }

  lemma ScopeIsTrue(c: Case)
    ensures Truthful(c, ScopeCheck(c.token.payload.scope), 10, 13)
  {
    EntriesFindFirst(c.token.payload.scope, ScopeEmpty);
  }

  lemma PermissionsAreTrue(c: Case)
    ensures Truthful(c, PermissionsCheck(c.token.payload.permissions), 13, 16)
  {
    ActionsFindFirst(c.token.payload.permissions, ScopeEmpty);
  }

  lemma StampIsTrue(c: Case)
    ensures Truthful(c, StampCheck(c.token.payload), 16, 19)
  {
  }

  lemma MakerIsTrue(c: Case)
    ensures Truthful(c, MakerCheck(c.token.payload.marketMakerId, TokenMaker), 19, 21)
  {
  }

  lemma StartIsTrue(c: Case)
    ensures Truthful(c, StartCheck(c.token.payload), 21, 22)
  {
  }

  lemma OrderIsTrue(c: Case)
    ensures Truthful(c, OrderCheck(c.token.payload), 22, 25)
  {
  }

  lemma HashIsTrue(c: Case)
    ensures Truthful(c, HashCheck(c.crypto, c.token), 25, 27)
  {
  }

  lemma BindingIsTrue(c: Case)
    ensures Truthful(c, BindingCheck(c.token.payload, c.consent), 27, 34)
  {
  }

  lemma ContainmentIsTrue(c: Case)
    ensures Truthful(c, ScopeContainment(c.token.payload.scope, c.consent.scope), 34, 35)
    ensures Truthful(c, PermissionContainment(c.token.payload.permissions, c.consent.permissions), 35, 36)
  {
    ScopeContainmentFindsFirst(c.token.payload.scope, c.consent.scope);
    PermissionContainmentFindsFirst(c.token.payload.permissions, c.consent.permissions);
  }

  lemma LifetimeIsTrue(c: Case)
    ensures Truthful(c, LifetimeContainment(c.token.payload, c.consent), 36, 39)
  {
  }

  lemma WindowIsTrue(c: Case)
    ensures Truthful(c, WindowCheck(c.token.payload, c.now), 39, 41)
  {
  }

  // ---------------------------------------------------------------- every fault is found

  lemma VersionFinds(c: Case, f: TokenError)
    requires 0 <= Stage(f) < 1
    ensures Finds(c, Fail(!IsVersion(c.token.payload.version), VersionMalformed), 0, 1, f)
  {
    match f
    case VersionMalformed =>
    case _ =>
  }

  predicate IsSubjectError(f: TokenError) {
    f in {DidEmpty(SubjectField), DidTooShort(SubjectField), DidTooLong(SubjectField), DidMalformed(SubjectField)}
  }

  lemma SubjectErrors(f: TokenError)
    requires 1 <= Stage(f) < 5
    ensures IsSubjectError(f)
  {
  }

  lemma SubjectFaultFound(c: Case, f: TokenError)
    requires IsSubjectError(f) && f in Faults(c)
    ensures DidCheck(c.token.payload.subject, SubjectField).Some?
    ensures NotAfter(DidCheck(c.token.payload.subject, SubjectField).value, f)
  {
    match f
    case DidEmpty(_) =>
    case DidTooShort(_) =>
    case DidTooLong(_) =>
    case DidMalformed(_) =>
  }

  lemma SubjectFinds(c: Case, f: TokenError)
    requires 1 <= Stage(f) < 5
    ensures Finds(c, DidCheck(c.token.payload.subject, SubjectField), 1, 5, f)
  {
    SubjectErrors(f);
    if f in Faults(c) { SubjectFaultFound(c, f); }
  }

  predicate IsGranteeError(f: TokenError) {
    f in {DidEmpty(GranteeField), DidTooShort(GranteeField), DidTooLong(GranteeField), DidMalformed(GranteeField)}
  }

  lemma GranteeErrors(f: TokenError)
    requires 5 <= Stage(f) < 9
    ensures IsGranteeError(f)
  {
  }

  lemma GranteeFaultFound(c: Case, f: TokenError)
    requires IsGranteeError(f) && f in Faults(c)
    ensures DidCheck(c.token.payload.grantee, GranteeField).Some?
    ensures NotAfter(DidCheck(c.token.payload.grantee, GranteeField).value, f)
  {
    match f
    case DidEmpty(_) =>
    case DidTooShort(_) =>
    case DidTooLong(_) =>
    case DidMalformed(_) =>
  }

  lemma GranteeFinds(c: Case, f: TokenError)
    requires 5 <= Stage(f) < 9
    ensures Finds(c, DidCheck(c.token.payload.grantee, GranteeField), 5, 9, f)
  {
    GranteeErrors(f);
    if f in Faults(c) { GranteeFaultFound(c, f); }
  }

  predicate IsConsentRefError(f: TokenError) {
    f == ConsentRefMalformed
  }

  lemma ConsentRefErrors(f: TokenError)
    requires 9 <= Stage(f) < 10
    ensures IsConsentRefError(f)
  {
  }

  lemma ConsentRefFaultFound(c: Case, f: TokenError)
    requires IsConsentRefError(f) && f in Faults(c)
    ensures Fail(!IsHash64(c.token.payload.consentRef), ConsentRefMalformed).Some?
    ensures NotAfter(Fail(!IsHash64(c.token.payload.consentRef), ConsentRefMalformed).value, f)
  {
    match f
    case ConsentRefMalformed =>
  }

  lemma ConsentRefFinds(c: Case, f: TokenError)
    requires 9 <= Stage(f) < 10
    ensures Finds(c, Fail(!IsHash64(c.token.payload.consentRef), ConsentRefMalformed), 9, 10, f)
  {
    ConsentRefErrors(f);
    if f in Faults(c) { ConsentRefFaultFound(c, f); }
  }

  lemma ScopeFinds(c: Case, f: TokenError)
    requires 10 <= Stage(f) < 13
    ensures Finds(c, ScopeCheck(c.token.payload.scope), 10, 13, f)
  {
    EntriesFindFirst(c.token.payload.scope, f);
  }

  lemma PermissionFinds(c: Case, f: TokenError)
    requires 13 <= Stage(f) < 16
    ensures Finds(c, PermissionsCheck(c.token.payload.permissions), 13, 16, f)
  {
    ActionsFindFirst(c.token.payload.permissions, f);
  }

  predicate IsStampError(f: TokenError) {
    f in {TimestampMalformed(IssuedAtField), TimestampMalformed(ExpiresAtField), TokenIdMalformed}
  }

  lemma StampErrors(f: TokenError)
    requires 16 <= Stage(f) < 19
    ensures IsStampError(f)
  {
  }

  lemma StampFaultFound(c: Case, f: TokenError)
    requires IsStampError(f) && f in Faults(c)
    ensures StampCheck(c.token.payload).Some?
    ensures NotAfter(StampCheck(c.token.payload).value, f)
  {
    match f
    case TimestampMalformed(_) =>
    case TokenIdMalformed =>
  }

  lemma StampFinds(c: Case, f: TokenError)
    requires 16 <= Stage(f) < 19
    ensures Finds(c, StampCheck(c.token.payload), 16, 19, f)
  {
    StampErrors(f);
    if f in Faults(c) { StampFaultFound(c, f); }
  }

  lemma MakerFinds(c: Case, f: TokenError)
    requires 19 <= Stage(f) < 21
    ensures Finds(c, MakerCheck(c.token.payload.marketMakerId, TokenMaker), 19, 21, f)
  {
    match f
    case MakerBlank(_) =>
    case MakerMalformed(_) =>
    case _ =>
  }

  lemma StartFinds(c: Case, f: TokenError)
    requires 21 <= Stage(f) < 22
    ensures Finds(c, StartCheck(c.token.payload), 21, 22, f)
  {
    match f
    case TimestampMalformed(_) =>
    case _ =>
  }

  predicate IsOrderError(f: TokenError) {
    f in {ExpiryNotAfterIssue, StartBeforeIssue, StartNotBeforeExpiry}
  }

  lemma OrderErrors(f: TokenError)
    requires 22 <= Stage(f) < 25
    ensures IsOrderError(f)
  {
  }

  lemma OrderFaultFound(c: Case, f: TokenError)
    requires IsOrderError(f) && f in Faults(c)
    ensures OrderCheck(c.token.payload).Some?
    ensures NotAfter(OrderCheck(c.token.payload).value, f)
  {
    match f
    case ExpiryNotAfterIssue =>
    case StartBeforeIssue =>
    case StartNotBeforeExpiry =>
  }

  lemma OrderFinds(c: Case, f: TokenError)
    requires 22 <= Stage(f) < 25
    ensures Finds(c, OrderCheck(c.token.payload), 22, 25, f)
  {
    OrderErrors(f);
    if f in Faults(c) { OrderFaultFound(c, f); }
  }

  predicate IsHashError(f: TokenError) {
    f in {HashMalformed, HashMismatch}
  }

  lemma HashErrors(f: TokenError)
    requires 25 <= Stage(f) < 27
    ensures IsHashError(f)
  {
  }

  lemma HashFaultFound(c: Case, f: TokenError)
    requires IsHashError(f) && f in Faults(c)
    ensures HashCheck(c.crypto, c.token).Some?
    ensures NotAfter(HashCheck(c.crypto, c.token).value, f)
  {
    match f
    case HashMalformed =>
    case HashMismatch =>
  }

  lemma HashFinds(c: Case, f: TokenError)
    requires 25 <= Stage(f) < 27
    ensures Finds(c, HashCheck(c.crypto, c.token), 25, 27, f)
  {
    HashErrors(f);
    if f in Faults(c) { HashFaultFound(c, f); }
  }

  predicate IsBindingError(f: TokenError) {
    f in {ConsentRefMismatch, ParentNotGrant, SubjectMismatch, GranteeMismatch,
          MakerBlank(ParentMaker), MakerMalformed(ParentMaker), MakerMismatch}
  }

  lemma BindingErrors(f: TokenError)
    requires 27 <= Stage(f) < 34
    ensures IsBindingError(f)
  {
  }

  lemma BindingFaultFound(c: Case, f: TokenError)
    requires IsBindingError(f) && f in Faults(c)
    ensures BindingCheck(c.token.payload, c.consent).Some?
    ensures NotAfter(BindingCheck(c.token.payload, c.consent).value, f)
  {
    if f.MakerBlank? || f.MakerMalformed? || f.MakerMismatch? {
      ParentMakerFaultFound(c, f);
    } else {
      PartyFaultFound(c, f);
    }
  }

  lemma PartyFaultFound(c: Case, f: TokenError)
    requires f in {ConsentRefMismatch, ParentNotGrant, SubjectMismatch, GranteeMismatch} && f in Faults(c)
    ensures BindingCheck(c.token.payload, c.consent).Some?
    ensures NotAfter(BindingCheck(c.token.payload, c.consent).value, f)
  {
    match f
    case ConsentRefMismatch =>
    case ParentNotGrant =>
    case SubjectMismatch =>
    case GranteeMismatch =>
  }

  lemma ParentMakerFaultFound(c: Case, f: TokenError)
    requires f in {MakerBlank(ParentMaker), MakerMalformed(ParentMaker), MakerMismatch} && f in Faults(c)
    ensures BindingCheck(c.token.payload, c.consent).Some?
    ensures NotAfter(BindingCheck(c.token.payload, c.consent).value, f)
  {
    match f
    case MakerBlank(_) =>
    case MakerMalformed(_) =>
    case MakerMismatch =>
  }

  lemma BindingFinds(c: Case, f: TokenError)
    requires 27 <= Stage(f) < 34
    ensures Finds(c, BindingCheck(c.token.payload, c.consent), 27, 34, f)
  {
    BindingErrors(f);
    if f in Faults(c) { BindingFaultFound(c, f); }
  }

  lemma EntryFinds(c: Case, f: TokenError)
    requires 34 <= Stage(f) < 35
    ensures Finds(c, ScopeContainment(c.token.payload.scope, c.consent.scope), 34, 35, f)
  {
    ScopeContainmentFindsFirst(c.token.payload.scope, c.consent.scope);
  }

  lemma EscalationFinds(c: Case, f: TokenError)
    requires 35 <= Stage(f) < 36
    ensures Finds(c, PermissionContainment(c.token.payload.permissions, c.consent.permissions), 35, 36, f)
  {
    PermissionContainmentFindsFirst(c.token.payload.permissions, c.consent.permissions);
  }

  predicate IsLifetimeError(f: TokenError) {
    f in {IssuedBeforeConsent, OutlivesConsent, StartBeforeConsent}
  }

  lemma LifetimeErrors(f: TokenError)
    requires 36 <= Stage(f) < 39
    ensures IsLifetimeError(f)
  {
  }

  lemma LifetimeFaultFound(c: Case, f: TokenError)
    requires IsLifetimeError(f) && f in Faults(c)
    ensures LifetimeContainment(c.token.payload, c.consent).Some?
    ensures NotAfter(LifetimeContainment(c.token.payload, c.consent).value, f)
  {
    match f
    case IssuedBeforeConsent =>
    case OutlivesConsent =>
    case StartBeforeConsent =>
  }

  lemma LifetimeFinds(c: Case, f: TokenError)
    requires 36 <= Stage(f) < 39
    ensures Finds(c, LifetimeContainment(c.token.payload, c.consent), 36, 39, f)
  {
    LifetimeErrors(f);
    if f in Faults(c) { LifetimeFaultFound(c, f); }
  }

  predicate IsWindowError(f: TokenError) {
    f in {Expired, NotYetValid}
  }

  lemma WindowErrors(f: TokenError)
    requires 39 <= Stage(f) < 41
    ensures IsWindowError(f)
  {
  }

  lemma WindowFaultFound(c: Case, f: TokenError)
    requires IsWindowError(f) && f in Faults(c)
    ensures WindowCheck(c.token.payload, c.now).Some?
    ensures NotAfter(WindowCheck(c.token.payload, c.now).value, f)
  {
    match f
    case Expired =>
    case NotYetValid =>
  }

  lemma WindowFinds(c: Case, f: TokenError)
    requires 39 <= Stage(f) < 41
    ensures Finds(c, WindowCheck(c.token.payload, c.now), 39, 41, f)
  {
    WindowErrors(f);
    if f in Faults(c) { WindowFaultFound(c, f); }
  }

  predicate IsRegistryError(f: TokenError) {
    f in {TokenRevoked, Replayed}
  }

  lemma RegistryErrors(f: TokenError)
    requires 41 <= Stage(f) < 43
    ensures IsRegistryError(f)
  {
  }

  lemma RegistryFaultFound(c: Case, f: TokenError)
    requires IsRegistryError(f) && f in Faults(c)
    ensures RegistryCheck(c).Some?
    ensures NotAfter(RegistryCheck(c).value, f)
  {
    match f
    case TokenRevoked =>
    case Replayed =>
  }

  lemma RegistryFinds(c: Case, f: TokenError)
    requires 41 <= Stage(f) < 43
    ensures Finds(c, RegistryCheck(c), 41, 43, f)
  {
    RegistryErrors(f);
    if f in Faults(c) { RegistryFaultFound(c, f); }
  }

  function RegistryCheck(c: Case): Check {
    Then(Fail(c.token.capabilityHash in c.reg.revoked, TokenRevoked),
         Fail(c.token.payload.tokenId in c.reg.seen, Replayed))
  }

  // ---------------------------------------------------------------- one check after the other

  lemma IdentityFinds(c: Case, f: TokenError)
    ensures Finds(c, IdentityCheck(c.token.payload), 0, 10, f)
  {
    var p := c.token.payload;
    var version := Fail(!IsVersion(p.version), VersionMalformed);
    var ref := Fail(!IsHash64(p.consentRef), ConsentRefMalformed);
    var subject, grantee := DidCheck(p.subject, SubjectField), DidCheck(p.grantee, GranteeField);
    PartiesAreTrue(c);
    var k := Stage(f);
    if 0 <= k < 1 { VersionFinds(c, f); }
    if 1 <= k < 5 { SubjectFinds(c, f); }
    if 5 <= k < 9 { GranteeFinds(c, f); }
    if 9 <= k < 10 { ConsentRefFinds(c, f); }
    ThenFinds(c, grantee, ref, 5, 9, 10, f);
    ThenFinds(c, subject, Then(grantee, ref), 1, 5, 10, f);
    ThenFinds(c, version, Then(subject, Then(grantee, ref)), 0, 1, 10, f);
  }

  lemma PartiesAreTrue(c: Case)
    ensures Truthful(c, Fail(!IsVersion(c.token.payload.version), VersionMalformed), 0, 1)
    ensures Truthful(c, DidCheck(c.token.payload.subject, SubjectField), 1, 5)
    ensures Truthful(c, DidCheck(c.token.payload.grantee, GranteeField), 5, 9)
  {
  }

  lemma StructureIsTrue(c: Case)
    ensures Truthful(c, StructureCheck(c.token.payload), 0, 19)
  {
    var p := c.token.payload;
    var scope, permissions, stamp := ScopeCheck(p.scope), PermissionsCheck(p.permissions), StampCheck(p);
    IdentityIsTrue(c);
    ScopeIsTrue(c);
    PermissionsAreTrue(c);
    StampIsTrue(c);
    ThenTruthful(c, permissions, stamp, 13, 16, 19);
    ThenTruthful(c, scope, Then(permissions, stamp), 10, 13, 19);
    ThenTruthful(c, IdentityCheck(p), Then(scope, Then(permissions, stamp)), 0, 10, 19);
  }

  lemma StructureFinds(c: Case, f: TokenError)
    ensures Finds(c, StructureCheck(c.token.payload), 0, 19, f)
  {
    var p := c.token.payload;
    var scope, permissions, stamp := ScopeCheck(p.scope), PermissionsCheck(p.permissions), StampCheck(p);
    IdentityIsTrue(c);
    ScopeIsTrue(c);
    PermissionsAreTrue(c);
    StampIsTrue(c);
    ThenTruthful(c, permissions, stamp, 13, 16, 19);
    ThenTruthful(c, scope, Then(permissions, stamp), 10, 13, 19);
    var k := Stage(f);
    IdentityFinds(c, f);
    if 10 <= k < 13 { ScopeFinds(c, f); }
    if 13 <= k < 16 { PermissionFinds(c, f); }
    if 16 <= k < 19 { StampFinds(c, f); }
    ThenFinds(c, permissions, stamp, 13, 16, 19, f);
    ThenFinds(c, scope, Then(permissions, stamp), 10, 13, 19, f);
    ThenFinds(c, IdentityCheck(p), Then(scope, Then(permissions, stamp)), 0, 10, 19, f);
  }

  /** The checks of validation after the structure. */
  function LaterCheck(c: Case): Check {
    var p := c.token.payload;
    Then(MakerCheck(p.marketMakerId, TokenMaker),
         Then(StartCheck(p), Then(OrderCheck(p), HashCheck(c.crypto, c.token))))
  }

  lemma LaterIsTrue(c: Case)
    ensures Truthful(c, LaterCheck(c), 19, 27)
  {
    var p := c.token.payload;
    var start, order, hash := StartCheck(p), OrderCheck(p), HashCheck(c.crypto, c.token);
    var maker := MakerCheck(p.marketMakerId, TokenMaker);
    MakerIsTrue(c);
    StartIsTrue(c);
    OrderIsTrue(c);
    HashIsTrue(c);
    ThenTruthful(c, order, hash, 22, 25, 27);
    ThenTruthful(c, start, Then(order, hash), 21, 22, 27);
    ThenTruthful(c, maker, Then(start, Then(order, hash)), 19, 21, 27);
  }

  lemma LaterFinds(c: Case, f: TokenError)
    ensures Finds(c, LaterCheck(c), 19, 27, f)
  {
    var p := c.token.payload;
    var start, order, hash := StartCheck(p), OrderCheck(p), HashCheck(c.crypto, c.token);
    var maker := MakerCheck(p.marketMakerId, TokenMaker);
    MakerIsTrue(c);
    StartIsTrue(c);
    OrderIsTrue(c);
    HashIsTrue(c);
    ThenTruthful(c, order, hash, 22, 25, 27);
    ThenTruthful(c, start, Then(order, hash), 21, 22, 27);
    var k := Stage(f);
    if 19 <= k < 21 { MakerFinds(c, f); }
    if 21 <= k < 22 { StartFinds(c, f); }
    if 22 <= k < 25 { OrderFinds(c, f); }
    if 25 <= k < 27 { HashFinds(c, f); }
    ThenFinds(c, order, hash, 22, 25, 27, f);
    ThenFinds(c, start, Then(order, hash), 21, 22, 27, f);
    ThenFinds(c, maker, Then(start, Then(order, hash)), 19, 21, 27, f);
  }

  lemma ValidationIsTrue(c: Case)
    ensures Truthful(c, Validation(c.crypto, c.token), 0, 27)
  {
    StructureIsTrue(c);
    LaterIsTrue(c);
    ThenTruthful(c, StructureCheck(c.token.payload), LaterCheck(c), 0, 19, 27);
  }

  lemma ValidationFinds(c: Case, f: TokenError)
    ensures Finds(c, Validation(c.crypto, c.token), 0, 27, f)
  {
    StructureIsTrue(c);
    StructureFinds(c, f);
    LaterFinds(c, f);
    ThenFinds(c, StructureCheck(c.token.payload), LaterCheck(c), 0, 19, 27, f);
  }

  lemma DerivationIsTrue(c: Case)
    ensures Truthful(c, DerivationCheck(c.token.payload, c.consent), 27, 39)
  {
    var p := c.token.payload;
    var entries := ScopeContainment(p.scope, c.consent.scope);
    var permissions := PermissionContainment(p.permissions, c.consent.permissions);
    var lifetime := LifetimeContainment(p, c.consent);
    BindingIsTrue(c);
    ContainmentIsTrue(c);
    LifetimeIsTrue(c);
    ThenTruthful(c, permissions, lifetime, 35, 36, 39);
    ThenTruthful(c, entries, Then(permissions, lifetime), 34, 35, 39);
    ThenTruthful(c, BindingCheck(p, c.consent), Then(entries, Then(permissions, lifetime)), 27, 34, 39);
  }

  lemma DerivationFinds(c: Case, f: TokenError)
    ensures Finds(c, DerivationCheck(c.token.payload, c.consent), 27, 39, f)
  {
    var p := c.token.payload;
    var entries := ScopeContainment(p.scope, c.consent.scope);
    var permissions := PermissionContainment(p.permissions, c.consent.permissions);
    var lifetime := LifetimeContainment(p, c.consent);
    BindingIsTrue(c);
    ContainmentIsTrue(c);
    LifetimeIsTrue(c);
    ThenTruthful(c, permissions, lifetime, 35, 36, 39);
    ThenTruthful(c, entries, Then(permissions, lifetime), 34, 35, 39);
    var k := Stage(f);
    if 27 <= k < 34 { BindingFinds(c, f); }
    if 34 <= k < 35 { EntryFinds(c, f); }
    if 35 <= k < 36 { EscalationFinds(c, f); }
    if 36 <= k < 39 { LifetimeFinds(c, f); }
    ThenFinds(c, permissions, lifetime, 35, 36, 39, f);
    ThenFinds(c, entries, Then(permissions, lifetime), 34, 35, 39, f);
    ThenFinds(c, BindingCheck(p, c.consent), Then(entries, Then(permissions, lifetime)), 27, 34, 39, f);
  }

  lemma RegistriesAreTrue(c: Case)
    ensures Truthful(c, RegistryCheck(c), 41, 43)
  {
  }

  lemma VerificationIsTrue(c: Case)
    ensures Truthful(c, Verification(c.crypto, c.token, c.consent, c.now, c.reg), 0, 43)
  {
    var validation, derivation := Validation(c.crypto, c.token), DerivationCheck(c.token.payload, c.consent);
    var window, registries := WindowCheck(c.token.payload, c.now), RegistryCheck(c);
    ValidationIsTrue(c);
    DerivationIsTrue(c);
    WindowIsTrue(c);
    RegistriesAreTrue(c);
    ThenTruthful(c, derivation, window, 27, 39, 41);
    ThenTruthful(c, validation, Then(derivation, window), 0, 27, 41);
    ThenTruthful(c, Then(validation, Then(derivation, window)), registries, 0, 41, 43);
  }

  lemma VerificationFinds(c: Case, f: TokenError)
    ensures Finds(c, Verification(c.crypto, c.token, c.consent, c.now, c.reg), 0, 43, f)
  {
    var validation, derivation := Validation(c.crypto, c.token), DerivationCheck(c.token.payload, c.consent);
    var window, registries := WindowCheck(c.token.payload, c.now), RegistryCheck(c);
    ValidationIsTrue(c);
    DerivationIsTrue(c);
    WindowIsTrue(c);
    RegistriesAreTrue(c);
    ThenTruthful(c, derivation, window, 27, 39, 41);
    ThenTruthful(c, validation, Then(derivation, window), 0, 27, 41);
    ValidationFinds(c, f);
    DerivationFinds(c, f);
    if 39 <= Stage(f) < 41 { WindowFinds(c, f); }
    if 41 <= Stage(f) < 43 { RegistryFinds(c, f); }
    ThenFinds(c, derivation, window, 27, 39, 41, f);
    ThenFinds(c, validation, Then(derivation, window), 0, 27, 41, f);
    ThenFinds(c, Then(validation, Then(derivation, window)), registries, 0, 41, 43, f);
  }

  lemma FaultsAreChecked(c: Case, f: TokenError)
    requires f in Faults(c)
    ensures Stage(f) < 43
  {
  }

  /** Verification passes exactly a token without faults, and fails with the first fault there is. */
  lemma FirstFaultIsReported(c: Case)
    ensures var check := Verification(c.crypto, c.token, c.consent, c.now, c.reg);
            && (check.None? <==> forall f :: f !in Faults(c))
            && (check.Some? ==> check.value in Faults(c) && forall f :: f in Faults(c) ==> NotAfter(check.value, f))
  {
    var check := Verification(c.crypto, c.token, c.consent, c.now, c.reg);
    VerificationIsTrue(c);
    forall f | f in Faults(c) ensures check.Some? && NotAfter(check.value, f) {
      VerificationFinds(c, f);
      FaultsAreChecked(c, f);
    }
  }

  // ---------------------------------------------------------------- minting

  /** What is wrong with a mint when the error is reported: with the requested market maker, or with the draft. */
  ghost predicate MintFault(c: Case, requestedMaker: Option<string>, e: TokenError) {
    if e == MakerBlank(TokenMaker) then requestedMaker.Some? && Trim(requestedMaker.value) == ""
    else if e == MakerMalformed(TokenMaker) then requestedMaker.Some? && !IsMarketMakerId(requestedMaker.value)
    else if e == MakerMismatch then
      requestedMaker.Some? && c.consent.marketMakerId.Some? && requestedMaker != c.consent.marketMakerId
    else if e == MakerIntroduced then requestedMaker.Some? && c.consent.marketMakerId.None?
    else e in Faults(c)
  }

  /** A failing mint reports something that is wrong with it; `c` holds the draft, with the consent's parties, hash and
      market maker. */
  lemma MintReportsFault(c: Case, requestedMaker: Option<string>, e: TokenError)
    requires var p, consent := c.token.payload, c.consent;
             && p.version == "1.0" && p.subject == consent.subject && p.grantee == consent.grantee
             && p.consentRef == consent.consentHash && p.marketMakerId == consent.marketMakerId
             && Mint(c.crypto, consent, p.scope, p.permissions, p.expiresAt, p.notBefore, requestedMaker, p.issuedAt,
                     p.tokenId) == Err(e)
    ensures MintFault(c, requestedMaker, e)
  {
    var p := c.token.payload;
    assert Draft(c.consent, p.scope, p.permissions, p.expiresAt, p.notBefore, p.issuedAt, p.tokenId) == p;
    DraftFaults(c, requestedMaker, MintCheck(p, c.consent, requestedMaker));
  }

  ghost predicate MintTruthful(c: Case, requestedMaker: Option<string>, check: Check) {
    check.Some? ==> MintFault(c, requestedMaker, check.value)
  }

  lemma ThenMintTruthful(c: Case, requestedMaker: Option<string>, a: Check, b: Check)
    requires MintTruthful(c, requestedMaker, a) && MintTruthful(c, requestedMaker, b)
    ensures MintTruthful(c, requestedMaker, Then(a, b))
  {
  }

  /** Away from market makers a fault of the draft is a fault of the mint. */
  lemma DraftFaultIsMintFault(c: Case, requestedMaker: Option<string>, e: TokenError)
    requires e in Faults(c) && Stage(e) !in {19, 20, 33}
    ensures MintFault(c, requestedMaker, e)
  {
  }

  lemma TruthfulMints(c: Case, requestedMaker: Option<string>, check: Check, lo: nat, hi: nat)
    requires Truthful(c, check, lo, hi) && (hi <= 19 || (21 <= lo && hi <= 33) || 34 <= lo)
    ensures MintTruthful(c, requestedMaker, check)
  {
    if check.Some? { DraftFaultIsMintFault(c, requestedMaker, check.value); }
  }

  lemma RequestedMakerIsTrue(c: Case, requestedMaker: Option<string>)
    ensures MintTruthful(c, requestedMaker, MakerCheck(requestedMaker, TokenMaker))
    ensures MintTruthful(c, requestedMaker, MakerDerivation(c.consent.marketMakerId, requestedMaker))
  {
  }

  lemma GrantAndMakerAreTrue(c: Case, requestedMaker: Option<string>)
    ensures MintTruthful(c, requestedMaker, Fail(c.consent.action != "grant", ParentNotGrant))
    ensures MintTruthful(c, requestedMaker, MakerCheck(c.consent.marketMakerId, ParentMaker))
  {
  }

  lemma ContainmentMints(c: Case, requestedMaker: Option<string>)
    ensures MintTruthful(c, requestedMaker, ContainmentCheck(c.token.payload, c.consent))
  {
    var p := c.token.payload;
    var lifetime, entries := LifetimeContainment(p, c.consent), ScopeContainment(p.scope, c.consent.scope);
    var permissions := PermissionContainment(p.permissions, c.consent.permissions);
    LifetimeIsTrue(c);
    ContainmentIsTrue(c);
    TruthfulMints(c, requestedMaker, lifetime, 36, 39);
    TruthfulMints(c, requestedMaker, entries, 34, 35);
    TruthfulMints(c, requestedMaker, permissions, 35, 36);
    ThenMintTruthful(c, requestedMaker, entries, permissions);
    ThenMintTruthful(c, requestedMaker, lifetime, Then(entries, permissions));
  }

  lemma DraftFaults(c: Case, requestedMaker: Option<string>, check: Check)
    requires check == MintCheck(c.token.payload, c.consent, requestedMaker)
    ensures MintTruthful(c, requestedMaker, check)
  {
    var p, rest := c.token.payload, ContainmentCheck(c.token.payload, c.consent);
    ContainmentMints(c, requestedMaker);
    OrderIsTrue(c);
    TruthfulMints(c, requestedMaker, OrderCheck(p), 22, 25);
    ThenMintTruthful(c, requestedMaker, OrderCheck(p), rest);
    rest := Then(OrderCheck(p), rest);
    RequestedMakerIsTrue(c, requestedMaker);
    ThenMintTruthful(c, requestedMaker, MakerDerivation(c.consent.marketMakerId, requestedMaker), rest);
    rest := Then(MakerDerivation(c.consent.marketMakerId, requestedMaker), rest);
    StartIsTrue(c);
    TruthfulMints(c, requestedMaker, StartCheck(p), 21, 22);
    ThenMintTruthful(c, requestedMaker, StartCheck(p), rest);
    rest := Then(StartCheck(p), rest);
    GrantAndMakerAreTrue(c, requestedMaker);
    ThenMintTruthful(c, requestedMaker, MakerCheck(c.consent.marketMakerId, ParentMaker), rest);
    rest := Then(MakerCheck(c.consent.marketMakerId, ParentMaker), rest);
    ThenMintTruthful(c, requestedMaker, MakerCheck(requestedMaker, TokenMaker), rest);
    rest := Then(MakerCheck(requestedMaker, TokenMaker), rest);
    StructureIsTrue(c);
    TruthfulMints(c, requestedMaker, StructureCheck(p), 0, 19);
    ThenMintTruthful(c, requestedMaker, StructureCheck(p), rest);
    rest := Then(StructureCheck(p), rest);
    ThenMintTruthful(c, requestedMaker, Fail(c.consent.action != "grant", ParentNotGrant), rest);
    assert check == Then(Fail(c.consent.action != "grant", ParentNotGrant), rest);
  }
}
