/** Parsing, normalisation, validation and state of consents (protocol/consent). */
module Consents {
  import opened Wrappers
  import opened Sequences
  import opened StableSorting
  import opened Text
  import opened Scope
  import opened Environment

  const MAX_SCOPE_ENTRIES := 10000
  const MAX_PERMISSIONS := 100

  datatype Consent = Consent(
    version: string, subject: string, grantee: string, action: string, scope: seq<ScopeEntry>,
    permissions: seq<string>, marketMakerId: Option<string>, revokeTarget: Option<string>,
    issuedAt: string, expiresAt: Option<string>, priorConsent: Option<string>, consentHash: string)

  datatype ConsentError =
    | Unparsable
    | BadVersion | BadSubject | BadGrantee | BadAction | BadIssuedAt | BadConsentHash
    | TooManyScopeEntries | BadScopeKind(index: nat) | BadScopeRef(index: nat) | DuplicateScope(index: nat)
    | TooManyPermissions | BadPermission(index: nat) | DuplicatePermission(index: nat)
    | BadExpiresAt | ExpiresBeforeIssue | BadPriorConsent
    | RevokeTargetOnGrant | BadRevokeTarget | RevokeWithExpiry

  /** Whether `parseConsent` accepts the record; it returns it unchanged if so. */
  predicate Parses(env: Env, c: Consent) {
    && Trim(c.subject) != "" && Trim(c.grantee) != ""
    && c.action in {"grant", "revoke"}
    && c.scope != [] && (forall e :: e in c.scope ==> Trim(e.ref) != "")
    && c.permissions != [] && (forall p :: p in c.permissions ==> Trim(p) != "")
    && env.parseDate(c.issuedAt).Some?
    && Trim(c.consentHash) != ""
  }

  function NormEntry(e: ScopeEntry): ScopeEntry {
    ScopeEntry(e.kind, Norm(e.ref))
  }

  function MapOption(o: Option<string>, f: string -> string): Option<string> {
    match o
    case None => None
    case Some(s) => Some(f(s))
  }

  function Normalize(env: Env, c: Consent): Consent {
    c.(version := Trim(c.version),
       subject := Trim(c.subject),
       grantee := Trim(c.grantee),
       scope := SortByKindRef(env.rank, Map(c.scope, NormEntry)),
       permissions := Sort(Map(c.permissions, Norm), StrLe),
       issuedAt := Trim(c.issuedAt),
       expiresAt := MapOption(c.expiresAt, Trim),
       priorConsent := MapOption(c.priorConsent, Norm),
       consentHash := Norm(c.consentHash),
       marketMakerId := MapOption(c.marketMakerId, Trim),
       revokeTarget := MapOption(c.revokeTarget, Norm))
  }

  /** Normalising trims and lower-cases and sorts; it adds, drops and merges nothing. */
  lemma NormalizeKeeps(env: Env, c: Consent)
    requires Injective(env.rank)
    ensures var n := Normalize(env, c);
            && multiset(n.scope) == multiset(Map(c.scope, NormEntry))
            && multiset(n.permissions) == multiset(Map(c.permissions, Norm)) && SortedBy(n.permissions, StrLe)
            && SortedBy(n.scope, (a, b) => ByKindRef(env.rank, a, b))
            && n.version == Trim(c.version) && n.subject == Trim(c.subject) && n.grantee == Trim(c.grantee)
            && n.action == c.action && n.issuedAt == Trim(c.issuedAt) && n.consentHash == Norm(c.consentHash)
            && (n.expiresAt.Some? <==> c.expiresAt.Some?) && (n.priorConsent.Some? <==> c.priorConsent.Some?)
            && (n.marketMakerId.Some? <==> c.marketMakerId.Some?) && (n.revokeTarget.Some? <==> c.revokeTarget.Some?)
            && (c.expiresAt.Some? ==> n.expiresAt.value == Trim(c.expiresAt.value))
            && (c.priorConsent.Some? ==> n.priorConsent.value == Norm(c.priorConsent.value))
            && (c.marketMakerId.Some? ==> n.marketMakerId.value == Trim(c.marketMakerId.value))
            && (c.revokeTarget.Some? ==> n.revokeTarget.value == Norm(c.revokeTarget.value))
  {
    StrOrder();
    SortProperties(Map(c.permissions, Norm), StrLe);
    ByKindRefOrder(env.rank);
    SortProperties(Map(c.scope, NormEntry), (a: ScopeEntry, b: ScopeEntry) => ByKindRef(env.rank, a, b));
  }

  // ---------------------------------------------------------------- validation

  function ScopeErrors(scope: seq<ScopeEntry>): seq<ConsentError> {
    if scope == [] then []
    else
      var i, e, front := |scope| - 1, Last(scope), DropLast(scope);
      ScopeErrors(front) +
      (if e.kind !in VALID_KINDS then [BadScopeKind(i)] else []) +
      (if !IsHash64(e.ref) then [BadScopeRef(i)] else []) +
      (if ScopeKey(e) in Map(front, ScopeKey) then [DuplicateScope(i)] else [])
  }

  function PermissionErrors(permissions: seq<string>): seq<ConsentError> {
    if permissions == [] then []
    else
      var i, p, front := |permissions| - 1, Last(permissions), DropLast(permissions);
      PermissionErrors(front) +
      (if !IsPermission(p) then [BadPermission(i)] else []) +
      (if p in front then [DuplicatePermission(i)] else [])
  }

  function ExpiryErrors(c: Consent): seq<ConsentError> {
    if c.expiresAt.None? then []
    else if !IsIsoSecond(c.expiresAt.value) then [BadExpiresAt]
    else if StrLe(c.expiresAt.value, c.issuedAt) then [ExpiresBeforeIssue]
    else []
  }

  function ActionErrors(c: Consent): seq<ConsentError> {
    if c.action == "grant" then (if c.revokeTarget.Some? then [RevokeTargetOnGrant] else [])
    else if c.action == "revoke" then
      (if c.revokeTarget.None? || !IsHash64(c.revokeTarget.value) then [BadRevokeTarget] else []) +
      (if c.expiresAt.Some? then [RevokeWithExpiry] else [])
    else []
  }

  function When(failed: bool, error: ConsentError): seq<ConsentError> {
    if failed then [error] else []
  }

  function FieldErrors(c: Consent): seq<ConsentError> {
    PartyErrors(c) + ActErrors(c)
  }

  function PartyErrors(c: Consent): seq<ConsentError> {
    When(!IsVersion(c.version), BadVersion) + When(!IsDid(c.subject), BadSubject) + When(!IsDid(c.grantee), BadGrantee)
  }

  function ActErrors(c: Consent): seq<ConsentError> {
    When(c.action !in {"grant", "revoke"}, BadAction)
    + When(!IsIsoSecond(c.issuedAt), BadIssuedAt) + When(!IsHash64(c.consentHash), BadConsentHash)
  }

  function ListErrors(c: Consent): seq<ConsentError> {
    When(|c.scope| > MAX_SCOPE_ENTRIES, TooManyScopeEntries) + ScopeErrors(c.scope)
    + When(|c.permissions| > MAX_PERMISSIONS, TooManyPermissions) + PermissionErrors(c.permissions)
  }

  function LifetimeErrors(c: Consent): seq<ConsentError> {
    ExpiryErrors(c) + When(c.priorConsent.Some? && !IsHash64(c.priorConsent.value), BadPriorConsent) + ActionErrors(c)
  }

  function ConsentErrors(env: Env, c: Consent): seq<ConsentError> {
    if !Parses(env, c) then [Unparsable] else FieldErrors(c) + ListErrors(c) + LifetimeErrors(c)
  }

  /** The scope loop, with its growing set of seen keys. */
  method CheckScope(scope: seq<ScopeEntry>) returns (errors: seq<ConsentError>)
    ensures errors == ScopeErrors(scope)
  {
    errors := [];
    var seenScope: set<string> := {};
    for i := 0 to |scope|
      invariant errors == ScopeErrors(scope[..i])
      invariant forall k :: k in seenScope <==> k in Map(scope[..i], ScopeKey)
    {
      var entry := scope[i];
      assert DropLast(scope[..i + 1]) == scope[..i];
      if entry.kind !in VALID_KINDS { errors := errors + [BadScopeKind(i)]; }
      if !IsHash64(entry.ref) { errors := errors + [BadScopeRef(i)]; }
      var key := ScopeKey(entry);
      if key in seenScope { errors := errors + [DuplicateScope(i)]; }
      seenScope := seenScope + {key};
      assert Map(scope[..i + 1], ScopeKey) == Map(scope[..i], ScopeKey) + [key];
    }
    assert scope[..|scope|] == scope;
  }

  lemma PermissionErrorsAppend(front: seq<string>, p: string)
    ensures PermissionErrors(front + [p]) == PermissionErrors(front) +
                                             (if !IsPermission(p) then [BadPermission(|front|)] else []) +
                                             (if p in front then [DuplicatePermission(|front|)] else [])
  {
    assert DropLast(front + [p]) == front;
  }

  method CheckPermissions(permissions: seq<string>) returns (errors: seq<ConsentError>)
    ensures errors == PermissionErrors(permissions)
  {
    errors := [];
    var seenPermissions: set<string> := {};
    for i := 0 to |permissions|
      invariant errors == PermissionErrors(permissions[..i])
      invariant forall p :: p in seenPermissions <==> p in permissions[..i]
    {
      var permission := permissions[i];
      PermissionErrorsAppend(permissions[..i], permission);
      assert permissions[..i + 1] == permissions[..i] + [permission];
      if !IsPermission(permission) { errors := errors + [BadPermission(i)]; }
      if permission in seenPermissions { errors := errors + [DuplicatePermission(i)]; }
      seenPermissions := seenPermissions + {permission};
    }
    assert permissions[..|permissions|] == permissions;
  }

  /** `errors.push(error)` under a condition. */
  method Report(errors: seq<ConsentError>, failed: bool, error: ConsentError) returns (r: seq<ConsentError>)
    ensures r == errors + When(failed, error)
  {
    r := errors;
    if failed { r := r + [error]; }
  }

  method CheckParties(c: Consent) returns (errors: seq<ConsentError>)
    ensures errors == PartyErrors(c)
  {
    errors := Report([], !IsVersion(c.version), BadVersion);
    errors := Report(errors, !IsDid(c.subject), BadSubject);
    errors := Report(errors, !IsDid(c.grantee), BadGrantee);
  }

  method CheckAct(c: Consent) returns (errors: seq<ConsentError>)
    ensures errors == ActErrors(c)
  {
    errors := Report([], c.action !in {"grant", "revoke"}, BadAction);
    errors := Report(errors, !IsIsoSecond(c.issuedAt), BadIssuedAt);
    errors := Report(errors, !IsHash64(c.consentHash), BadConsentHash);
  }

  method CheckLists(c: Consent) returns (errors: seq<ConsentError>)
    ensures errors == ListErrors(c)
  {
    errors := Report([], |c.scope| > MAX_SCOPE_ENTRIES, TooManyScopeEntries);
    var scopeErrors := CheckScope(c.scope);
    errors := errors + scopeErrors;
    errors := Report(errors, |c.permissions| > MAX_PERMISSIONS, TooManyPermissions);
    var permissionErrors := CheckPermissions(c.permissions);
    errors := errors + permissionErrors;
  }

  method CheckLifetime(c: Consent) returns (errors: seq<ConsentError>)
    ensures errors == LifetimeErrors(c)
  {
    errors := [];
    if c.expiresAt.Some? {
      if !IsIsoSecond(c.expiresAt.value) {
        errors := errors + [BadExpiresAt];
      } else if StrLe(c.expiresAt.value, c.issuedAt) {
        errors := errors + [ExpiresBeforeIssue];
      }
    }
    errors := Report(errors, c.priorConsent.Some? && !IsHash64(c.priorConsent.value), BadPriorConsent);
    if c.action == "grant" {
      if c.revokeTarget.Some? { errors := errors + [RevokeTargetOnGrant]; }
    } else if c.action == "revoke" {
      if c.revokeTarget.None? || !IsHash64(c.revokeTarget.value) { errors := errors + [BadRevokeTarget]; }
      if c.expiresAt.Some? { errors := errors + [RevokeWithExpiry]; }
    }
  }

  method ValidateConsent(env: Env, c: Consent) returns (valid: bool, errors: seq<ConsentError>)
    ensures errors == ConsentErrors(env, c)
    ensures valid <==> errors == []
  {
    if !Parses(env, c) {
      return false, [Unparsable];
    }
    errors := CheckParties(c);
    var actErrors := CheckAct(c);
    errors := errors + actErrors;
    var listErrors := CheckLists(c);
    var lifetimeErrors := CheckLifetime(c);
    errors := errors + listErrors + lifetimeErrors;
    valid := |errors| == 0;
  }

  /** What a consent without errors looks like. */
  ghost predicate WellFormed(env: Env, c: Consent) {
    && Parses(env, c)
    && IsVersion(c.version) && IsDid(c.subject) && IsDid(c.grantee)
    && IsIsoSecond(c.issuedAt) && IsHash64(c.consentHash)
    && |c.scope| <= MAX_SCOPE_ENTRIES && ValidScope(c.scope) && Distinct(c.scope)
    && |c.permissions| <= MAX_PERMISSIONS && Distinct(c.permissions)
    && (forall p :: p in c.permissions ==> IsPermission(p))
    && (c.expiresAt.Some? ==> IsIsoSecond(c.expiresAt.value) && StrLt(c.issuedAt, c.expiresAt.value))
    && (c.priorConsent.Some? ==> IsHash64(c.priorConsent.value))
    && (c.action == "grant" ==> c.revokeTarget.None?)
    && (c.action == "revoke" ==>
          c.revokeTarget.Some? && IsHash64(c.revokeTarget.value) && c.expiresAt.None?)
  }

  lemma {:induction false} ScopeErrorsMeaning(scope: seq<ScopeEntry>)
    ensures ScopeErrors(scope) == [] <==> ValidScope(scope) && Distinct(scope)
  {
    if scope != [] {
      var front, e := DropLast(scope), Last(scope);
      ScopeErrorsMeaning(front);
      assert scope == front + [e];
      DistinctAppend(front, e);
      if ValidEntry(e) {
        KeyMembership(front, e);
      }
    }
  }

  lemma {:induction false} PermissionErrorsMeaning(permissions: seq<string>)
    ensures PermissionErrors(permissions) == [] <==>
            Distinct(permissions) && forall p :: p in permissions ==> IsPermission(p)
  {
    if permissions != [] {
      var front, p := DropLast(permissions), Last(permissions);
      PermissionErrorsMeaning(front);
      assert permissions == front + [p];
      DistinctAppend(front, p);
    }
  }

  /** The entry at this position repeats the key of an earlier one. */
  ghost predicate RepeatsKey(scope: seq<ScopeEntry>, i: nat) {
    i < |scope| && exists j :: 0 <= j < i && ScopeKey(scope[j]) == ScopeKey(scope[i])
  }

  lemma KeyBefore(front: seq<ScopeEntry>, e: ScopeEntry)
    ensures ScopeKey(e) in Map(front, ScopeKey) <==> RepeatsKey(front + [e], |front|)
  {
    var keys, scope := Map(front, ScopeKey), front + [e];
    if ScopeKey(e) in keys {
      var j :| 0 <= j < |keys| && keys[j] == ScopeKey(e);
      assert scope[j] == front[j];
    }
    if RepeatsKey(scope, |front|) {
      var j :| 0 <= j < |front| && ScopeKey(scope[j]) == ScopeKey(scope[|front|]);
      assert keys[j] == ScopeKey(e);
    }
  }

  /** What is wrong with an entry when it is reported to be. */
  ghost predicate EntryWrong(scope: seq<ScopeEntry>, e: ConsentError) {
    match e
    case BadScopeKind(i) => i < |scope| && scope[i].kind !in VALID_KINDS
    case BadScopeRef(i) => i < |scope| && !IsHash64(scope[i].ref)
    case DuplicateScope(i) => RepeatsKey(scope, i)
    case _ => false
  }

  lemma LastEntryWrong(front: seq<ScopeEntry>, last: ScopeEntry, e: ConsentError)
    ensures EntryWrong(front + [last], e) <==>
            || EntryWrong(front, e)
            || (e == BadScopeKind(|front|) && last.kind !in VALID_KINDS)
            || (e == BadScopeRef(|front|) && !IsHash64(last.ref))
            || (e == DuplicateScope(|front|) && ScopeKey(last) in Map(front, ScopeKey))
  {
    KeyBefore(front, last);
    if e.DuplicateScope? && e.index < |front| {
      var scope := front + [last];
      assert forall k :: 0 <= k < |front| ==> scope[k] == front[k];
    }
  }

  /** Each scope error says what is wrong with which entry. */
  lemma {:induction false} ScopeErrorsSay(scope: seq<ScopeEntry>, e: ConsentError)
    ensures e in ScopeErrors(scope) <==> EntryWrong(scope, e)
  {
    if scope != [] {
      ScopeErrorsSay(DropLast(scope), e);
      LastEntryWrong(DropLast(scope), Last(scope), e);
      assert scope == DropLast(scope) + [Last(scope)];
    }
  }

  ghost predicate PermissionWrong(permissions: seq<string>, e: ConsentError) {
    match e
    case BadPermission(i) => i < |permissions| && !IsPermission(permissions[i])
    case DuplicatePermission(i) => i < |permissions| && permissions[i] in permissions[..i]
    case _ => false
  }

  /** And each permission error. */
  lemma {:induction false} PermissionErrorsSay(permissions: seq<string>, e: ConsentError)
    ensures e in PermissionErrors(permissions) <==> PermissionWrong(permissions, e)
  {
    if permissions != [] {
      var front := DropLast(permissions);
      PermissionErrorsSay(front, e);
      assert permissions == front + [Last(permissions)];
      assert forall i :: 0 <= i <= |front| ==> permissions[..i] == front[..i];
    }
  }

  ghost predicate FieldWrong(c: Consent, e: ConsentError) {
    match e
    case BadVersion => !IsVersion(c.version)
    case BadSubject => !IsDid(c.subject)
    case BadGrantee => !IsDid(c.grantee)
    case BadAction => c.action !in {"grant", "revoke"}
    case BadIssuedAt => !IsIsoSecond(c.issuedAt)
    case BadConsentHash => !IsHash64(c.consentHash)
    case TooManyScopeEntries => |c.scope| > MAX_SCOPE_ENTRIES
    case TooManyPermissions => |c.permissions| > MAX_PERMISSIONS
    case _ => false
  }

  ghost predicate LifetimeWrong(c: Consent, e: ConsentError) {
    match e
    case BadExpiresAt => c.expiresAt.Some? && !IsIsoSecond(c.expiresAt.value)
    case ExpiresBeforeIssue =>
      c.expiresAt.Some? && IsIsoSecond(c.expiresAt.value) && StrLe(c.expiresAt.value, c.issuedAt)
    case BadPriorConsent => c.priorConsent.Some? && !IsHash64(c.priorConsent.value)
    case RevokeTargetOnGrant => c.action == "grant" && c.revokeTarget.Some?
    case BadRevokeTarget => c.action == "revoke" && (c.revokeTarget.Some? ==> !IsHash64(c.revokeTarget.value))
    case RevokeWithExpiry => c.action == "revoke" && c.expiresAt.Some?
    case _ => false
  }

  lemma FieldErrorsSay(c: Consent, e: ConsentError)
    ensures e in FieldErrors(c) <==> FieldWrong(c, e) && !e.TooManyScopeEntries? && !e.TooManyPermissions?
  {
    assert e in FieldErrors(c) <==> e in PartyErrors(c) || e in ActErrors(c);
  }

  lemma ListErrorsSay(c: Consent, e: ConsentError)
    ensures e in ListErrors(c) <==>
            || (FieldWrong(c, e) && (e.TooManyScopeEntries? || e.TooManyPermissions?))
            || EntryWrong(c.scope, e) || PermissionWrong(c.permissions, e)
  {
    var scopeErrors, permissionErrors := ScopeErrors(c.scope), PermissionErrors(c.permissions);
    ScopeErrorsSay(c.scope, e);
    PermissionErrorsSay(c.permissions, e);
    assert e in ListErrors(c) <==>
           || e in When(|c.scope| > MAX_SCOPE_ENTRIES, TooManyScopeEntries) || e in scopeErrors
           || e in When(|c.permissions| > MAX_PERMISSIONS, TooManyPermissions) || e in permissionErrors;
  }

  lemma LifetimeErrorsSay(c: Consent, e: ConsentError)
    ensures e in LifetimeErrors(c) <==> LifetimeWrong(c, e)
  {
  }

  /** What is wrong with a consent that parses is reported, and nothing else is: validation does not stop at the first
      error. One that does not parse has just that error. */
  lemma ErrorsSay(env: Env, c: Consent, e: ConsentError)
    ensures e in ConsentErrors(env, c) <==>
            if Parses(env, c)
            then FieldWrong(c, e) || EntryWrong(c.scope, e) || PermissionWrong(c.permissions, e) || LifetimeWrong(c, e)
            else e == Unparsable
  {
    FieldErrorsSay(c, e);
    ListErrorsSay(c, e);
    LifetimeErrorsSay(c, e);
    if Parses(env, c) {
      assert ConsentErrors(env, c) == FieldErrors(c) + ListErrors(c) + LifetimeErrors(c);
    }
  }

  /** The error list is empty exactly for well-formed consents. */
  lemma WellFormedIffNoErrors(env: Env, c: Consent)
    ensures ConsentErrors(env, c) == [] <==> WellFormed(env, c)
  {
    ScopeErrorsMeaning(c.scope);
    PermissionErrorsMeaning(c.permissions);
  }

  // ---------------------------------------------------------------- state

  datatype ConsentState =
    | ActiveConsent | ExpiredConsent | RevokedConsent | RevocationUnknown | InactiveConsent | InvalidConsent

  function EvaluateState(env: Env, c: Consent, now: int, port: RevocationPort): ConsentState {
    if c.action != "grant" && c.action != "revoke" then InvalidConsent
    else if ConsentErrors(env, c) != [] then InvalidConsent
    else if c.action != "grant" then InvalidConsent
    else
      match Resolve(port, c.consentHash)
      case Revoked => RevokedConsent
      case Unknown => RevocationUnknown
      case VerifiedNotRevoked =>
        if env.parseDate(c.issuedAt).None? then InvalidConsent
        else if now < env.parseDate(c.issuedAt).value then InactiveConsent
        else if c.expiresAt.None? then ActiveConsent
        else if env.parseDate(c.expiresAt.value).None? then InvalidConsent
        else if now >= env.parseDate(c.expiresAt.value).value then ExpiredConsent
        else ActiveConsent
  }

  /** A consent is active exactly when it is a well-formed grant, proven not revoked, inside its window. */
  lemma ActiveMeaning(env: Env, c: Consent, now: int, port: RevocationPort)
    ensures EvaluateState(env, c, now, port) == ActiveConsent <==>
            && WellFormed(env, c) && c.action == "grant"
            && port(c.consentHash) == Some(VerifiedNotRevoked)
            && env.parseDate(c.issuedAt).Some? && env.parseDate(c.issuedAt).value <= now
            && (c.expiresAt.Some? ==>
                  env.parseDate(c.expiresAt.value).Some? && now < env.parseDate(c.expiresAt.value).value)
  {
    WellFormedIffNoErrors(env, c);
  }

  /** Why a consent is not active: first what is wrong with it, then what the revocation port says, then time. */
  lemma InactiveMeaning(env: Env, c: Consent, now: int, port: RevocationPort)
    ensures var state := EvaluateState(env, c, now, port);
            var sound := WellFormed(env, c) && c.action == "grant";
            var standing := sound && port(c.consentHash) == Some(VerifiedNotRevoked);
            var issued := env.parseDate(c.issuedAt);
            && (state == RevokedConsent <==> sound && port(c.consentHash) == Some(Revoked))
            && (state == RevocationUnknown <==> sound && port(c.consentHash) in {None, Some(Unknown)})
            && (state == InactiveConsent <==> standing && now < issued.value)
            && (state == ExpiredConsent <==>
                  && standing && issued.value <= now && c.expiresAt.Some?
                  && env.parseDate(c.expiresAt.value).Some? && env.parseDate(c.expiresAt.value).value <= now)
            && (state == InvalidConsent <==>
                  || !sound
                  || (standing && issued.value <= now
                      && c.expiresAt.Some? && env.parseDate(c.expiresAt.value).None?))
  {
    WellFormedIffNoErrors(env, c);
  }
}
