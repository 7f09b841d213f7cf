/** Attenuation and use of runtime capabilities (runtime/capabilities). Time stamps stay strings:
    `validateDelegation` compares them as strings, while use compares the instants they denote. */
module Attenuation {
  import opened Wrappers
  import opened Sequences
  import opened Text
  import opened CalendarTime

  datatype Status = Issued | Active | Suspended | Revoked | Expired

  datatype AiBoundary = AiBoundary(
    allowedPurposes: Option<seq<string>>, blockedScopes: Option<seq<string>>, requiresHumanReview: bool,
    maxAutonomousUses: Option<int>, autonomousUseCount: Option<int>)

  datatype RuntimeCapability = RuntimeCapability(
    capabilityId: string, subjectActorId: string, granteeActorId: string,
    scope: seq<string>, allowedActions: seq<string>,
    notBefore: Option<string>, expiresAt: Option<string>, revokedAt: Option<string>,
    status: Status, aiBoundary: Option<AiBoundary>)

  datatype Session = Session(actorId: string, action: string, resourceId: string, purpose: Option<string>)

  datatype Issue = SubjectMismatch | GranteeMismatch | LifetimeEscalation | ActionEscalation | ScopeEscalation

  datatype Patch = Patch(
    allowedActions: Option<seq<string>>, scope: Option<seq<string>>, expiresAt: Option<string>,
    notBefore: Option<string>)

  // ---------------------------------------------------------------- governance.ts

  function Later(parent: Option<string>, child: Option<string>): bool {
    && parent.Some? && parent.value != "" && child.Some? && child.value != ""
    && StrLt(parent.value, child.value)
  }

  predicate EscalatesActions(parent: RuntimeCapability, child: RuntimeCapability) {
    exists a :: a in child.allowedActions && a !in parent.allowedActions
  }

  /** `resource.startsWith(p)` for one of the prefixes. */
  predicate Covered(scopes: seq<string>, resource: string) {
    exists p :: p in scopes && p <= resource
  }

  predicate EscalatesScope(parent: RuntimeCapability, child: RuntimeCapability) {
    exists s :: s in child.scope && !Covered(parent.scope, s)
  }

  function DelegationIssues(parent: RuntimeCapability, child: RuntimeCapability): seq<Issue> {
    (if parent.subjectActorId != child.subjectActorId then [SubjectMismatch] else []) +
    (if parent.granteeActorId != child.granteeActorId then [GranteeMismatch] else []) +
    (if Later(parent.expiresAt, child.expiresAt) then [LifetimeEscalation] else []) +
    (if EscalatesActions(parent, child) then [ActionEscalation] else []) +
    (if EscalatesScope(parent, child) then [ScopeEscalation] else [])
  }

  method ValidateDelegation(parent: RuntimeCapability, child: RuntimeCapability) returns (issues: seq<Issue>)
    ensures issues == DelegationIssues(parent, child)
  {
    issues := [];
    if parent.subjectActorId != child.subjectActorId { issues := issues + [SubjectMismatch]; }
    if parent.granteeActorId != child.granteeActorId { issues := issues + [GranteeMismatch]; }
    if Later(parent.expiresAt, child.expiresAt) { issues := issues + [LifetimeEscalation]; }
    if EscalatesActions(parent, child) { issues := issues + [ActionEscalation]; }
    if EscalatesScope(parent, child) { issues := issues + [ScopeEscalation]; }
  }

  function Attenuate(parent: RuntimeCapability, patch: Patch): Result<RuntimeCapability, seq<Issue>> {
    var next := parent.(
      allowedActions := patch.allowedActions.GetOr(parent.allowedActions),
      scope := patch.scope.GetOr(parent.scope),
      expiresAt := if patch.expiresAt.Some? then patch.expiresAt else parent.expiresAt,
      notBefore := if patch.notBefore.Some? then patch.notBefore else parent.notBefore);
    if DelegationIssues(parent, next) == [] then Ok(next) else Err(DelegationIssues(parent, next))
  }

  // ---------------------------------------------------------------- capability-lifecycle.ts and capability-session.ts

  const MAX_TIME := 8_640_000_000_000_000

  /** The milliseconds a `Date` can hold (section 21.4.1.1 of ECMA-262). */
  type Time = t: int | -MAX_TIME <= t <= MAX_TIME

  /** What `new Date(stamp)` denotes; `None` is an Invalid Date, which compares false both ways. */
  type Instants = string -> Option<Time>

  /** `now < new Date(stamp)` */
  predicate Precedes(now: Time, stamp: string, instant: Instants) {
    instant(stamp).Some? && now < instant(stamp).value
  }

  /** `now > new Date(stamp)` */
  predicate Follows(now: Time, stamp: string, instant: Instants) {
    instant(stamp).Some? && now > instant(stamp).value
  }

  predicate CurrentlyValid(c: RuntimeCapability, now: Time, instant: Instants) {
    && c.status == Active
    && c.revokedAt.None?
    && !(c.notBefore.Some? && Precedes(now, c.notBefore.value, instant))
    && !(c.expiresAt.Some? && Follows(now, c.expiresAt.value, instant))
  }

  datatype Denial =
    | CAPABILITY_NOT_VALID | ACTOR_NOT_GRANTEE | ACTION_NOT_ALLOWED | RESOURCE_OUT_OF_SCOPE | AI_BLOCKED_SCOPE
    | AI_PURPOSE_NOT_ALLOWED | AI_MAX_AUTONOMOUS_USES_EXCEEDED | AI_HUMAN_REVIEW_REQUIRED | PDP_DENIED

  datatype Use = Allow | Deny(reason: Denial)

  function EvaluateBoundary(b: AiBoundary, s: Session): Use {
    if b.blockedScopes.Some? && Covered(b.blockedScopes.value, s.resourceId) then Deny(AI_BLOCKED_SCOPE)
    else if b.allowedPurposes.Some? && s.purpose.GetOr("") != "" && s.purpose.value !in b.allowedPurposes.value
      then Deny(AI_PURPOSE_NOT_ALLOWED)
    else if b.maxAutonomousUses.Some? && b.autonomousUseCount.GetOr(0) >= b.maxAutonomousUses.value
      then Deny(AI_MAX_AUTONOMOUS_USES_EXCEEDED)
    else if b.requiresHumanReview then Deny(AI_HUMAN_REVIEW_REQUIRED)
    else Allow
  }

  /** An optional policy decision point may veto. */
  type Pdp = Option<(RuntimeCapability, Session) -> bool>

  function EvaluateUse(c: RuntimeCapability, s: Session, now: Time, instant: Instants, pdp: Pdp): Use {
    if !CurrentlyValid(c, now, instant) then Deny(CAPABILITY_NOT_VALID)
    else if s.actorId != c.granteeActorId then Deny(ACTOR_NOT_GRANTEE)
    else if s.action !in c.allowedActions then Deny(ACTION_NOT_ALLOWED)
    else if !Covered(c.scope, s.resourceId) then Deny(RESOURCE_OUT_OF_SCOPE)
    else if c.aiBoundary.Some? && EvaluateBoundary(c.aiBoundary.value, s).Deny?
            then EvaluateBoundary(c.aiBoundary.value, s)
    else if pdp.Some? && !pdp.value(c, s) then Deny(PDP_DENIED)
    else Allow
  }

  predicate Allows(c: RuntimeCapability, s: Session, now: Time, instant: Instants) {
    EvaluateUse(c, s, now, instant, None).Allow?
  }

  /** What a use needs besides being in time. */
  predicate Permits(c: RuntimeCapability, s: Session) {
    && c.status == Active && c.revokedAt.None?
    && s.actorId == c.granteeActorId && s.action in c.allowedActions && Covered(c.scope, s.resourceId)
    && (c.aiBoundary.Some? ==> EvaluateBoundary(c.aiBoundary.value, s).Allow?)
  }

  /** The instant a stamp names; one that is missing or no date names none and bounds nothing. */
  function Bound(stamp: Option<string>, instant: Instants, unbounded: Time): Time {
    if stamp.Some? then instant(stamp.value).GetOr(unbounded) else unbounded
  }

  /** The effective life of a capability, both ends included. */
  function Opens(c: RuntimeCapability, instant: Instants): Time {
    Bound(c.notBefore, instant, -MAX_TIME)
  }

  function Closes(c: RuntimeCapability, instant: Instants): Time {
    Bound(c.expiresAt, instant, MAX_TIME)
  }

  lemma AllowMeaning(c: RuntimeCapability, s: Session, now: Time, instant: Instants)
    ensures Allows(c, s, now, instant) <==> Permits(c, s) && Opens(c, instant) <= now <= Closes(c, instant)
  {
  }

  /** What keeps a session from the capability. */
  ghost predicate Refuses(
      c: RuntimeCapability, s: Session, now: Time, instant: Instants, pdp: Pdp, reason: Denial) {
    match reason
    case CAPABILITY_NOT_VALID => !(c.status == Active && c.revokedAt.None?
                                   && Opens(c, instant) <= now <= Closes(c, instant))
    case ACTOR_NOT_GRANTEE => s.actorId != c.granteeActorId
    case ACTION_NOT_ALLOWED => s.action !in c.allowedActions
    case RESOURCE_OUT_OF_SCOPE => !exists p :: p in c.scope && p <= s.resourceId
    case AI_BLOCKED_SCOPE => exists p :: p in BlockedScopes(c) && p <= s.resourceId
    case AI_PURPOSE_NOT_ALLOWED => !PurposeAllowed(c, s.purpose)
    case AI_MAX_AUTONOMOUS_USES_EXCEEDED =>
      && c.aiBoundary.Some? && c.aiBoundary.value.maxAutonomousUses.Some?
      && c.aiBoundary.value.autonomousUseCount.GetOr(0) >= c.aiBoundary.value.maxAutonomousUses.value
    case AI_HUMAN_REVIEW_REQUIRED => c.aiBoundary.Some? && c.aiBoundary.value.requiresHumanReview
    case PDP_DENIED => pdp.Some? && !pdp.value(c, s)
  }

  function Order(reason: Denial): nat {
    match reason
    case CAPABILITY_NOT_VALID => 0
    case ACTOR_NOT_GRANTEE => 1
    case ACTION_NOT_ALLOWED => 2
    case RESOURCE_OUT_OF_SCOPE => 3
    case AI_BLOCKED_SCOPE => 4
    case AI_PURPOSE_NOT_ALLOWED => 5
    case AI_MAX_AUTONOMOUS_USES_EXCEEDED => 6
    case AI_HUMAN_REVIEW_REQUIRED => 7
    case PDP_DENIED => 8
  }

  /** Use is allowed exactly when nothing keeps the session from the capability, and a denial names the first thing
      that does. */
  lemma UseSays(c: RuntimeCapability, s: Session, now: Time, instant: Instants, pdp: Pdp)
    ensures var use := EvaluateUse(c, s, now, instant, pdp);
            && (use.Allow? ==> forall r :: !Refuses(c, s, now, instant, pdp, r))
            && (use.Deny? ==>
                  && Refuses(c, s, now, instant, pdp, use.reason)
                  && forall r :: Refuses(c, s, now, instant, pdp, r) ==> Order(use.reason) <= Order(r))
  {
    assert CurrentlyValid(c, now, instant) <==> !Refuses(c, s, now, instant, pdp, CAPABILITY_NOT_VALID);
    assert Covered(c.scope, s.resourceId) <==> !Refuses(c, s, now, instant, pdp, RESOURCE_OUT_OF_SCOPE);
    assert Covered(BlockedScopes(c), s.resourceId) <==> Refuses(c, s, now, instant, pdp, AI_BLOCKED_SCOPE);
    if c.aiBoundary.Some? {
      BoundarySays(c.aiBoundary.value, s);
    }
  }

  lemma BoundarySays(b: AiBoundary, s: Session)
    ensures EvaluateBoundary(b, s).Allow? || EvaluateBoundary(b, s).reason in
            {AI_BLOCKED_SCOPE, AI_PURPOSE_NOT_ALLOWED, AI_MAX_AUTONOMOUS_USES_EXCEEDED, AI_HUMAN_REVIEW_REQUIRED}
  {
  }

  /** A policy decision point only ever takes away. */
  lemma PdpOnlyDenies(c: RuntimeCapability, s: Session, now: Time, instant: Instants, pdp: Pdp)
    ensures EvaluateUse(c, s, now, instant, pdp).Allow? ==> Allows(c, s, now, instant)
  {
  }

  // ---------------------------------------------------------------- when one capability narrows another

  /** The child's life lies within the parent's. */
  predicate NarrowsTime(parent: RuntimeCapability, child: RuntimeCapability, instant: Instants) {
    Opens(parent, instant) <= Opens(child, instant) && Closes(child, instant) <= Closes(parent, instant)
  }

  predicate EmptyLife(c: RuntimeCapability, instant: Instants) {
    Closes(c, instant) < Opens(c, instant)
  }

  /** The scopes and purposes of the boundary, and whether it lets anything through at all. */
  function BlockedScopes(c: RuntimeCapability): seq<string> {
    if c.aiBoundary.Some? then c.aiBoundary.value.blockedScopes.GetOr([]) else []
  }

  function Purposes(c: RuntimeCapability): Option<seq<string>> {
    if c.aiBoundary.Some? then c.aiBoundary.value.allowedPurposes else None
  }

  predicate Autonomous(c: RuntimeCapability) {
    c.aiBoundary.Some? ==>
      var b := c.aiBoundary.value;
      !(b.maxAutonomousUses.Some? && b.autonomousUseCount.GetOr(0) >= b.maxAutonomousUses.value)
        && !b.requiresHumanReview
  }

  predicate PurposeAllowed(c: RuntimeCapability, purpose: Option<string>) {
    Purposes(c).Some? && purpose.GetOr("") != "" ==> purpose.value in Purposes(c).value
  }

  lemma PermitsMeaning(c: RuntimeCapability, s: Session)
    ensures Permits(c, s) <==>
            && c.status == Active && c.revokedAt.None? && Autonomous(c)
            && s.actorId == c.granteeActorId && s.action in c.allowedActions
            && Covered(c.scope, s.resourceId) && !Covered(BlockedScopes(c), s.resourceId)
            && PurposeAllowed(c, s.purpose)
  {
  }

  /** Whether any session at all can use the capability, as far as time permits. */
  predicate Usable(c: RuntimeCapability) {
    && c.status == Active && c.revokedAt.None? && Autonomous(c)
    && c.allowedActions != []
    && exists p :: p in c.scope && !Covered(BlockedScopes(c), p)
  }

  /** Whether the parent's boundary lets through whatever the child's does, within the child's scope: a blocked
      prefix and a scope prefix meet exactly in the extensions of the longer one. */
  predicate BoundaryNarrows(parent: RuntimeCapability, child: RuntimeCapability) {
    && Autonomous(parent)
    && (Purposes(parent).Some? ==>
          && Purposes(child).Some?
          && forall p :: p in Purposes(child).value && p != "" ==> p in Purposes(parent).value)
    && (forall p, q :: p in child.scope && q in BlockedScopes(parent) ==> !SlipsThrough(child, p, q))
  }

  /** The longer of two nested prefixes is not blocked. */
  predicate SlipsThrough(c: RuntimeCapability, p: string, q: string) {
    (p <= q && !Covered(BlockedScopes(c), q)) || (q <= p && !Covered(BlockedScopes(c), p))
  }

  /** What delegation checks besides the lifetime. */
  ghost predicate Contained(parent: RuntimeCapability, child: RuntimeCapability) {
    && parent.granteeActorId == child.granteeActorId
    && (forall a :: a in child.allowedActions ==> a in parent.allowedActions)
    && (forall s :: s in child.scope ==> Covered(parent.scope, s))
  }

  ghost predicate PermitsLess(parent: RuntimeCapability, child: RuntimeCapability) {
    forall s :: Permits(child, s) ==> Permits(parent, s)
  }

  ghost predicate UsesLess(parent: RuntimeCapability, child: RuntimeCapability, instant: Instants) {
    forall s, now :: Allows(child, s, now, instant) ==> Allows(parent, s, now, instant)
  }

  lemma CoveredTransitive(outer: seq<string>, inner: seq<string>, resource: string)
    requires forall s :: s in inner ==> Covered(outer, s)
    requires Covered(inner, resource)
    ensures Covered(outer, resource)
  {
    var s :| s in inner && s <= resource;
    var p :| p in outer && p <= s;
    assert p <= resource;
  }

  /** Of two prefixes of one string the shorter is a prefix of the longer. */
  lemma PrefixesNest(p: string, q: string, s: string)
    requires p <= s && q <= s
    ensures p <= q || q <= p
  {
    if |p| <= |q| {
      assert p == s[..|p|] && q == s[..|q|];
      assert q[..|p|] == p;
    } else {
      assert q == s[..|q|] && p == s[..|p|];
      assert p[..|q|] == q;
    }
  }

  lemma CoveredExtends(scopes: seq<string>, p: string, resource: string)
    requires Covered(scopes, p) && p <= resource
    ensures Covered(scopes, resource)
  {
    var q :| q in scopes && q <= p;
    assert q <= resource;
  }

  /** A session a usable capability permits, for a resource that is a scope prefix or longer. */
  function SessionFor(c: RuntimeCapability, resource: string, purpose: Option<string>): Session
    requires c.allowedActions != []
  {
    Session(c.granteeActorId, c.allowedActions[0], resource, purpose)
  }

  lemma UsablePermits(c: RuntimeCapability) returns (s: Session)
    requires Usable(c)
    ensures Permits(c, s)
  {
    var p :| p in c.scope && !Covered(BlockedScopes(c), p);
    assert p <= p;
    s := SessionFor(c, p, None);
    PermitsMeaning(c, s);
  }

  lemma PermitsUsable(c: RuntimeCapability, s: Session)
    requires Permits(c, s)
    ensures Usable(c)
  {
    PermitsMeaning(c, s);
    var p :| p in c.scope && p <= s.resourceId;
    if Covered(BlockedScopes(c), p) {
      CoveredExtends(BlockedScopes(c), p, s.resourceId);
    }
  }

  /** Some purpose is on no finite list. */
  lemma {:induction false} FreshPurpose(purposes: seq<string>) returns (unlisted: string)
    ensures unlisted != "" && forall p :: p in purposes ==> |p| < |unlisted|
  {
    if purposes == [] {
      unlisted := "p";
    } else {
      var front := FreshPurpose(DropLast(purposes));
      unlisted := front + Last(purposes);
      if |unlisted| == |Last(purposes)| || |unlisted| == |front| { unlisted := unlisted + "p"; }
      assert purposes == DropLast(purposes) + [Last(purposes)];
    }
  }

  lemma BoundaryNarrowsPermits(parent: RuntimeCapability, child: RuntimeCapability, s: Session)
    requires Contained(parent, child) && parent.status == Active && parent.revokedAt.None?
    requires BoundaryNarrows(parent, child) && Permits(child, s)
    ensures Permits(parent, s)
  {
    PermitsMeaning(child, s);
    CoveredTransitive(parent.scope, child.scope, s.resourceId);
    if Covered(BlockedScopes(parent), s.resourceId) {
      var q :| q in BlockedScopes(parent) && q <= s.resourceId;
      var p :| p in child.scope && p <= s.resourceId;
      PrefixesNest(p, q, s.resourceId);
      CoveredExtends(BlockedScopes(child), if p <= q then q else p, s.resourceId);
    }
    PermitsMeaning(parent, s);
  }

  /** Where the boundary does not narrow, some session gets through the child's and not through the parent's. */
  lemma BoundaryEscape(parent: RuntimeCapability, child: RuntimeCapability) returns (s: Session)
    requires Usable(child) && !BoundaryNarrows(parent, child)
    ensures Permits(child, s) && !Permits(parent, s)
  {
    s := UsablePermits(child);
    PermitsMeaning(child, s);
    PermitsMeaning(parent, s);
    if Autonomous(parent) {
      if p, q :| p in child.scope && q in BlockedScopes(parent) && SlipsThrough(child, p, q) {
        var resource := if p <= q && !Covered(BlockedScopes(child), q) then q else p;
        assert p <= resource && q <= resource;
        s := SessionFor(child, resource, None);
      } else {
        var purpose := PurposeEscape(parent, child);
        s := s.(purpose := Some(purpose));
      }
      PermitsMeaning(child, s);
      PermitsMeaning(parent, s);
    }
  }

  lemma PurposeEscape(parent: RuntimeCapability, child: RuntimeCapability) returns (purpose: string)
    requires Purposes(parent).Some?
    requires Purposes(child).Some? ==> exists p :: p in Purposes(child).value && p != "" && p !in Purposes(parent).value
    ensures PurposeAllowed(child, Some(purpose)) && !PurposeAllowed(parent, Some(purpose))
  {
    if Purposes(child).Some? {
      purpose :| purpose in Purposes(child).value && purpose != "" && purpose !in Purposes(parent).value;
    } else {
      purpose := FreshPurpose(Purposes(parent).value);
    }
  }

  /** Apart from time, a contained child permits no more than its parent exactly when it permits nothing, or the
      parent is in force and its boundary lets through what the child's does. */
  lemma PermitsLessIff(parent: RuntimeCapability, child: RuntimeCapability)
    requires Contained(parent, child)
    ensures PermitsLess(parent, child) <==>
            !Usable(child) || (parent.status == Active && parent.revokedAt.None? && BoundaryNarrows(parent, child))
  {
    forall s | Permits(child, s) ensures Usable(child) { PermitsUsable(child, s); }
    if !Usable(child) {
    } else if parent.status == Active && parent.revokedAt.None? {
      if BoundaryNarrows(parent, child) {
        forall s | Permits(child, s) ensures Permits(parent, s) { BoundaryNarrowsPermits(parent, child, s); }
      } else {
        var s := BoundaryEscape(parent, child);
        assert !PermitsLess(parent, child);
      }
    } else {
      var s := UsablePermits(child);
      assert !Permits(parent, s);
    }
  }

  /** An instant of the child's life outside the parent's. */
  lemma EscapeInstant(parent: RuntimeCapability, child: RuntimeCapability, instant: Instants) returns (now: Time)
    requires !EmptyLife(child, instant) && !NarrowsTime(parent, child, instant)
    ensures Opens(child, instant) <= now <= Closes(child, instant)
    ensures !(Opens(parent, instant) <= now <= Closes(parent, instant))
  {
    now := if Opens(child, instant) < Opens(parent, instant) then Opens(child, instant) else Closes(child, instant);
  }

  /** And with time: exactly when it permits nothing, is never in life, or both permits less and lives within. */
  lemma UsesLessIff(parent: RuntimeCapability, child: RuntimeCapability, instant: Instants)
    ensures UsesLess(parent, child, instant) <==>
            !Usable(child) || EmptyLife(child, instant)
              || (PermitsLess(parent, child) && NarrowsTime(parent, child, instant))
  {
    forall s, now | Allows(child, s, now, instant)
      ensures Usable(child) && !EmptyLife(child, instant)
      ensures PermitsLess(parent, child) && NarrowsTime(parent, child, instant) ==> Allows(parent, s, now, instant)
    {
      AllowMeaning(child, s, now, instant);
      AllowMeaning(parent, s, now, instant);
      PermitsUsable(child, s);
    }
    if Usable(child) && !EmptyLife(child, instant) {
      if !NarrowsTime(parent, child, instant) {
        var s := UsablePermits(child);
        var now := EscapeInstant(parent, child, instant);
        AllowMeaning(child, s, now, instant);
        AllowMeaning(parent, s, now, instant);
        assert !UsesLess(parent, child, instant);
      } else if !PermitsLess(parent, child) {
        var s :| Permits(child, s) && !Permits(parent, s);
        var now := Opens(child, instant);
        AllowMeaning(child, s, now, instant);
        AllowMeaning(parent, s, now, instant);
        assert !UsesLess(parent, child, instant);
      }
    }
  }

  // ---------------------------------------------------------------- delegation and attenuation

  /** What `validateDelegation` checks. */
  lemma NoIssues(parent: RuntimeCapability, child: RuntimeCapability)
    ensures DelegationIssues(parent, child) == [] <==>
            && parent.subjectActorId == child.subjectActorId && !Later(parent.expiresAt, child.expiresAt)
            && Contained(parent, child)
  {
  }

  /** What is wrong with a child; expiries are compared only where both stamps are there. */
  ghost predicate Escalates(parent: RuntimeCapability, child: RuntimeCapability, issue: Issue) {
    match issue
    case SubjectMismatch => parent.subjectActorId != child.subjectActorId
    case GranteeMismatch => parent.granteeActorId != child.granteeActorId
    case LifetimeEscalation =>
      && parent.expiresAt.GetOr("") != "" && child.expiresAt.GetOr("") != ""
      && StrLt(parent.expiresAt.value, child.expiresAt.value)
    case ActionEscalation => exists a :: a in child.allowedActions && a !in parent.allowedActions
    case ScopeEscalation => exists s :: s in child.scope && !exists p :: p in parent.scope && p <= s
  }

  /** Just what is wrong is reported. */
  lemma IssuesSay(parent: RuntimeCapability, child: RuntimeCapability, issue: Issue)
    ensures issue in DelegationIssues(parent, child) <==> Escalates(parent, child, issue)
  {
    assert EscalatesScope(parent, child) <==> exists s :: s in child.scope && !exists p :: p in parent.scope && p <= s;
  }

  /** A child `validateDelegation` accepts narrows its parent exactly when it is unusable or never in life, or the
      parent is in force, its boundary lets through what the child's does, and the child lives within the parent's
      life. The function itself looks at none of these but two expiry strings. */
  lemma DelegationNarrowsIff(parent: RuntimeCapability, child: RuntimeCapability, instant: Instants)
    requires DelegationIssues(parent, child) == []
    ensures UsesLess(parent, child, instant) <==>
            || !Usable(child) || EmptyLife(child, instant)
            || (parent.status == Active && parent.revokedAt.None? && BoundaryNarrows(parent, child)
                && NarrowsTime(parent, child, instant))
  {
    NoIssues(parent, child);
    PermitsLessIff(parent, child);
    UsesLessIff(parent, child, instant);
  }

  /** What a successful attenuation permits, its parent permits. */
  lemma AttenuationPermitsLess(parent: RuntimeCapability, patch: Patch)
    requires Attenuate(parent, patch).Ok?
    ensures PermitsLess(parent, Attenuate(parent, patch).value)
  {
    var child := Attenuate(parent, patch).value;
    NoIssues(parent, child);
    SameBoundaryPermitsLess(parent, child);
  }

  /** Attenuation changes neither status nor boundary. */
  ghost predicate SameTerms(parent: RuntimeCapability, child: RuntimeCapability) {
    child.status == parent.status && child.revokedAt == parent.revokedAt && child.aiBoundary == parent.aiBoundary
  }

  lemma SameBoundaryPermitsLess(parent: RuntimeCapability, child: RuntimeCapability)
    requires Contained(parent, child) && SameTerms(parent, child)
    ensures PermitsLess(parent, child)
  {
    forall s | Permits(child, s) ensures Permits(parent, s) {
      CoveredTransitive(parent.scope, child.scope, s.resourceId);
    }
  }

  /** Every use an attenuated capability allows is allowed under the parent exactly when the child is unusable,
      its life is empty, or its life lies within the parent's. */
  lemma AttenuationNarrowsIff(parent: RuntimeCapability, patch: Patch, instant: Instants)
    requires Attenuate(parent, patch).Ok?
    ensures var child := Attenuate(parent, patch).value;
            UsesLess(parent, child, instant) <==>
            !Usable(child) || EmptyLife(child, instant) || NarrowsTime(parent, child, instant)
  {
    AttenuationPermitsLess(parent, patch);
    UsesLessIff(parent, Attenuate(parent, patch).value, instant);
  }

  /** What the patch asks for is contained in the parent. */
  ghost predicate PatchContained(parent: RuntimeCapability, patch: Patch) {
    && (patch.allowedActions.Some? ==> forall a :: a in patch.allowedActions.value ==> a in parent.allowedActions)
    && (patch.scope.Some? ==> forall s :: s in patch.scope.value ==> Covered(parent.scope, s))
  }

  /** The patch's expiry sorts after the parent's, where both are there. */
  predicate PatchOutlives(parent: RuntimeCapability, patch: Patch) {
    patch.expiresAt.GetOr("") != "" && parent.expiresAt.GetOr("") != ""
      && StrLt(parent.expiresAt.value, patch.expiresAt.value)
  }

  lemma OwnExpiryNotLater(parent: RuntimeCapability)
    ensures !Later(parent.expiresAt, parent.expiresAt)
  {
    if parent.expiresAt.Some? { LexTotal(CodeUnit, parent.expiresAt.value, parent.expiresAt.value); }
  }

  /** An attenuation succeeds exactly when the patch's actions and scopes are contained in the parent's and its expiry
      does not sort after the parent's; otherwise the issues name what is not. */
  lemma AttenuationIff(parent: RuntimeCapability, patch: Patch)
    ensures Attenuate(parent, patch).Ok? <==> PatchContained(parent, patch) && !PatchOutlives(parent, patch)
    ensures Attenuate(parent, patch).Err? ==>
              var issues := Attenuate(parent, patch).error;
              && (LifetimeEscalation in issues <==> PatchOutlives(parent, patch))
              && (ActionEscalation in issues <==>
                    patch.allowedActions.Some? && exists a ::
                      a in patch.allowedActions.value && a !in parent.allowedActions)
              && (ScopeEscalation in issues <==>
                    patch.scope.Some? && exists s :: s in patch.scope.value && !Covered(parent.scope, s))
              && SubjectMismatch !in issues && GranteeMismatch !in issues
  {
    var next := Patched(parent, patch);
    OwnExpiryNotLater(parent);
    ReflexiveContained(parent, parent.expiresAt);
    NoIssues(parent, next);
    forall issue { IssuesSay(parent, next, issue); }
  }

  /** The parent with what the patch replaces. */
  ghost function Patched(parent: RuntimeCapability, patch: Patch): RuntimeCapability {
    parent.(
      allowedActions := if patch.allowedActions.Some? then patch.allowedActions.value else parent.allowedActions,
      scope := if patch.scope.Some? then patch.scope.value else parent.scope,
      expiresAt := if patch.expiresAt.Some? then patch.expiresAt else parent.expiresAt,
      notBefore := if patch.notBefore.Some? then patch.notBefore else parent.notBefore)
  }

  /** What an attenuated capability permits: what its parent permits, as far as the action and the resource are in the
      patch. */
  lemma AttenuatedPermitsIff(parent: RuntimeCapability, patch: Patch, s: Session)
    requires Attenuate(parent, patch).Ok?
    ensures Permits(Attenuate(parent, patch).value, s) <==>
            && Permits(parent, s)
            && (patch.allowedActions.Some? ==> s.action in patch.allowedActions.value)
            && (patch.scope.Some? ==> Covered(patch.scope.value, s.resourceId))
  {
    AttenuationPermitsLess(parent, patch);
  }

  /** When: from the patch's start, if it has one, else the parent's, to the patch's expiry, if it has one, else the
      parent's. */
  lemma AttenuatedAllowsIff(parent: RuntimeCapability, patch: Patch, s: Session, now: Time, instant: Instants)
    requires Attenuate(parent, patch).Ok?
    ensures Allows(Attenuate(parent, patch).value, s, now, instant) <==>
            && Permits(parent, s)
            && (patch.allowedActions.Some? ==> s.action in patch.allowedActions.value)
            && (patch.scope.Some? ==> Covered(patch.scope.value, s.resourceId))
            && (if patch.notBefore.Some? then Bound(patch.notBefore, instant, -MAX_TIME)
                else Opens(parent, instant)) <= now
            && now <= (if patch.expiresAt.Some? then Bound(patch.expiresAt, instant, MAX_TIME)
                       else Closes(parent, instant))
  {
    AttenuatedPermitsIff(parent, patch, s);
    AllowMeaning(Attenuate(parent, patch).value, s, now, instant);
  }

  // ---------------------------------------------------------------- chains

  /** Each capability is the attenuation of the one before it. */
  ghost predicate IsChain(chain: seq<RuntimeCapability>, patches: seq<Patch>) {
    && |chain| == |patches| + 1
    && forall i :: 0 <= i < |patches| ==> Attenuate(chain[i], patches[i]) == Ok(chain[i + 1])
  }

  /** Along a chain permissions only shrink. */
  lemma {:induction false} ChainPermitsLess(chain: seq<RuntimeCapability>, patches: seq<Patch>, i: nat, j: nat)
    requires IsChain(chain, patches) && i <= j < |chain|
    ensures PermitsLess(chain[i], chain[j])
    decreases j - i
  {
    if i < j {
      assert Attenuate(chain[j - 1], patches[j - 1]) == Ok(chain[j]);
      AttenuationPermitsLess(chain[j - 1], patches[j - 1]);
      ChainPermitsLess(chain, patches, i, j - 1);
    }
  }

  /** For chains of any length: whatever a descendant may be used for at an instant, its ancestor may be used for at
      that instant, exactly when the descendant is unusable, never in life, or lives within the ancestor's life. */
  lemma ChainNarrowsIff(chain: seq<RuntimeCapability>, patches: seq<Patch>, i: nat, j: nat, instant: Instants)
    requires IsChain(chain, patches) && i <= j < |chain|
    ensures UsesLess(chain[i], chain[j], instant) <==>
            !Usable(chain[j]) || EmptyLife(chain[j], instant) || NarrowsTime(chain[i], chain[j], instant)
  {
    ChainPermitsLess(chain, patches, i, j);
    UsesLessIff(chain[i], chain[j], instant);
  }

  /** In particular when every step between them stays within its parent's life. */
  lemma {:induction false} ChainsNarrow(
      chain: seq<RuntimeCapability>, patches: seq<Patch>, i: nat, j: nat, instant: Instants)
    requires IsChain(chain, patches) && i <= j < |chain|
    requires forall k :: i <= k < j ==> NarrowsTime(chain[k], chain[k + 1], instant)
    ensures NarrowsTime(chain[i], chain[j], instant) && UsesLess(chain[i], chain[j], instant)
    decreases j - i
  {
    if i < j {
      ChainsNarrow(chain, patches, i, j - 1, instant);
      assert NarrowsTime(chain[j - 1], chain[j], instant);
    }
    ChainNarrowsIff(chain, patches, i, j, instant);
  }

  // ---------------------------------------------------------------- what the string comparison is worth

  /** The two stamps are dates and compare as strings as they do in time. */
  predicate Comparable(a: string, b: string, instant: Instants) {
    && a != "" && b != "" && instant(a).Some? && instant(b).Some?
    && (StrLe(a, b) <==> instant(a).value <= instant(b).value)
  }

  /** On comparable stamps the lifetime check is exactly the narrowing of the end. */
  lemma LifetimeCheckIsExact(parent: RuntimeCapability, child: RuntimeCapability, instant: Instants)
    requires parent.expiresAt.Some? && child.expiresAt.Some?
    requires Comparable(child.expiresAt.value, parent.expiresAt.value, instant)
    ensures Later(parent.expiresAt, child.expiresAt) <==> Closes(parent, instant) < Closes(child, instant)
  {
  }

  /** So an attenuation to a comparable stamp, or to none, keeps the end within the parent's. */
  lemma ExpiryNarrows(parent: RuntimeCapability, patch: Patch, instant: Instants)
    requires Attenuate(parent, patch).Ok?
    requires patch.expiresAt.Some? && parent.expiresAt.Some? ==>
               Comparable(patch.expiresAt.value, parent.expiresAt.value, instant)
    ensures Closes(Attenuate(parent, patch).value, instant) <= Closes(parent, instant)
  {
    var child := Attenuate(parent, patch).value;
    NoIssues(parent, child);
    if patch.expiresAt.Some? && parent.expiresAt.Some? {
      LifetimeCheckIsExact(parent, child, instant);
    }
  }

  ghost predicate DatesFaithful(instant: Instants) {
    forall c: Civil, ms: nat :: OnCalendar(c) && ms < 1000 ==>
      && instant(IsoMilli(c, ms)).Some? && instant(IsoMilli(c, ms)).value == 1000 * EpochSeconds(c) + ms
      && instant(IsoSecond(c)).Some? && instant(IsoSecond(c)).value == 1000 * EpochSeconds(c)
  }

  /** Stamps of second precision are such stamps. */
  lemma SecondPrecisionAgrees(instant: Instants, a: Civil, b: Civil)
    requires DatesFaithful(instant) && OnCalendar(a) && OnCalendar(b)
    ensures Comparable(IsoSecond(a), IsoSecond(b), instant)
  {
    SecondOrder(a, b);
    ChronologicalOrder(a, b);
    assert instant(IsoSecond(a)).Some? && instant(IsoSecond(a)).value == 1000 * EpochSeconds(a) by {
      var m := IsoMilli(a, 0);
    }
    assert instant(IsoSecond(b)).Some? && instant(IsoSecond(b)).value == 1000 * EpochSeconds(b) by {
      var m := IsoMilli(b, 0);
    }
  }

  lemma ReflexiveContained(parent: RuntimeCapability, expiresAt: Option<string>)
    ensures Contained(parent, parent.(expiresAt := expiresAt))
  {
    forall s | s in parent.scope ensures Covered(parent.scope, s) {
      assert s <= s;
    }
  }

  /** Attenuating the expiry alone succeeds exactly when it passes the string comparison. */
  lemma ExpiryPatch(parent: RuntimeCapability, stamp: string)
    ensures var patch := Patch(None, None, Some(stamp), None);
            if Later(parent.expiresAt, Some(stamp)) then Attenuate(parent, patch).Err?
            else Attenuate(parent, patch) == Ok(parent.(expiresAt := Some(stamp)))
  {
    var child := parent.(expiresAt := Some(stamp));
    ReflexiveContained(parent, Some(stamp));
    NoIssues(parent, child);
  }

  /** Stamps of mixed precision are not: a child may outlive its parent by up to a second. */
  lemma MixedPrecisionOutlives(instant: Instants, parent: RuntimeCapability, c: Civil, ms: nat)
    requires DatesFaithful(instant) && OnCalendar(c) && 0 < ms < 1000
    requires parent.expiresAt == Some(IsoSecond(c))
    ensures var patch := Patch(None, None, Some(IsoMilli(c, ms)), None);
            && Attenuate(parent, patch).Ok?
            && Closes(parent, instant) < Closes(Attenuate(parent, patch).value, instant)
  {
    MixedOrder(c, ms, c);
    LexTotal(CodeUnit, IsoMilli(c, ms), IsoSecond(c));
    assert !Later(parent.expiresAt, Some(IsoMilli(c, ms)));
    ExpiryPatch(parent, IsoMilli(c, ms));
  }

  /** Nor is a stamp that is no date: if it is empty or sorts no later than the parent's expiry it is accepted, and
      the child never expires. */
  lemma NoDateNeverExpires(parent: RuntimeCapability, stamp: string, instant: Instants)
    requires instant(stamp).None? && (stamp == "" || (parent.expiresAt.Some? && StrLe(stamp, parent.expiresAt.value)))
    ensures var patch := Patch(None, None, Some(stamp), None);
            && Attenuate(parent, patch) == Ok(parent.(expiresAt := Some(stamp)))
            && Closes(Attenuate(parent, patch).value, instant) == MAX_TIME
  {
    ExpiryPatch(parent, stamp);
  }

  /** Two such inputs: an empty expiry under any parent, and a thirteenth month under the next new year. The uses of
      the child are uses of the parent only if the parent has no effective end or the child is unusable or never in
      life. */
  lemma EmptyAndImpossibleExpiries(parent: RuntimeCapability, stamp: string, instant: Instants)
    requires stamp == "" || (stamp == "2025-13-01T00:00:00Z" && parent.expiresAt == Some("2026-01-01T00:00:00Z"))
    requires instant(stamp).None?
    ensures var patch := Patch(None, None, Some(stamp), None);
            && Attenuate(parent, patch).Ok?
            && var child := Attenuate(parent, patch).value;
               UsesLess(parent, child, instant) <==>
               !Usable(child) || EmptyLife(child, instant) || Closes(parent, instant) == MAX_TIME
  {
    if stamp != "" { ThirteenthMonthSortsEarlier(); }
    NoDateNeverExpires(parent, stamp, instant);
    AttenuationNarrowsIff(parent, Patch(None, None, Some(stamp), None), instant);
  }

  lemma ThirteenthMonthSortsEarlier()
    ensures StrLe("2025-13-01T00:00:00Z", "2026-01-01T00:00:00Z")
  {
    LexPrefix(CodeUnit, "202", "5-13-01T00:00:00Z", "6-01-01T00:00:00Z");
    assert "202" + "5-13-01T00:00:00Z" == "2025-13-01T00:00:00Z";
    assert "202" + "6-01-01T00:00:00Z" == "2026-01-01T00:00:00Z";
  }

  /** `validateDelegation` on its own overlooks a child that never expires. */
  lemma DelegationOverlooksMissingExpiry(parent: RuntimeCapability)
    ensures DelegationIssues(parent, parent.(expiresAt := None)) == []
  {
    ReflexiveContained(parent, None);
    NoIssues(parent, parent.(expiresAt := None));
  }

  /** An attenuation may move the beginning of life forward, and then allows what its parent denies. */
  lemma EarlierNotBeforeEscapes(parent: RuntimeCapability, patch: Patch, s: Session, instant: Instants)
    requires Attenuate(parent, patch).Ok? && Permits(Attenuate(parent, patch).value, s)
    requires Opens(Attenuate(parent, patch).value, instant) < Opens(parent, instant)
    requires !EmptyLife(Attenuate(parent, patch).value, instant)
    ensures var child := Attenuate(parent, patch).value;
            && Allows(child, s, Opens(child, instant), instant)
            && EvaluateUse(parent, s, Opens(child, instant), instant, None) == Deny(CAPABILITY_NOT_VALID)
  {
    var child := Attenuate(parent, patch).value;
    AllowMeaning(child, s, Opens(child, instant), instant);
    assert instant(parent.notBefore.value).Some?;
  }
}
