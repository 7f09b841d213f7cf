/** Single-use capability tokens: minting, structural validation and verification against the parent
    consent (capability/capabilityToken.ts). A thrown error is a `Some`. */
module CapabilityTokens {
  import opened Wrappers
  import opened Sequences
  import opened StableSorting
  import opened Text
  import opened Scope
  import opened Consents
  import opened TokenRegistries

  const MIN_DID_LENGTH := 8
  const MAX_DID_LENGTH := 2048
  const CANONICAL_ACTIONS: set<string> := {"read", "store", "share", "derive", "aggregate"}

  datatype Payload = Payload(
    version: string, subject: string, grantee: string, consentRef: string, scope: seq<ScopeEntry>,
    permissions: seq<string>, marketMakerId: Option<string>, issuedAt: string, notBefore: Option<string>,
    expiresAt: string, tokenId: string)

  datatype Token = Token(payload: Payload, capabilityHash: string)

  /** `hash` is SHA-256 in hex of the encoded payload, `rank` the character ranking behind `localeCompare`. */
  datatype Crypto = Crypto(hash: Payload -> string, rank: Ranking)

  ghost predicate SoundCrypto(crypto: Crypto) {
    && Injective(crypto.rank)
    && forall p :: IsHash64(crypto.hash(p))
  }

  datatype Field = SubjectField | GranteeField | IssuedAtField | ExpiresAtField | NotBeforeField | TokenMaker
    | ParentMaker

  datatype TokenError =
    | VersionMalformed | DidEmpty(field: Field) | DidTooShort(field: Field) | DidTooLong(field: Field)
    | DidMalformed(field: Field) | ConsentRefMalformed
    | ScopeEmpty | ScopeTooLong | ScopeKindInvalid(index: nat) | ScopeRefInvalid(index: nat)
      | ScopeDuplicate(index: nat)
    | PermissionsEmpty | PermissionsTooLong | PermissionMalformed(index: nat) | PermissionUnknown(index: nat)
    | PermissionDuplicate(index: nat)
    | TimestampMalformed(field: Field) | TokenIdMalformed | MakerBlank(field: Field) | MakerMalformed(field: Field)
    | ExpiryNotAfterIssue | StartBeforeIssue | StartNotBeforeExpiry | HashMalformed | HashMismatch
    | ConsentRefMismatch | ParentNotGrant | SubjectMismatch | GranteeMismatch | MakerMismatch | MakerIntroduced
    | IssuedBeforeConsent | OutlivesConsent | StartBeforeConsent | ScopeEscalation(index: nat)
      | PermissionEscalation(index: nat)
    | Expired | NotYetValid | TokenRevoked | Replayed | RevocationTargetMalformed

  type Check = Option<TokenError>

  function Fail(failed: bool, error: TokenError): Check {
    if failed then Some(error) else None
  }

  /** The error of the first check that throws. */
  function Then(first: Check, second: Check): Check {
    if first.Some? then first else second
  }

  // ---------------------------------------------------------------- structural checks

  /** `^[a-z0-9][a-z0-9._-]{0,127}$` */
  predicate IsMarketMakerId(s: string) {
    && 1 <= |s| <= 128
    && (IsLowerLetter(s[0]) || IsDigit(s[0]))
    && AllIn(s, c => IsLowerLetter(c) || IsDigit(c) || c in {'.', '_', '-'})
  }

  /** `^[a-z][a-z0-9-]*$` */
  predicate IsActionName(s: string) {
    s != "" && IsLowerLetter(s[0]) && AllIn(s, IsPermissionChar)
  }

  function DidCheck(value: string, field: Field): Check {
    if Trim(value) == "" then Some(DidEmpty(field))
    else if |value| < MIN_DID_LENGTH then Some(DidTooShort(field))
    else if |value| > MAX_DID_LENGTH then Some(DidTooLong(field))
    else Fail(!IsDid(value), DidMalformed(field))
  }

  function MakerCheck(maker: Option<string>, field: Field): Check {
    if maker.None? then None
    else if Trim(maker.value) == "" then Some(MakerBlank(field))
    else Fail(!IsMarketMakerId(maker.value), MakerMalformed(field))
  }

  function EntriesCheck(scope: seq<ScopeEntry>): Check {
    if scope == [] then None
    else
      var i, e, front := |scope| - 1, Last(scope), DropLast(scope);
      if EntriesCheck(front).Some? then EntriesCheck(front)
      else if e.kind !in VALID_KINDS then Some(ScopeKindInvalid(i))
      else if !IsHash64(e.ref) then Some(ScopeRefInvalid(i))
      else Fail(ScopeKey(e) in Map(front, ScopeKey), ScopeDuplicate(i))
  }

  function ScopeCheck(scope: seq<ScopeEntry>): Check {
    if scope == [] then Some(ScopeEmpty)
    else if |scope| > MAX_SCOPE_ENTRIES then Some(ScopeTooLong)
    else EntriesCheck(scope)
  }

  function ActionsCheck(actions: seq<string>): Check {
    if actions == [] then None
    else
      var i, a, front := |actions| - 1, Last(actions), DropLast(actions);
      if ActionsCheck(front).Some? then ActionsCheck(front)
      else if !IsActionName(a) then Some(PermissionMalformed(i))
      else if a !in CANONICAL_ACTIONS then Some(PermissionUnknown(i))
      else Fail(a in front, PermissionDuplicate(i))
  }

  function PermissionsCheck(permissions: seq<string>): Check {
    if permissions == [] then Some(PermissionsEmpty)
    else if |permissions| > MAX_PERMISSIONS then Some(PermissionsTooLong)
    else ActionsCheck(permissions)
  }

  /** `validateScope`: one pass with the set of keys met so far. */
  method ValidateScope(scope: seq<ScopeEntry>) returns (check: Check)
    ensures check == ScopeCheck(scope)
  {
    if scope == [] { return Some(ScopeEmpty); }
    if |scope| > MAX_SCOPE_ENTRIES { return Some(ScopeTooLong); }
    var seen: set<string> := {};
    for i := 0 to |scope|
      invariant EntriesCheck(scope[..i]).None?
      invariant forall k :: k in seen <==> k in Map(scope[..i], ScopeKey)
    {
      var e := scope[i];
      assert DropLast(scope[..i + 1]) == scope[..i];
      if EntriesCheck(scope[..i + 1]).Some? { FirstEntryError(scope, i + 1); }
      if e.kind !in VALID_KINDS { return Some(ScopeKindInvalid(i)); }
      if !IsHash64(e.ref) { return Some(ScopeRefInvalid(i)); }
      var key := ScopeKey(e);
      if key in seen { return Some(ScopeDuplicate(i)); }
      seen := seen + {key};
      assert Map(scope[..i + 1], ScopeKey) == Map(scope[..i], ScopeKey) + [key];
    }
    assert scope[..|scope|] == scope;
    check := None;
  }

  lemma {:induction false} FirstEntryError(scope: seq<ScopeEntry>, n: nat)
    requires n <= |scope| && EntriesCheck(scope[..n]).Some?
    ensures EntriesCheck(scope) == EntriesCheck(scope[..n])
    decreases |scope|
  {
    if n == |scope| {
      assert scope[..n] == scope;
    } else {
      assert DropLast(scope)[..n] == scope[..n];
      FirstEntryError(DropLast(scope), n);
    }
  }

  /** `validateCapabilityActions`, likewise. */
  method ValidatePermissions(permissions: seq<string>) returns (check: Check)
    ensures check == PermissionsCheck(permissions)
  {
    if permissions == [] { return Some(PermissionsEmpty); }
    if |permissions| > MAX_PERMISSIONS { return Some(PermissionsTooLong); }
    var seen: set<string> := {};
    for i := 0 to |permissions|
      invariant ActionsCheck(permissions[..i]).None?
      invariant forall p :: p in seen <==> p in permissions[..i]
    {
      var action := permissions[i];
      assert DropLast(permissions[..i + 1]) == permissions[..i];
      if ActionsCheck(permissions[..i + 1]).Some? { FirstActionError(permissions, i + 1); }
      if !IsActionName(action) { return Some(PermissionMalformed(i)); }
      if action !in CANONICAL_ACTIONS { return Some(PermissionUnknown(i)); }
      if action in seen { return Some(PermissionDuplicate(i)); }
      seen := seen + {action};
      assert permissions[..i + 1] == permissions[..i] + [action];
    }
    assert permissions[..|permissions|] == permissions;
    check := None;
  }

  lemma {:induction false} FirstActionError(actions: seq<string>, n: nat)
    requires n <= |actions| && ActionsCheck(actions[..n]).Some?
    ensures ActionsCheck(actions) == ActionsCheck(actions[..n])
    decreases |actions|
  {
    if n == |actions| {
      assert actions[..n] == actions;
    } else {
      assert DropLast(actions)[..n] == actions[..n];
      FirstActionError(DropLast(actions), n);
    }
  }

  lemma {:induction false} EntriesMeaning(scope: seq<ScopeEntry>)
    ensures EntriesCheck(scope).None? <==> ValidScope(scope) && Distinct(scope)
  {
    ScopeErrorsMeaning(scope);
    EntriesMatchConsentRule(scope);
  }

  /** The token's scope rule, which stops at the first error, passes what the consent's rule passes. */
  lemma {:induction false} EntriesMatchConsentRule(scope: seq<ScopeEntry>)
    ensures EntriesCheck(scope).None? <==> ScopeErrors(scope) == []
  {
    if scope != [] {
      EntriesMatchConsentRule(DropLast(scope));
    }
  }

  lemma {:induction false} ActionsMeaning(actions: seq<string>)
    ensures ActionsCheck(actions).None? <==> Distinct(actions) && forall a :: a in actions ==> a in CANONICAL_ACTIONS
  {
    if actions != [] {
      var front, a := DropLast(actions), Last(actions);
      ActionsMeaning(front);
      assert actions == front + [a];
      CanonicalActionIsName(a);
      if Distinct(actions) {
        assert Distinct(front);
        assert a !in front;
      }
    }
  }

  lemma CanonicalActionIsName(a: string)
    ensures a in CANONICAL_ACTIONS ==> IsActionName(a)
  {
    if a in CANONICAL_ACTIONS {
      assert forall i :: 0 <= i < |a| ==> IsPermissionChar(a[i]) by {
        if a == "read" {
        } else if a == "store" {
        } else if a == "share" {
        } else if a == "derive" {
        } else {
          assert a == "aggregate";
        }
      }
    }
  }

  // ---------------------------------------------------------------- canonical payload

  /** `canonicalizeCapabilityPayload`, up to the injective JSON encoding. */
  function Canonical(rank: Ranking, p: Payload): Payload {
    p.(scope := SortByKindRef(rank, p.scope), permissions := Sort(p.permissions, StrLe))
  }

  function TokenHash(crypto: Crypto, p: Payload): string {
    crypto.hash(Canonical(crypto.rank, p))
  }

  /** Payloads that differ in the order of scope entries and permissions only. */
  ghost predicate SameUpToOrder(p: Payload, q: Payload) {
    && multiset(p.scope) == multiset(q.scope)
    && multiset(p.permissions) == multiset(q.permissions)
    && q == p.(scope := q.scope, permissions := q.permissions)
  }

  /** Two payloads have one canonical form exactly when they differ in order only. */
  lemma CanonicalIffSameUpToOrder(rank: Ranking, p: Payload, q: Payload)
    requires Injective(rank)
    ensures Canonical(rank, p) == Canonical(rank, q) <==> SameUpToOrder(p, q)
  {
    StrOrder();
    if SameUpToOrder(p, q) {
      SortKindRefPermutation(rank, p.scope, q.scope);
      SortPermutation(p.permissions, q.permissions, StrLe);
    }
    SortKindRefProperties(rank, p.scope);
    SortKindRefProperties(rank, q.scope);
    SortProperties(p.permissions, StrLe);
    SortProperties(q.permissions, StrLe);
  }

  // ---------------------------------------------------------------- validation

  function IdentityCheck(p: Payload): Check {
    Then(Fail(!IsVersion(p.version), VersionMalformed),
         Then(DidCheck(p.subject, SubjectField),
              Then(DidCheck(p.grantee, GranteeField), Fail(!IsHash64(p.consentRef), ConsentRefMalformed))))
  }

  function StampCheck(p: Payload): Check {
    Then(Fail(!IsIsoSecond(p.issuedAt), TimestampMalformed(IssuedAtField)),
         Then(Fail(!IsIsoSecond(p.expiresAt), TimestampMalformed(ExpiresAtField)),
              Fail(!IsHash64(p.tokenId), TokenIdMalformed)))
  }

  function StartCheck(p: Payload): Check {
    Fail(p.notBefore.Some? && !IsIsoSecond(p.notBefore.value), TimestampMalformed(NotBeforeField))
  }

  function OrderCheck(p: Payload): Check {
    if StrLe(p.expiresAt, p.issuedAt) then Some(ExpiryNotAfterIssue)
    else if p.notBefore.None? then None
    else if StrLt(p.notBefore.value, p.issuedAt) then Some(StartBeforeIssue)
    else Fail(StrLe(p.expiresAt, p.notBefore.value), StartNotBeforeExpiry)
  }

  function HashCheck(crypto: Crypto, t: Token): Check {
    if !IsHash64(t.capabilityHash) then Some(HashMalformed)
    else Fail(t.capabilityHash != TokenHash(crypto, t.payload), HashMismatch)
  }

  function StructureCheck(p: Payload): Check {
    Then(IdentityCheck(p), Then(ScopeCheck(p.scope), Then(PermissionsCheck(p.permissions), StampCheck(p))))
  }

  /** `validateCapabilityToken` without a market maker registry, as verification calls it. */
  function Validation(crypto: Crypto, t: Token): Check {
    Then(StructureCheck(t.payload),
         Then(MakerCheck(t.payload.marketMakerId, TokenMaker),
              Then(StartCheck(t.payload), Then(OrderCheck(t.payload), HashCheck(crypto, t)))))
  }

  method ValidateCapabilityToken(crypto: Crypto, t: Token) returns (check: Check)
    ensures check == Validation(crypto, t)
  {
    var p := t.payload;
    check := IdentityCheck(p);
    if check.Some? { return; }
    check := ValidateScope(p.scope);
    if check.Some? { return; }
    check := ValidatePermissions(p.permissions);
    if check.Some? { return; }
    check := StampCheck(p);
    if check.Some? { return; }
    check := MakerCheck(p.marketMakerId, TokenMaker);
    if check.Some? { return; }
    check := StartCheck(p);
    if check.Some? { return; }
    check := OrderCheck(p);
    if check.Some? { return; }
    check := HashCheck(crypto, t);
  }

  predicate IsBoundedDid(s: string) {
    MIN_DID_LENGTH <= |s| <= MAX_DID_LENGTH && IsDid(s)
  }

  ghost predicate WellFormedPayload(p: Payload) {
    && IsVersion(p.version) && IsBoundedDid(p.subject) && IsBoundedDid(p.grantee) && IsHash64(p.consentRef)
    && 0 < |p.scope| <= MAX_SCOPE_ENTRIES && ValidScope(p.scope) && Distinct(p.scope)
    && 0 < |p.permissions| <= MAX_PERMISSIONS && Distinct(p.permissions)
    && (forall a :: a in p.permissions ==> a in CANONICAL_ACTIONS)
    && IsIsoSecond(p.issuedAt) && IsIsoSecond(p.expiresAt) && IsHash64(p.tokenId)
    && (p.marketMakerId.Some? ==> IsMarketMakerId(p.marketMakerId.value))
    && (p.notBefore.Some? ==>
          && IsIsoSecond(p.notBefore.value)
          && StrLe(p.issuedAt, p.notBefore.value) && StrLt(p.notBefore.value, p.expiresAt))
    && StrLt(p.issuedAt, p.expiresAt)
  }

  ghost predicate Genuine(crypto: Crypto, t: Token) {
    WellFormedPayload(t.payload) && t.capabilityHash == TokenHash(crypto, t.payload)
  }

  lemma DidMeaning(s: string, field: Field)
    ensures DidCheck(s, field).None? <==> IsBoundedDid(s)
  {
    if IsDid(s) { DidIsTrimmed(s); }
  }

  lemma MakerMeaning(maker: Option<string>, field: Field)
    ensures MakerCheck(maker, field).None? <==> (maker.Some? ==> IsMarketMakerId(maker.value))
  {
    if maker.Some? && IsMarketMakerId(maker.value) {
      var s := maker.value;
      assert s[0] in s && Last(s) in s;
      TrimOfTrimmed(s);
    }
  }

  lemma StructureMeaning(p: Payload)
    ensures StructureCheck(p).None? <==>
            && IsVersion(p.version) && IsBoundedDid(p.subject) && IsBoundedDid(p.grantee) && IsHash64(p.consentRef)
            && 0 < |p.scope| <= MAX_SCOPE_ENTRIES && ValidScope(p.scope) && Distinct(p.scope)
            && 0 < |p.permissions| <= MAX_PERMISSIONS && Distinct(p.permissions)
            && (forall a :: a in p.permissions ==> a in CANONICAL_ACTIONS)
            && IsIsoSecond(p.issuedAt) && IsIsoSecond(p.expiresAt) && IsHash64(p.tokenId)
  {
    DidMeaning(p.subject, SubjectField);
    DidMeaning(p.grantee, GranteeField);
    EntriesMeaning(p.scope);
    ActionsMeaning(p.permissions);
  }

  function PayloadCheck(p: Payload): Check {
    Then(StructureCheck(p), Then(MakerCheck(p.marketMakerId, TokenMaker), Then(StartCheck(p), OrderCheck(p))))
  }

  lemma PayloadMeaning(p: Payload)
    ensures PayloadCheck(p).None? <==> WellFormedPayload(p)
  {
    StructureMeaning(p);
    MakerMeaning(p.marketMakerId, TokenMaker);
    if p.notBefore.Some? { LexTotal(CodeUnit, p.issuedAt, p.notBefore.value); }
  }

  /** Validation passes exactly the well-formed tokens that carry the hash of their canonical payload. */
  lemma ValidationMeaning(crypto: Crypto, t: Token)
    requires SoundCrypto(crypto)
    ensures Validation(crypto, t).None? <==> Genuine(crypto, t)
  {
    PayloadMeaning(t.payload);
  }

  ghost predicate NoCollision(crypto: Crypto, p: Payload, q: Payload) {
    crypto.hash(p) == crypto.hash(q) ==> p == q
  }

  /** Tokens with one hash are one token up to order, unless the digest collides on their payloads. */
  lemma TamperEvident(crypto: Crypto, t: Token, u: Token)
    requires SoundCrypto(crypto)
    requires Validation(crypto, t).None? && Validation(crypto, u).None?
    requires t.capabilityHash == u.capabilityHash
    requires NoCollision(crypto, Canonical(crypto.rank, t.payload), Canonical(crypto.rank, u.payload))
    ensures SameUpToOrder(t.payload, u.payload)
  {
    ValidationMeaning(crypto, t);
    ValidationMeaning(crypto, u);
    CanonicalIffSameUpToOrder(crypto.rank, t.payload, u.payload);
  }

  // ---------------------------------------------------------------- derivation from the parent consent

  function ScopeContainment(scope: seq<ScopeEntry>, parent: seq<ScopeEntry>): Check {
    if scope == [] then None
    else Then(ScopeContainment(DropLast(scope), parent),
              Fail(ScopeKey(Last(scope)) !in Map(parent, ScopeKey), ScopeEscalation(|scope| - 1)))
  }

  function PermissionContainment(permissions: seq<string>, parent: seq<string>): Check {
    if permissions == [] then None
    else Then(PermissionContainment(DropLast(permissions), parent),
              Fail(Last(permissions) !in parent, PermissionEscalation(|permissions| - 1)))
  }

  lemma {:induction false} ScopeContainmentMeaning(scope: seq<ScopeEntry>, parent: seq<ScopeEntry>)
    requires ValidScope(scope)
    ensures ScopeContainment(scope, parent).None? <==> forall e :: e in scope ==> e in parent
  {
    if scope != [] {
      var front, e := DropLast(scope), Last(scope);
      assert scope == front + [e];
      ScopeContainmentMeaning(front, parent);
      KeyMembership(parent, e);
    }
  }

  lemma {:induction false} PermissionContainmentMeaning(permissions: seq<string>, parent: seq<string>)
    ensures PermissionContainment(permissions, parent).None? <==> forall p :: p in permissions ==> p in parent
  {
    if permissions != [] {
      PermissionContainmentMeaning(DropLast(permissions), parent);
      assert permissions == DropLast(permissions) + [Last(permissions)];
    }
  }

  function LifetimeContainment(p: Payload, consent: Consent): Check {
    if StrLt(p.issuedAt, consent.issuedAt) then Some(IssuedBeforeConsent)
    else if consent.expiresAt.Some? && StrLt(consent.expiresAt.value, p.expiresAt) then Some(OutlivesConsent)
    else Fail(p.notBefore.Some? && StrLt(p.notBefore.value, consent.issuedAt), StartBeforeConsent)
  }

  function BindingCheck(p: Payload, consent: Consent): Check {
    if p.consentRef != consent.consentHash then Some(ConsentRefMismatch)
    else if consent.action != "grant" then Some(ParentNotGrant)
    else if p.subject != consent.subject then Some(SubjectMismatch)
    else if p.grantee != consent.grantee then Some(GranteeMismatch)
    else Then(MakerCheck(consent.marketMakerId, ParentMaker),
              Fail(consent.marketMakerId != p.marketMakerId, MakerMismatch))
  }

  function DerivationCheck(p: Payload, consent: Consent): Check {
    Then(BindingCheck(p, consent),
         Then(ScopeContainment(p.scope, consent.scope),
              Then(PermissionContainment(p.permissions, consent.permissions), LifetimeContainment(p, consent))))
  }

  function EffectiveStart(p: Payload): string {
    p.notBefore.GetOr(p.issuedAt)
  }

  function WindowCheck(p: Payload, now: string): Check {
    if StrLt(p.expiresAt, now) then Some(Expired)
    else Fail(StrLt(now, EffectiveStart(p)), NotYetValid)
  }

  /** Everything `verifyCapabilityToken` checks before it looks at a registry. */
  function Admission(crypto: Crypto, t: Token, consent: Consent, now: string): Check {
    Then(Validation(crypto, t), Then(DerivationCheck(t.payload, consent), WindowCheck(t.payload, now)))
  }

  function Verification(crypto: Crypto, t: Token, consent: Consent, now: string, reg: Registries): Check {
    Then(Admission(crypto, t, consent, now),
         Then(Fail(t.capabilityHash in reg.revoked, TokenRevoked), Fail(t.payload.tokenId in reg.seen, Replayed)))
  }

  /** The contents of the two registries. */
  datatype Registries = Registries(seen: set<string>, revoked: set<string>)

  method AssertScopeContainment(scope: seq<ScopeEntry>, parent: seq<ScopeEntry>) returns (check: Check)
    ensures check == ScopeContainment(scope, parent)
  {
    var allowed := set k | k in Map(parent, ScopeKey);
    for i := 0 to |scope|
      invariant ScopeContainment(scope[..i], parent).None?
    {
      assert DropLast(scope[..i + 1]) == scope[..i];
      if ScopeKey(scope[i]) !in allowed {
        FirstScopeEscalation(scope, parent, i + 1);
        return Some(ScopeEscalation(i));
      }
    }
    assert scope[..|scope|] == scope;
    check := None;
  }

  lemma {:induction false} FirstScopeEscalation(scope: seq<ScopeEntry>, parent: seq<ScopeEntry>, n: nat)
    requires n <= |scope| && ScopeContainment(scope[..n], parent).Some?
    ensures ScopeContainment(scope, parent) == ScopeContainment(scope[..n], parent)
    decreases |scope|
  {
    if n == |scope| {
      assert scope[..n] == scope;
    } else {
      assert DropLast(scope)[..n] == scope[..n];
      FirstScopeEscalation(DropLast(scope), parent, n);
    }
  }

  method AssertPermissionContainment(permissions: seq<string>, parent: seq<string>) returns (check: Check)
    ensures check == PermissionContainment(permissions, parent)
  {
    var allowed := set p | p in parent;
    for i := 0 to |permissions|
      invariant PermissionContainment(permissions[..i], parent).None?
    {
      assert DropLast(permissions[..i + 1]) == permissions[..i];
      if permissions[i] !in allowed {
        FirstPermissionEscalation(permissions, parent, i + 1);
        return Some(PermissionEscalation(i));
      }
    }
    assert permissions[..|permissions|] == permissions;
    check := None;
  }

  lemma {:induction false} FirstPermissionEscalation(permissions: seq<string>, parent: seq<string>, n: nat)
    requires n <= |permissions| && PermissionContainment(permissions[..n], parent).Some?
    ensures PermissionContainment(permissions, parent) == PermissionContainment(permissions[..n], parent)
    decreases |permissions|
  {
    if n == |permissions| {
      assert permissions[..n] == permissions;
    } else {
      assert DropLast(permissions)[..n] == permissions[..n];
      FirstPermissionEscalation(DropLast(permissions), parent, n);
    }
  }

  method CheckDerivation(p: Payload, consent: Consent) returns (check: Check)
    ensures check == DerivationCheck(p, consent)
  {
    check := BindingCheck(p, consent);
    if check.Some? { return; }
    check := AssertScopeContainment(p.scope, consent.scope);
    if check.Some? { return; }
    check := AssertPermissionContainment(p.permissions, consent.permissions);
    if check.Some? { return; }
    check := LifetimeContainment(p, consent);
  }

  /** `now` is the current time cut to the second in ISO 8601 form. */
  method VerifyCapabilityToken(
      crypto: Crypto, t: Token, consent: Consent, now: string,
      nonces: InMemoryNonceRegistry, revocations: InMemoryRevocationRegistry)
    returns (check: Check)
    modifies nonces
    ensures check == Verification(crypto, t, consent, now, Registries(old(nonces.seen), old(revocations.revoked)))
    ensures nonces.seen == old(nonces.seen) + if check.None? then {t.payload.tokenId} else {}
    ensures revocations.revoked == old(revocations.revoked)
  {
    check := ValidateCapabilityToken(crypto, t);
    if check.Some? { return; }
    check := CheckDerivation(t.payload, consent);
    if check.Some? { return; }
    check := WindowCheck(t.payload, now);
    if check.Some? { return; }
    var revoked := revocations.IsRevoked(t.capabilityHash);
    if revoked { return Some(TokenRevoked); }
    var replayed := nonces.HasSeen(t.payload.tokenId);
    if replayed { return Some(Replayed); }
    nonces.MarkSeen(t.payload.tokenId);
    nonces.Cleanup();
    check := None;
  }

  method RevokeCapabilityToken(capabilityHash: string, revocations: InMemoryRevocationRegistry) returns (check: Check)
    modifies revocations
    ensures check == Fail(!IsHash64(capabilityHash), RevocationTargetMalformed)
    ensures revocations.revoked == old(revocations.revoked) + if check.None? then {capabilityHash} else {}
  {
    if !IsHash64(capabilityHash) { return Some(RevocationTargetMalformed); }
    revocations.Revoke(capabilityHash);
    check := None;
  }

  /** The token is derived from the consent: same parties, nothing wider, nothing longer. */
  ghost predicate Derived(p: Payload, consent: Consent) {
    && p.consentRef == consent.consentHash && consent.action == "grant"
    && p.subject == consent.subject && p.grantee == consent.grantee && p.marketMakerId == consent.marketMakerId
    && (forall e :: e in p.scope ==> e in consent.scope)
    && (forall a :: a in p.permissions ==> a in consent.permissions)
    && StrLe(consent.issuedAt, p.issuedAt)
    && (consent.expiresAt.Some? ==> StrLe(p.expiresAt, consent.expiresAt.value))
    && (p.notBefore.Some? ==> StrLe(consent.issuedAt, p.notBefore.value))
  }

  predicate InWindow(p: Payload, now: string) {
    StrLe(EffectiveStart(p), now) && StrLe(now, p.expiresAt)
  }

  lemma DerivationMeaning(p: Payload, consent: Consent)
    requires WellFormedPayload(p)
    ensures DerivationCheck(p, consent).None? <==> Derived(p, consent)
  {
    ScopeContainmentMeaning(p.scope, consent.scope);
    PermissionContainmentMeaning(p.permissions, consent.permissions);
    MakerMeaning(consent.marketMakerId, ParentMaker);
  }

  /** Verification succeeds exactly for a genuine token derived from its consent, inside its window, not
      revoked and not presented before. */
  lemma VerificationMeaning(crypto: Crypto, t: Token, consent: Consent, now: string, reg: Registries)
    requires SoundCrypto(crypto)
    ensures Verification(crypto, t, consent, now, reg).None? <==>
            && Genuine(crypto, t) && Derived(t.payload, consent) && InWindow(t.payload, now)
            && t.capabilityHash !in reg.revoked && t.payload.tokenId !in reg.seen
  {
    ValidationMeaning(crypto, t);
    if WellFormedPayload(t.payload) {
      DerivationMeaning(t.payload, consent);
    }
  }

  /** Reordering a token's scope and permissions changes nothing verification can see: same identifier,
      same hash, same verdict. */
  lemma OrderIsIrrelevant(crypto: Crypto, t: Token, u: Token, consent: Consent, now: string, reg: Registries)
    requires SoundCrypto(crypto)
    requires SameUpToOrder(t.payload, u.payload) && t.capabilityHash == u.capabilityHash
    ensures Verification(crypto, t, consent, now, reg).None? <==> Verification(crypto, u, consent, now, reg).None?
  {
    VerificationMeaning(crypto, t, consent, now, reg);
    VerificationMeaning(crypto, u, consent, now, reg);
    CanonicalIffSameUpToOrder(crypto.rank, t.payload, u.payload);
    SameElements(t.payload.scope, u.payload.scope);
    SameElements(t.payload.permissions, u.payload.permissions);
  }

  lemma SameElements<T(!new)>(s: seq<T>, t: seq<T>)
    requires multiset(s) == multiset(t)
    ensures forall x :: x in s <==> x in t
    ensures |s| == |t|
    ensures Distinct(s) <==> Distinct(t)
  {
    forall x ensures x in s <==> x in t {
      assert x in s <==> x in multiset(s);
      assert x in t <==> x in multiset(t);
    }
    assert |multiset(s)| == |s| && |multiset(t)| == |t|;
    if Distinct(s) { DistinctPermutation(s, t); }
    if Distinct(t) { DistinctPermutation(t, s); }
  }

  // ---------------------------------------------------------------- minting

  /** The parent's market maker is inherited; asking for another one, or for one of an unbound parent, fails. */
  function MakerDerivation(parent: Option<string>, requested: Option<string>): Check {
    if requested.None? || requested == parent then None
    else Some(if parent.Some? then MakerMismatch else MakerIntroduced)
  }

  /** The token `mintCapabilityToken` is about to check; `issuedAt` and `tokenId` come from the clock and
      the random source. */
  function Draft(
      consent: Consent, scope: seq<ScopeEntry>, permissions: seq<string>, expiresAt: string, notBefore: Option<string>,
      issuedAt: string, tokenId: string): Payload {
    Payload("1.0", consent.subject, consent.grantee, consent.consentHash, scope, permissions, consent.marketMakerId,
            issuedAt, notBefore, expiresAt, tokenId)
  }

  function MintCheck(p: Payload, consent: Consent, requestedMaker: Option<string>): Check {
    Then(Fail(consent.action != "grant", ParentNotGrant),
         Then(StructureCheck(p),
              Then(MakerCheck(requestedMaker, TokenMaker),
                   Then(MakerCheck(consent.marketMakerId, ParentMaker),
                        Then(StartCheck(p),
                             Then(MakerDerivation(consent.marketMakerId, requestedMaker),
                                  Then(OrderCheck(p), ContainmentCheck(p, consent))))))))
  }

  function ContainmentCheck(p: Payload, consent: Consent): Check {
    Then(LifetimeContainment(p, consent),
         Then(ScopeContainment(p.scope, consent.scope), PermissionContainment(p.permissions, consent.permissions)))
  }

  function Mint(
      crypto: Crypto, consent: Consent, scope: seq<ScopeEntry>, permissions: seq<string>, expiresAt: string,
      notBefore: Option<string>, requestedMaker: Option<string>, issuedAt: string, tokenId: string)
    : Result<Token, TokenError> {
    var p := Draft(consent, scope, permissions, expiresAt, notBefore, issuedAt, tokenId);
    match MintCheck(p, consent, requestedMaker)
    case Some(error) => Err(error)
    case None => Ok(Token(p, TokenHash(crypto, p)))
  }

  ghost predicate MayRequest(consent: Consent, requestedMaker: Option<string>) {
    requestedMaker.Some? ==> requestedMaker == consent.marketMakerId
  }

  lemma MintCheckMeaning(p: Payload, consent: Consent, requestedMaker: Option<string>)
    requires p.consentRef == consent.consentHash && p.subject == consent.subject && p.grantee == consent.grantee
    requires p.marketMakerId == consent.marketMakerId
    ensures MintCheck(p, consent, requestedMaker).None? <==>
            WellFormedPayload(p) && Derived(p, consent) && MayRequest(consent, requestedMaker)
  {
    PayloadMeaning(p);
    MakerMeaning(consent.marketMakerId, ParentMaker);
    MakerMeaning(requestedMaker, TokenMaker);
    MakerMeaning(p.marketMakerId, TokenMaker);
    if WellFormedPayload(p) {
      DerivationMeaning(p, consent);
    }
  }

  /** Minting succeeds exactly when what was asked for, with the parties, the hash and the market maker of the
      consent, is a well-formed payload derived from it; what it returns is that payload, genuine. */
  lemma MintMeaning(
      crypto: Crypto, consent: Consent, scope: seq<ScopeEntry>, permissions: seq<string>, expiresAt: string,
      notBefore: Option<string>, requestedMaker: Option<string>, issuedAt: string, tokenId: string)
    ensures var p := Payload("1.0", consent.subject, consent.grantee, consent.consentHash, scope, permissions,
                             consent.marketMakerId, issuedAt, notBefore, expiresAt, tokenId);
            var minted := Mint(crypto, consent, scope, permissions, expiresAt, notBefore, requestedMaker, issuedAt,
                               tokenId);
            && (minted.Ok? <==> WellFormedPayload(p) && Derived(p, consent) && MayRequest(consent, requestedMaker))
            && (minted.Ok? ==> minted.value.payload == p && Genuine(crypto, minted.value))
  {
    MintCheckMeaning(Draft(consent, scope, permissions, expiresAt, notBefore, issuedAt, tokenId), consent,
                     requestedMaker);
  }

  /** A minted token verifies against its consent exactly inside its window, once, until revoked. */
  lemma MintedVerifiesIff(
      crypto: Crypto, consent: Consent, scope: seq<ScopeEntry>, permissions: seq<string>, expiresAt: string,
      notBefore: Option<string>, requestedMaker: Option<string>, issuedAt: string, tokenId: string,
      now: string, reg: Registries)
    requires SoundCrypto(crypto)
    requires Mint(crypto, consent, scope, permissions, expiresAt, notBefore, requestedMaker, issuedAt, tokenId).Ok?
    ensures var t := Mint(crypto, consent, scope, permissions, expiresAt, notBefore, requestedMaker, issuedAt,
                          tokenId).value;
            Verification(crypto, t, consent, now, reg).None? <==>
            && StrLe(notBefore.GetOr(issuedAt), now) && StrLe(now, expiresAt)
            && tokenId !in reg.seen && t.capabilityHash !in reg.revoked
  {
    MintMeaning(crypto, consent, scope, permissions, expiresAt, notBefore, requestedMaker, issuedAt, tokenId);
    var t := Mint(crypto, consent, scope, permissions, expiresAt, notBefore, requestedMaker, issuedAt, tokenId).value;
    VerificationMeaning(crypto, t, consent, now, reg);
  }

  // ---------------------------------------------------------------- runs over shared registries

  datatype Command =
    | Verify(token: Token, consent: Consent, now: string)
    | Revoke(target: string)

  function Outcome(crypto: Crypto, reg: Registries, c: Command): Check {
    match c
    case Verify(t, consent, now) => Verification(crypto, t, consent, now, reg)
    case Revoke(target) => Fail(!IsHash64(target), RevocationTargetMalformed)
  }

  /** The verdict on a command, as a function of the registries. */
  type Judge = (Registries, Command) -> Check

  function Verdict(crypto: Crypto): Judge {
    (reg: Registries, c: Command) => Outcome(crypto, reg, c)
  }

  function Step(judge: Judge, reg: Registries, c: Command): Registries {
    if judge(reg, c).Some? then reg
    else
      match c
      case Verify(t, _, _) => reg.(seen := reg.seen + {t.payload.tokenId})
      case Revoke(target) => reg.(revoked := reg.revoked + {target})
  }

  function Run(judge: Judge, start: Registries, commands: seq<Command>): Registries {
    if commands == [] then start else Step(judge, Run(judge, start, DropLast(commands)), Last(commands))
  }

  /** The verdict on the i-th command of a run. */
  function OutcomeAt(judge: Judge, start: Registries, commands: seq<Command>, i: nat): Check
    requires i < |commands|
  {
    judge(Run(judge, start, commands[..i]), commands[i])
  }

  /** One call on the real registries is one step of a run. */
  method Execute(crypto: Crypto, c: Command, nonces: InMemoryNonceRegistry, revocations: InMemoryRevocationRegistry)
    returns (check: Check)
    modifies nonces, revocations
    ensures var before := Registries(old(nonces.seen), old(revocations.revoked));
            && check == Verdict(crypto)(before, c)
            && Registries(nonces.seen, revocations.revoked) == Step(Verdict(crypto), before, c)
  {
    match c
    case Verify(t, consent, now) =>
      check := VerifyCapabilityToken(crypto, t, consent, now, nonces, revocations);
    case Revoke(target) =>
      check := RevokeCapabilityToken(target, revocations);
  }

  predicate Presents(c: Command, tokenId: string) {
    c.Verify? && c.token.payload.tokenId == tokenId
  }

  ghost predicate AcceptedBefore(judge: Judge, start: Registries, commands: seq<Command>, tokenId: string, n: nat)
    requires n <= |commands|
  {
    exists k :: 0 <= k < n && Presents(commands[k], tokenId) && OutcomeAt(judge, start, commands, k).None?
  }

  ghost predicate ChecksTargets(judge: Judge) {
    forall reg, target :: judge(reg, Revoke(target)).None? <==> IsHash64(target)
  }

  /** What the registries hold after n commands, told from the history. */
  lemma {:induction false} RegistriesTellHistory(
      judge: Judge, start: Registries, commands: seq<Command>, tokenId: string, h: string, n: nat)
    requires ChecksTargets(judge) && n <= |commands|
    ensures tokenId in Run(judge, start, commands[..n]).seen <==>
            tokenId in start.seen || AcceptedBefore(judge, start, commands, tokenId, n)
    ensures h in Run(judge, start, commands[..n]).revoked <==>
            h in start.revoked || (IsHash64(h) && Revoke(h) in commands[..n])
  {
    if n > 0 {
      RegistriesTellHistory(judge, start, commands, tokenId, h, n - 1);
      assert DropLast(commands[..n]) == commands[..n - 1];
      assert commands[..n] == commands[..n - 1] + [commands[n - 1]];
    }
  }

  /** The verdict on a presentation in a run, from the history alone: the token is admissible then, nobody
      presented its identifier successfully before, and nobody revoked its hash before. */
  lemma AcceptedIff(crypto: Crypto, start: Registries, commands: seq<Command>, i: nat)
    requires SoundCrypto(crypto)
    requires i < |commands| && commands[i].Verify?
    ensures var t, consent, now := commands[i].token, commands[i].consent, commands[i].now;
            OutcomeAt(Verdict(crypto), start, commands, i).None? <==>
            && Genuine(crypto, t) && Derived(t.payload, consent) && InWindow(t.payload, now)
            && t.payload.tokenId !in start.seen && t.capabilityHash !in start.revoked
            && !AcceptedBefore(Verdict(crypto), start, commands, t.payload.tokenId, i)
            && Revoke(t.capabilityHash) !in commands[..i]
  {
    var t, consent, now := commands[i].token, commands[i].consent, commands[i].now;
    VerificationMeaning(crypto, t, consent, now, Run(Verdict(crypto), start, commands[..i]));
    RegistriesTellHistory(Verdict(crypto), start, commands, t.payload.tokenId, t.capabilityHash, i);
  }

  /** In any run a token identifier is accepted at most once. */
  lemma AcceptedAtMostOnce(crypto: Crypto, start: Registries, commands: seq<Command>, i: nat, j: nat)
    requires SoundCrypto(crypto)
    requires i < j < |commands| && commands[i].Verify?
    requires Presents(commands[j], commands[i].token.payload.tokenId)
    ensures OutcomeAt(Verdict(crypto), start, commands, i).Some? || OutcomeAt(Verdict(crypto), start, commands, j).Some?
  {
    AcceptedIff(crypto, start, commands, j);
  }

  /** In any run nothing is accepted after its hash was revoked; the token may have been reordered since. */
  lemma NeverAfterRevocation(crypto: Crypto, start: Registries, commands: seq<Command>, t: Token, i: nat, j: nat)
    requires SoundCrypto(crypto)
    requires i < j < |commands| && commands[i] == Revoke(t.capabilityHash) && commands[j].Verify?
    requires SameUpToOrder(t.payload, commands[j].token.payload) && Genuine(crypto, t)
    ensures OutcomeAt(Verdict(crypto), start, commands, j).Some?
  {
    AcceptedIff(crypto, start, commands, j);
    CanonicalIffSameUpToOrder(crypto.rank, t.payload, commands[j].token.payload);
    assert commands[i] in commands[..j];
  }
}
