/** The outside world as the protocol code sees it. */
module Environment {
  import opened Wrappers
  import opened Text
  import opened Scope

  datatype HashPayload = HashPayload(
    parentConsentHash: string, subject: string, grantee: string, scope: seq<ScopeEntry>, permissions: seq<string>,
    issuedAt: string, expiresAt: string, notBefore: Option<string>, marketMakerId: Option<string>)

  /** `hash` is SHA-256 in hex of the canonical JSON; `parseDate` is `Date.parse` in milliseconds, `None` for
      NaN; `iso` is `toISOString`; `rank` is the locale's character ranking behind `localeCompare`. */
  datatype Env = Env(
    hash: HashPayload -> string,
    parseDate: string -> Option<int>,
    iso: int -> string,
    rank: Ranking)

  ghost predicate Sound(env: Env) {
    && Injective(env.rank)
    && forall p :: IsHash64(env.hash(p))
  }

  datatype RevocationStatus = VerifiedNotRevoked | Revoked | Unknown

  /** A revocation port that may throw or answer without a status string; both are `None` here. A status string is
      one of the three: any other would pass both tests of the code, and count as not revoked. */
  type RevocationPort = string -> Option<RevocationStatus>

  function Resolve(port: RevocationPort, subjectId: string): RevocationStatus {
    match port(subjectId)
    case Some(status) => status
    case None => Unknown
  }
}
