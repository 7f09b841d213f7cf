/** The set-backed registries behind single use and revocation (capability/registries). */
module TokenRegistries {
  class InMemoryNonceRegistry {
    var seen: set<string>

    constructor ()
      ensures seen == {}
    {
      seen := {};
    }

    method HasSeen(tokenId: string) returns (found: bool)
      ensures found <==> tokenId in seen
    {
      found := tokenId in seen;
    }

    method MarkSeen(tokenId: string)
      modifies this
      ensures seen == old(seen) + {tokenId}
    {
      seen := seen + {tokenId};
    }

    /** Keeps every identifier: nothing is ever forgotten on expiry. */
    method Cleanup()
      ensures seen == old(seen)
    {
    }
  }

  class InMemoryRevocationRegistry {
    var revoked: set<string>

    constructor ()
      ensures revoked == {}
    {
      revoked := {};
    }

    method IsRevoked(capabilityHash: string) returns (found: bool)
      ensures found <==> capabilityHash in revoked
    {
      found := capabilityHash in revoked;
    }

    method Revoke(capabilityHash: string)
      modifies this
      ensures revoked == old(revoked) + {capabilityHash}
    {
      revoked := revoked + {capabilityHash};
    }
  }
}
