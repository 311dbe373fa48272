/**
 * The blacklist of revoked access tokens, keyed by token id (jti), each
 * entry kept until its expiry instant. Instants are ticks; the current
 * instant is passed in.
 */
module TokenBlacklist {

  /** Whether the entries hold the token as revoked at the instant. */
  predicate IsRevoked(tokens: map<string, int>, jti: string, now: int) {
    jti in tokens && now < tokens[jti]
  }

  /** The entries left after a check of the token: an expired entry for it is dropped. */
  function AfterCheck(tokens: map<string, int>, jti: string, now: int): (after: map<string, int>)
    ensures after.Keys <= tokens.Keys
    ensures forall k :: k in after ==> after[k] == tokens[k]
    ensures forall k :: k in tokens && k != jti ==> k in after
    ensures jti in after <==> IsRevoked(tokens, jti, now)
  {
    if jti in tokens && !(now < tokens[jti]) then tokens - {jti} else tokens
  }

  class TokenBlacklistService {
    var blacklistedTokens: map<string, int>

    constructor ()
      ensures blacklistedTokens == map[]
    {
      blacklistedTokens := map[];
    }

    /** Revokes the token until the expiry, replacing any earlier expiry for it. */
    method BlacklistToken(jti: string, expiresAt: int)
      modifies this
      ensures blacklistedTokens == old(blacklistedTokens)[jti := expiresAt]
    {
      blacklistedTokens := blacklistedTokens[jti := expiresAt];
    }

    /** Whether the token is revoked now; an expired entry for it is removed on the way. */
    method IsTokenBlacklisted(jti: string, now: int) returns (blacklisted: bool)
      modifies this
      ensures blacklisted == IsRevoked(old(blacklistedTokens), jti, now)
      ensures blacklistedTokens == AfterCheck(old(blacklistedTokens), jti, now)
    {
      if jti in blacklistedTokens {
        var exp := blacklistedTokens[jti];
        if now < exp {
          return true;
        } else {
          blacklistedTokens := blacklistedTokens - {jti};
          return false;
        }
      }
      return false;
    }
  }

  /** A token just revoked is reported revoked exactly until its expiry; other tokens are unaffected. */
  lemma RevokedUntilExpiry(tokens: map<string, int>, jti: string, expiresAt: int, other: string, now: int)
    ensures IsRevoked(tokens[jti := expiresAt], jti, now) <==> now < expiresAt
    ensures other != jti ==> IsRevoked(tokens[jti := expiresAt], other, now) == IsRevoked(tokens, other, now)
  {
  }

  /** A check never changes the answer for any token at that instant or later. */
  lemma CheckKeepsAnswers(tokens: map<string, int>, jti: string, now: int, k: string, later: int)
    requires now <= later
    ensures IsRevoked(AfterCheck(tokens, jti, now), k, later) == IsRevoked(tokens, k, later)
  {
  }
}
