/** The auth service's shared maps, changed in place under its mutex. */
module AuthService {
  import opened Wrappers
  import R = RefreshRotation
  import B = Blacklist

  class Service {
    const accessTTL: int
    const refreshTTL: int
    var refreshSessions: map<string, R.Session>
    var revokedAccessJWT: map<string, B.Time>

    /** Non-positive lifetimes are replaced by an hour and by seven days, in nanoseconds. */
    constructor (accessTTL: int, refreshTTL: int)
      ensures this.accessTTL == (if accessTTL <= 0 then 3_600_000_000_000 else accessTTL)
      ensures this.refreshTTL == (if refreshTTL <= 0 then 604_800_000_000_000 else refreshTTL)
      ensures refreshSessions == map[] && revokedAccessJWT == map[]
    {
      this.accessTTL := if accessTTL <= 0 then 3_600_000_000_000 else accessTTL;
      this.refreshTTL := if refreshTTL <= 0 then 604_800_000_000_000 else refreshTTL;
      refreshSessions, revokedAccessJWT := map[], map[];
    }

    /** The loop visits the tokens in any order and deletes while it does. */
    method PruneRevokedLocked(now: B.Time)
      modifies this`revokedAccessJWT
      ensures revokedAccessJWT == B.Pruned(old(revokedAccessJWT), now)
    {
      var rest := revokedAccessJWT.Keys;
      while rest != {}
        invariant rest <= revokedAccessJWT.Keys <= old(revokedAccessJWT).Keys
        invariant forall t :: t in revokedAccessJWT ==> revokedAccessJWT[t] == old(revokedAccessJWT)[t]
        invariant forall t :: t in old(revokedAccessJWT) && t !in rest ==>
          (t in revokedAccessJWT <==> !(now > old(revokedAccessJWT)[t]))
        decreases |rest|
      {
        var token :| token in rest;
        if now > revokedAccessJWT[token] {
          revokedAccessJWT := revokedAccessJWT - {token};
        }
        rest := rest - {token};
      }
    }

    /** Refresh up to the release of the lock; the clock is read once for the pruning and once more. */
    method RefreshLocked(refreshToken: string, pruneTime: int, now: int) returns (verdict: R.Verdict)
      modifies this`refreshSessions, this`revokedAccessJWT
      ensures revokedAccessJWT == B.Pruned(old(revokedAccessJWT), pruneTime)
      ensures verdict == R.RefreshVerdict(old(refreshSessions), refreshToken, now)
      ensures refreshSessions == R.AfterRefresh(old(refreshSessions), refreshToken)
    {
      PruneRevokedLocked(pruneTime);
      if refreshToken !in refreshSessions { return R.InvalidToken; }
      var session := refreshSessions[refreshToken];
      if session.revoked {
        assert refreshSessions[refreshToken := session] == refreshSessions;
        return R.TokenRevoked;
      }
      if now > session.expiresAt {
        session := session.(revoked := true);
        refreshSessions := refreshSessions[refreshToken := session];
        return R.TokenExpired;
      }
      session := session.(revoked := true);
      refreshSessions := refreshSessions[refreshToken := session];
      verdict := R.Redeemed(session.identity);
    }

    /** newTokenPair after both tokens have been made. */
    method StoreSession(identity: R.Identity, refreshToken: string, now: int)
      modifies this`refreshSessions
      ensures refreshSessions
              == old(refreshSessions)[refreshToken := R.Session(identity, now + refreshTTL, false)]
    {
      refreshSessions := refreshSessions[refreshToken := R.Session(identity, now + refreshTTL, false)];
    }

    method Logout(decode: B.Decoder, accessToken: string, now: B.Time) returns (ok: bool)
      modifies this`revokedAccessJWT
      ensures ok <==> B.Parse(decode, accessToken, now).Some?
      ensures revokedAccessJWT == match B.Parse(decode, accessToken, now)
                                  case None => old(revokedAccessJWT)
                                  case Some(exp) => old(revokedAccessJWT)[accessToken := exp]
    {
      var claims := B.Parse(decode, accessToken, now);
      if claims.None? { return false; }
      revokedAccessJWT := revokedAccessJWT[accessToken := claims.value];
      ok := true;
    }

    method ValidateAccessToken(decode: B.Decoder, accessToken: string, check: B.Time, prune: B.Time, parse: B.Time)
      returns (answer: B.Answer)
      modifies this`revokedAccessJWT
      ensures B.Blacklisted(old(revokedAccessJWT), accessToken, check) ==>
        answer == B.Revoked && revokedAccessJWT == old(revokedAccessJWT)
      ensures !B.Blacklisted(old(revokedAccessJWT), accessToken, check) ==>
        answer == B.ParseAnswer(decode, accessToken, parse)
        && revokedAccessJWT == B.Pruned(old(revokedAccessJWT), prune)
    {
      if accessToken in revokedAccessJWT && check < revokedAccessJWT[accessToken] {
        return B.Revoked;
      }
      PruneRevokedLocked(prune);
      answer := B.ParseAnswer(decode, accessToken, parse);
    }
  }
}
