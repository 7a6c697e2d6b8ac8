/**
 * How the two generations of handlers differ on the same request: the
 * earlier VerifyToken (internal/grpc/server/auth.go) does not require the
 * "Bearer " prefix, the current one (internal/grpc/server/authentication.go)
 * does.
 */
module Generations {
  import opened Wrappers
  import opened Rpc
  import Helper
  import Authentication
  import LegacyAuth

  /**
   * A bare token (no "Bearer " prefix) reaches the parser in the legacy
   * VerifyToken, while the current VerifyToken rejects it before parsing.
   */
  lemma BareTokenReachesOnlyLegacyParser(legacy: LegacyAuth.AuthServer, current: Authentication.AuthenticationServer,
                                         token: string, now: int)
    requires !CutPrefix(token, HeaderBearerPrefix).1
    ensures |legacy.VerifyToken(LegacyAuth.BareHeader(token), now).calls| > 0
    ensures legacy.VerifyToken(LegacyAuth.BareHeader(token), now).calls[0] == ParseCall(token)
    ensures current.VerifyToken(LegacyAuth.BareHeader(token), now, None) == Outcome(Err(Authentication.Unauthorized), [])
  {
    LegacyAuth.HeaderTokenOfBare(token);
    assert Helper.GetGRPCMetadataValue(LegacyAuth.BareHeader(token), HeaderAuthorization) == (token, true);
  }
}
