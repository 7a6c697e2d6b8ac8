/**
 * The four request flows of the current authentication server
 * (internal/grpc/server/authentication.go): Register, Login, VerifyToken
 * and Logout. The user service and the token manager are injected
 * dependencies. Each flow reports, beside its result, the dependency
 * calls it made in order, so that "Y is never called" can be stated.
 */
module Authentication {
  import opened Wrappers
  import opened Rpc
  import Grpc
  import GoTime
  import Helper
  import Jose
  import UserClient
  import TokenManager
  import RevocationStore

  const RegisterRpcTokenError: string :=
    "User successfully registered, but there was a problem creating the authentication token. Please try manual login."
  const MessageOK: string := "Success"
  const MessageUnauthorized: string := "Unauthorized"
  const MessageInternalServerError: string := "Internal Server Error"

  const Unauthorized: Grpc.Status := Grpc.Status(Grpc.Unauthenticated, MessageUnauthorized)

  /**
   * The bearer token of a request: the first `authorization` value (the
   * empty string when there is none) with the exact prefix "Bearer " cut
   * off, and whether that prefix was there.
   */
  function BearerToken(md: Grpc.Metadata): (r: (string, bool))
    ensures var h := Helper.GetGRPCMetadataValue(md, HeaderAuthorization).0;
      r.1 <==> |HeaderBearerPrefix| <= |h| && h[..|HeaderBearerPrefix|] == HeaderBearerPrefix
    ensures r.1 ==> r.0 == Helper.GetGRPCMetadataValue(md, HeaderAuthorization).0[|HeaderBearerPrefix|..]
    ensures r.1 ==> Helper.GetGRPCMetadataValue(md, HeaderAuthorization).0 == HeaderBearerPrefix + r.0
    ensures !Helper.GetGRPCMetadataValue(md, HeaderAuthorization).1 ==> !r.1
  {
    var (header, _) := Helper.GetGRPCMetadataValue(md, HeaderAuthorization);
    CutPrefix(header, HeaderBearerPrefix)
  }

  /** A request whose one `authorization` value is "Bearer <token>" carries that token. */
  lemma BearerTokenOfHeader(token: string)
    ensures BearerToken(map[HeaderAuthorization := [HeaderBearerPrefix + token]]) == (token, true)
  {
    var md := map[HeaderAuthorization := [HeaderBearerPrefix + token]];
    AuthorizationValues([HeaderBearerPrefix + token]);
    assert Helper.GetGRPCMetadataValue(md, HeaderAuthorization) == (HeaderBearerPrefix + token, true);
    CutPrefixOfConcat(HeaderBearerPrefix, token);
  }

  class AuthenticationServer {
    const users: UserClient.Upstream
    const tokens: TokenManager.JwtManager

    constructor (users: UserClient.Upstream, tokens: TokenManager.JwtManager)
      ensures this.users == users && this.tokens == tokens
    {
      this.users := users;
      this.tokens := tokens;
    }

    /**
     * Register: create the account upstream, then mint a token for its id
     * and email. An upstream error is returned as it is and no token is
     * minted; a minting failure after the account exists is an Internal
     * error with the distinguished "registered, but" message.
     */
    function Register(name: string, email: string, password: string, now: int, jti: string)
      : (o: Outcome<Session>)
      ensures var req := UserClient.StoreRequest(name, email, password);
        var up := users.store(req);
        && (up.err.Some? ==> o == Outcome(Err(up.err.value), [StoreCall(req)]))
        && (up.err.None? ==>
              var u := up.response.value;
              var tok := tokens.NewToken(u.id, u.email, now, jti);
              && o.calls == [StoreCall(req), NewTokenCall(u.id, u.email)]
              && (tok.Err? ==> o.result == Err(Grpc.Status(Grpc.Internal, RegisterRpcTokenError)))
              && (tok.Ok? ==> o.result == Ok(Response(MessageOK, Session(tok.value, u)))))
    {
      var req := UserClient.StoreRequest(name, email, password);
      var stored := UserClient.Store(users, req);
      if stored.err.Some? then Outcome(Err(stored.err.value), [StoreCall(req)])
      else
        var user := stored.response.value;
        var calls := [StoreCall(req), NewTokenCall(user.id, user.email)];
        match tokens.NewToken(user.id, user.email, now, jti)
        case Err(_) => Outcome(Err(Grpc.Status(Grpc.Internal, RegisterRpcTokenError)), calls)
        case Ok(token) => Outcome(Ok(Response(MessageOK, Session(token, user))), calls)
    }

    /**
     * Login: look the credential up upstream, then mint a token for the
     * user's id and name. A lookup error is returned as it is; a minting
     * failure is Unauthenticated.
     */
    function Login(email: string, password: string, now: int, jti: string): (o: Outcome<Session>)
      ensures var req := UserClient.FindByCredentialRequest(email, password);
        var up := users.findByCredential(req);
        && (up.err.Some? ==> o == Outcome(Err(up.err.value), [FindByCredentialCall(req)]))
        && (up.err.None? ==>
              var u := up.response.value;
              var tok := tokens.NewToken(u.id, u.name, now, jti);
              && o.calls == [FindByCredentialCall(req), NewTokenCall(u.id, u.name)]
              && (tok.Err? ==> o.result == Err(Grpc.Status(Grpc.Unauthenticated, MessageInternalServerError)))
              && (tok.Ok? ==> o.result == Ok(Response(MessageOK, Session(tok.value, u)))))
    {
      var req := UserClient.FindByCredentialRequest(email, password);
      var found := UserClient.FindByCredential(users, req);
      if found.err.Some? then Outcome(Err(found.err.value), [FindByCredentialCall(req)])
      else
        var user := found.response.value;
        var calls := [FindByCredentialCall(req), NewTokenCall(user.id, user.name)];
        match tokens.NewToken(user.id, user.name, now, jti)
        case Err(_) => Outcome(Err(Grpc.Status(Grpc.Unauthenticated, MessageInternalServerError)), calls)
        case Ok(token) => Outcome(Ok(Response(MessageOK, Session(token, user))), calls)
    }

    /**
     * VerifyToken at second `now`: bearer prefix, then parse, then the
     * revocation check (whose store call may fail with `fault`), then a
     * fresh lookup of the claimed user id.
     */
    function VerifyToken(md: Grpc.Metadata, now: int, fault: Option<Grpc.Error>): (o: Outcome<UserClient.User>)
      reads tokens.store
      ensures !BearerToken(md).1 ==> o == Outcome(Err(Unauthorized), [])
      ensures BearerToken(md).1 ==>
        var token := BearerToken(md).0;
        var parsed := tokens.ParseToken(token, now);
        && (parsed.Err? ==> o == Outcome(Err(Unauthorized), [ParseCall(token)]))
        && (parsed.Ok? && tokens.IsBlacklisted(parsed.value.jti, now, fault) ==>
              o == Outcome(Err(Unauthorized), [ParseCall(token), BlacklistCall(parsed.value.jti)]))
        && (parsed.Ok? && !tokens.IsBlacklisted(parsed.value.jti, now, fault) ==>
              var req := UserClient.FindByIdRequest(parsed.value.id);
              var up := users.findById(req);
              && o.calls == [ParseCall(token), BlacklistCall(parsed.value.jti), FindByIdCall(req)]
              && (up.err.Some? ==> o.result == Err(Grpc.Status(Grpc.Internal, MessageUnauthorized)))
              && (up.err.None? ==> o.result == Ok(Response(MessageOK, up.response.value))))
    {
      var (token, found) := BearerToken(md);
      if !found then Outcome(Err(Unauthorized), [])
      else match tokens.ParseToken(token, now)
        case Err(_) => Outcome(Err(Unauthorized), [ParseCall(token)])
        case Ok(claims) =>
          if tokens.IsBlacklisted(claims.jti, now, fault) then
            Outcome(Err(Unauthorized), [ParseCall(token), BlacklistCall(claims.jti)])
          else
            var req := UserClient.FindByIdRequest(claims.id);
            var calls := [ParseCall(token), BlacklistCall(claims.jti), FindByIdCall(req)];
            var user := UserClient.FindById(users, req);
            if user.err.Some? then Outcome(Err(Grpc.Status(Grpc.Internal, MessageUnauthorized)), calls)
            else Outcome(Ok(Response(MessageOK, user.response.value)), calls)
    }

    /**
     * Logout at second `now`: bearer prefix, then parse, then revoke the
     * token's `jti` until its `exp` (the store write may fail with
     * `fault`). There is no revocation check before revoking.
     */
    method Logout(md: Grpc.Metadata, now: int, fault: Option<Grpc.Error>) returns (o: Outcome<Acknowledgement>)
      modifies tokens.store
      ensures !BearerToken(md).1 ==> o == Outcome(Err(Unauthorized), []) && unchanged(tokens.store)
      ensures BearerToken(md).1 ==>
        var token := BearerToken(md).0;
        var parsed := tokens.ParseToken(token, now);
        && (parsed.Err? ==> o == Outcome(Err(Unauthorized), [ParseCall(token)]) && unchanged(tokens.store))
        && (parsed.Ok? ==>
              var c := parsed.value;
              && o.calls == [ParseCall(token), RevokeCall(c.jti, c.exp)]
              && (fault.Some? ==>
                    && o.result == Err(Grpc.Status(Grpc.Internal, MessageInternalServerError))
                    && tokens.store.entries == old(tokens.store.entries))
              && (fault.None? ==>
                    && o.result == Ok(Response(MessageOK, Acknowledgement))
                    && tokens.store.entries == TokenManager.AfterRevocation(old(tokens.store.entries), c.jti, c.exp, now)))
    {
      var (token, found) := BearerToken(md);
      if !found {
        return Outcome(Err(Unauthorized), []);
      }
      var parsed := tokens.ParseToken(token, now);
      if parsed.Err? {
        return Outcome(Err(Unauthorized), [ParseCall(token)]);
      }
      var claims := parsed.value;
      var calls := [ParseCall(token), RevokeCall(claims.jti, claims.exp)];
      var err := tokens.AddToBlacklist(claims.jti, claims.exp, now, fault);
      if err.Some? {
        return Outcome(Err(Grpc.Status(Grpc.Internal, MessageInternalServerError)), calls);
      }
      o := Outcome(Ok(Response(MessageOK, Acknowledgement)), calls);
    }

    /**
     * Logout with the revocation check that the "blacklisted token" case
     * of internal/grpc/server/authentication_test.go expects: a token already on the list is rejected as Unauthenticated
     * before anything is written (`getFault` for the check, `setFault`
     * for the write).
     */
    method LogoutChecked(md: Grpc.Metadata, now: int, getFault: Option<Grpc.Error>, setFault: Option<Grpc.Error>)
      returns (o: Outcome<Acknowledgement>)
      modifies tokens.store
      ensures !BearerToken(md).1 ==> o == Outcome(Err(Unauthorized), []) && unchanged(tokens.store)
      ensures BearerToken(md).1 ==>
        var token := BearerToken(md).0;
        var parsed := tokens.ParseToken(token, now);
        && (parsed.Err? ==> o == Outcome(Err(Unauthorized), [ParseCall(token)]) && unchanged(tokens.store))
        && (parsed.Ok? && old(tokens.IsBlacklisted(parsed.value.jti, now, getFault)) ==>
              && o == Outcome(Err(Unauthorized), [ParseCall(token), BlacklistCall(parsed.value.jti)])
              && unchanged(tokens.store))
        && (parsed.Ok? && !old(tokens.IsBlacklisted(parsed.value.jti, now, getFault)) ==>
              var c := parsed.value;
              && o.calls == [ParseCall(token), BlacklistCall(c.jti), RevokeCall(c.jti, c.exp)]
              && (setFault.Some? ==>
                    && o.result == Err(Grpc.Status(Grpc.Internal, MessageInternalServerError))
                    && tokens.store.entries == old(tokens.store.entries))
              && (setFault.None? ==>
                    && o.result == Ok(Response(MessageOK, Acknowledgement))
                    && tokens.store.entries == TokenManager.AfterRevocation(old(tokens.store.entries), c.jti, c.exp, now)))
    {
      var (token, found) := BearerToken(md);
      if !found {
        return Outcome(Err(Unauthorized), []);
      }
      var parsed := tokens.ParseToken(token, now);
      if parsed.Err? {
        return Outcome(Err(Unauthorized), [ParseCall(token)]);
      }
      var claims := parsed.value;
      if tokens.IsBlacklisted(claims.jti, now, getFault) {
        return Outcome(Err(Unauthorized), [ParseCall(token), BlacklistCall(claims.jti)]);
      }
      var calls := [ParseCall(token), BlacklistCall(claims.jti), RevokeCall(claims.jti, claims.exp)];
      var err := tokens.AddToBlacklist(claims.jti, claims.exp, now, setFault);
      if err.Some? {
        return Outcome(Err(Grpc.Status(Grpc.Internal, MessageInternalServerError)), calls);
      }
      o := Outcome(Ok(Response(MessageOK, Acknowledgement)), calls);
    }
  }
  /** Register mints a token exactly when the account was created, and then only a minting failure can fail it. */
  lemma RegisterMintsOnlyForCreatedAccount(s: AuthenticationServer, name: string, email: string,
                                           password: string, now: int, jti: string)
    ensures var o := s.Register(name, email, password, now, jti);
      var up := s.users.store(UserClient.StoreRequest(name, email, password));
      && (|o.calls| == 2 <==> up.err.None?)
      && (up.err.None? && o.result.Err? ==> o.result.error == Grpc.Status(Grpc.Internal, RegisterRpcTokenError))
  {
  }

  /**
   * A token issued by Login, presented as "Bearer <token>" before its
   * expiry and not revoked, passes VerifyToken's parse and revocation
   * checks and is looked up under the id it was issued for.
   */
  lemma LoginThenVerify(s: AuthenticationServer, email: string, password: string, now: int, jti: string, t: int)
    requires Jose.Lawful(s.tokens.lib)
    requires s.Login(email, password, now, jti).result.Ok?
    requires t < GoTime.AddUnix(now, s.tokens.expiry)
    requires !RevocationStore.Live(s.tokens.store.entries, TokenManager.BlacklistKey(jti), t)
    ensures var session := s.Login(email, password, now, jti).result.value.data;
      var req := UserClient.FindByIdRequest(session.user.id);
      var v := s.VerifyToken(map[HeaderAuthorization := [HeaderBearerPrefix + session.token]], t, None);
      && v.calls == [ParseCall(session.token), BlacklistCall(jti), FindByIdCall(req)]
      && (s.users.findById(req).err.None? ==> v.result == Ok(Response(MessageOK, s.users.findById(req).response.value)))
  {
    var up := s.users.findByCredential(UserClient.FindByCredentialRequest(email, password));
    var u := up.response.value;
    var session := s.Login(email, password, now, jti).result.value.data;
    BearerTokenOfHeader(session.token);
    TokenManager.NewTokenRoundTrip(s.tokens, u.id, u.name, now, jti, t);
  }

  /**
   * Once Logout has written a token's revocation at `now`, VerifyToken
   * rejects that token at every later second, before any user lookup.
   */
  lemma VerifyAfterRevocation(s: AuthenticationServer, md: Grpc.Metadata, before: RevocationStore.Entries,
                              now: int, t: int)
    requires BearerToken(md).1 && s.tokens.ParseToken(BearerToken(md).0, t).Ok?
    requires var c := s.tokens.ParseToken(BearerToken(md).0, t).value;
      s.tokens.store.entries == TokenManager.AfterRevocation(before, c.jti, c.exp, now)
    requires now <= t
    ensures var c := s.tokens.ParseToken(BearerToken(md).0, t).value;
      s.VerifyToken(md, t, None) == Outcome(Err(Unauthorized), [ParseCall(BearerToken(md).0), BlacklistCall(c.jti)])
  {
    var c := s.tokens.ParseToken(BearerToken(md).0, t).value;
    TokenManager.RevokedTokenListed(s.tokens, BearerToken(md).0, c, before, now, t);
  }

  /**
   * Once the revocation of a token that parsed at `now` is written,
   * VerifyToken rejects that token at every later second without looking
   * the user up, whether or not it still parses then.
   */
  lemma RevokedTokenRejected(s: AuthenticationServer, md: Grpc.Metadata, before: RevocationStore.Entries,
                             now: int, t: int)
    requires BearerToken(md).1 && s.tokens.ParseToken(BearerToken(md).0, now).Ok?
    requires var c := s.tokens.ParseToken(BearerToken(md).0, now).value;
      s.tokens.store.entries == TokenManager.AfterRevocation(before, c.jti, c.exp, now)
    requires now <= t
    ensures var token := BearerToken(md).0;
      var jti := s.tokens.ParseToken(token, now).value.jti;
      || s.VerifyToken(md, t, None) == Outcome(Err(Unauthorized), [ParseCall(token)])
      || s.VerifyToken(md, t, None) == Outcome(Err(Unauthorized), [ParseCall(token), BlacklistCall(jti)])
  {
    var token := BearerToken(md).0;
    if s.tokens.ParseToken(token, t).Ok? {
      TokenManager.ParseTokenStable(s.tokens, token, now, t);
      VerifyAfterRevocation(s, md, before, now, t);
    } else {
      VerifyUnparsed(s, md, t, None);
    }
  }

  /** A token that does not parse is rejected after the parse alone. */
  lemma VerifyUnparsed(s: AuthenticationServer, md: Grpc.Metadata, t: int, fault: Option<Grpc.Error>)
    requires BearerToken(md).1 && s.tokens.ParseToken(BearerToken(md).0, t).Err?
    ensures s.VerifyToken(md, t, fault) == Outcome(Err(Unauthorized), [ParseCall(BearerToken(md).0)])
  {
  }

  /** Logging out with a token and then verifying it at any later second is rejected. */
  method LogoutThenVerify(s: AuthenticationServer, md: Grpc.Metadata, now: int, t: int)
    returns (logout: Outcome<Acknowledgement>, verify: Outcome<UserClient.User>)
    requires BearerToken(md).1 && s.tokens.ParseToken(BearerToken(md).0, now).Ok?
    requires now <= t
    modifies s.tokens.store
    ensures logout.result.Ok?
    ensures verify.result == Err(Unauthorized)
    ensures var token := BearerToken(md).0;
      || verify.calls == [ParseCall(token)]
      || verify.calls == [ParseCall(token), BlacklistCall(s.tokens.ParseToken(token, now).value.jti)]
  {
    ghost var before := s.tokens.store.entries;
    ghost var token := BearerToken(md).0;
    ghost var c := s.tokens.ParseToken(token, now).value;
    logout := s.Logout(md, now, None);
    assert s.tokens.store.entries == TokenManager.AfterRevocation(before, c.jti, c.exp, now);
    RevokedTokenRejected(s, md, before, now, t);
    verify := s.VerifyToken(md, t, None);
  }

  /** As written, a second Logout with an already revoked token still reports Success. */
  method LogoutRevokedTokenAgain(s: AuthenticationServer, md: Grpc.Metadata, now: int)
    returns (first: Outcome<Acknowledgement>, second: Outcome<Acknowledgement>)
    requires BearerToken(md).1 && s.tokens.ParseToken(BearerToken(md).0, now).Ok?
    modifies s.tokens.store
    ensures first.result.Ok? && second.result.Ok?
    ensures s.tokens.IsBlacklisted(s.tokens.ParseToken(BearerToken(md).0, now).value.jti, now, None)
  {
    ghost var token := BearerToken(md).0;
    ghost var c := s.tokens.ParseToken(token, now).value;
    first := s.Logout(md, now, None);
    ghost var between := s.tokens.store.entries;
    second := s.Logout(md, now, None);
    assert s.tokens.store.entries == TokenManager.AfterRevocation(between, c.jti, c.exp, now);
    TokenManager.RevokedTokenListed(s.tokens, token, c, between, now, now);
  }

  /** With the revocation check, the second Logout is rejected and writes nothing. */
  method LogoutCheckedRejectsRevoked(s: AuthenticationServer, md: Grpc.Metadata, now: int)
    returns (first: Outcome<Acknowledgement>, second: Outcome<Acknowledgement>)
    requires BearerToken(md).1 && s.tokens.ParseToken(BearerToken(md).0, now).Ok?
    requires !s.tokens.IsBlacklisted(s.tokens.ParseToken(BearerToken(md).0, now).value.jti, now, None)
    modifies s.tokens.store
    ensures first.result.Ok?
    ensures second.result == Err(Unauthorized)
  {
    ghost var before := s.tokens.store.entries;
    ghost var c := s.tokens.ParseToken(BearerToken(md).0, now).value;
    first := s.LogoutChecked(md, now, None, None);
    TokenManager.RevokedTokenListed(s.tokens, BearerToken(md).0, c, before, now, now);
    second := s.LogoutChecked(md, now, None, None);
  }
}
