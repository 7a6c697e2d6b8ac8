/**
 * The first-generation request handlers (internal/grpc/server/auth.go):
 * Login, VerifyToken and Logout over the legacy token helpers. VerifyToken
 * strips "Bearer " when present but does not require it and has no
 * revocation check; Logout does nothing and always succeeds. The user
 * service client and the JWT configuration, process-wide globals in the
 * source, are fields of the server value.
 */
module LegacyAuth {
  import opened Wrappers
  import Grpc
  import Jose
  import UserClient
  import LegacyJwt
  import opened Rpc

  const MessageSuccess: string := "Success"
  const Unauthenticated: Grpc.Status := Grpc.Status(Grpc.Unauthenticated, "Unauthenticated")
  const ServerError: Grpc.Status := Grpc.Status(Grpc.Internal, "Server error")

  /** The legacy token's text: the first `authorization` value with a leading "Bearer " cut if there is one. */
  function HeaderToken(md: Grpc.Metadata): (r: Option<string>)
    ensures r.None? <==> |Grpc.MdGet(md, HeaderAuthorization)| == 0
    ensures r.Some? ==>
      var v := Grpc.MdGet(md, HeaderAuthorization)[0];
      && (|HeaderBearerPrefix| <= |v| && v[..|HeaderBearerPrefix|] == HeaderBearerPrefix ==>
            r.value == v[|HeaderBearerPrefix|..])
      && (!(|HeaderBearerPrefix| <= |v| && v[..|HeaderBearerPrefix|] == HeaderBearerPrefix) ==>
            r.value == v)
  {
    var values := Grpc.MdGet(md, HeaderAuthorization);
    if |values| == 0 then None
    else Some(CutPrefix(values[0], HeaderBearerPrefix).0)
  }

  datatype AuthServer = AuthServer(
    users: UserClient.Upstream,
    lib: Jose.Library<LegacyJwt.LegacyClaims>,
    cfg: LegacyJwt.Config)
  {
    /**
     * Login: look the credential up; a lookup error is returned as it is;
     * mint a legacy token for the user's id and name; a minting failure is
     * Unauthenticated.
     */
    function Login(email: string, password: string, now: int): (o: Outcome<Session>)
      ensures var req := UserClient.FindByCredentialRequest(email, password);
        var up := users.findByCredential(req);
        && (up.err.Some? ==> o == Outcome(Err(up.err.value), [FindByCredentialCall(req)]))
        && (up.err.None? ==>
              var u := up.response.value;
              var tok := LegacyJwt.Createjwt(lib, cfg, u.id, u.name, now);
              && o.calls == [FindByCredentialCall(req), NewTokenCall(u.id, u.name)]
              && (tok.Err? ==> o.result == Err(Unauthenticated))
              && (tok.Ok? ==> o.result == Ok(Response(MessageSuccess, Session(tok.value, u)))))
    {
      var req := UserClient.FindByCredentialRequest(email, password);
      var found := UserClient.FindByCredential(users, req);
      if found.err.Some? then Outcome(Err(found.err.value), [FindByCredentialCall(req)])
      else
        var user := found.response.value;
        var calls := [FindByCredentialCall(req), NewTokenCall(user.id, user.name)];
        match LegacyJwt.Createjwt(lib, cfg, user.id, user.name, now)
        case Err(_) => Outcome(Err(Unauthenticated), calls)
        case Ok(token) => Outcome(Ok(Response(MessageSuccess, Session(token, user))), calls)
    }

    /**
     * VerifyToken at second `now`: no `authorization` value is
     * Unauthenticated; a token that does not parse is Unauthenticated; a
     * failed lookup of the claimed id is an Internal "Server error".
     */
    function VerifyToken(md: Grpc.Metadata, now: int): (o: Outcome<UserClient.User>)
      ensures HeaderToken(md).None? ==> o == Outcome(Err(Unauthenticated), [])
      ensures HeaderToken(md).Some? ==>
        var token := HeaderToken(md).value;
        var parsed := LegacyJwt.Parsejwt(lib, cfg, token, now);
        && (parsed.Err? ==> o == Outcome(Err(Unauthenticated), [ParseCall(token)]))
        && (parsed.Ok? ==>
              var req := UserClient.FindByIdRequest(parsed.value.id);
              var up := users.findById(req);
              && o.calls == [ParseCall(token), FindByIdCall(req)]
              && (up.err.Some? ==> o.result == Err(ServerError))
              && (up.err.None? ==> o.result == Ok(Response(MessageSuccess, up.response.value))))
    {
      match HeaderToken(md)
      case None => Outcome(Err(Unauthenticated), [])
      case Some(token) =>
        match LegacyJwt.Parsejwt(lib, cfg, token, now)
        case Err(_) => Outcome(Err(Unauthenticated), [ParseCall(token)])
        case Ok(claims) =>
          var req := UserClient.FindByIdRequest(claims.id);
          var calls := [ParseCall(token), FindByIdCall(req)];
          var user := UserClient.FindById(users, req);
          if user.err.Some? then Outcome(Err(ServerError), calls)
          else Outcome(Ok(Response(MessageSuccess, user.response.value)), calls)
    }

    /** Logout: no revocation list; every request, with or without a token, succeeds and calls nothing. */
    function Logout(md: Grpc.Metadata): (o: Outcome<Acknowledgement>)
      ensures o.result.Ok? && o.result.value.message == MessageSuccess
      ensures o.calls == []
    {
      Outcome(Ok(Response(MessageSuccess, Acknowledgement)), [])
    }
  }

  /** A header holding the bare token, without the "Bearer " prefix. */
  function BareHeader(token: string): Grpc.Metadata {
    map[HeaderAuthorization := [token]]
  }

  lemma HeaderTokenOfBare(token: string)
    requires !CutPrefix(token, HeaderBearerPrefix).1
    ensures HeaderToken(BareHeader(token)) == Some(token)
  {
    AuthorizationValues([token]);
  }

  /**
   * A legacy token issued by Login verifies before its expiry whether it
   * is presented bare or as "Bearer <token>", even after a Logout with it,
   * and is looked up under the id it was issued for.
   */
  lemma LoginLogoutThenVerify(s: AuthServer, email: string, password: string, now: int, t: int, bearer: bool)
    requires Jose.Lawful(s.lib)
    requires s.Login(email, password, now).result.Ok?
    requires t < LegacyJwt.ExpiryAt(s.cfg, now)
    requires var token := s.Login(email, password, now).result.value.data.token;
      !CutPrefix(token, HeaderBearerPrefix).1
    ensures var session := s.Login(email, password, now).result.value.data;
      var md := if bearer then map[HeaderAuthorization := [HeaderBearerPrefix + session.token]]
                else BareHeader(session.token);
      var req := UserClient.FindByIdRequest(session.user.id);
      && s.Logout(md).result.Ok?
      && s.VerifyToken(md, t).calls == [ParseCall(session.token), FindByIdCall(req)]
      && (s.users.findById(req).err.None? ==>
            s.VerifyToken(md, t).result == Ok(Response(MessageSuccess, s.users.findById(req).response.value)))
  {
    var up := s.users.findByCredential(UserClient.FindByCredentialRequest(email, password));
    var u := up.response.value;
    var session := s.Login(email, password, now).result.value.data;
    if bearer {
      var md := map[HeaderAuthorization := [HeaderBearerPrefix + session.token]];
      AuthorizationValues([HeaderBearerPrefix + session.token]);
      CutPrefixOfConcat(HeaderBearerPrefix, session.token);
      assert HeaderToken(md) == Some(session.token);
    } else {
      HeaderTokenOfBare(session.token);
    }
    LegacyJwt.CreateParseRoundTrip(s.lib, s.cfg, u.id, u.name, now, t);
  }
}
