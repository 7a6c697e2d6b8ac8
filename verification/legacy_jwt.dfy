/**
 * The first-generation token helpers (internal/pkg/jwt.go): HS256 tokens
 * carrying `id`, `username` and `exp` and no identifier, so they cannot
 * be revoked individually. The JWT configuration (secret and lifetime in
 * whole seconds, read from the process-wide config) is a parameter.
 */
module LegacyJwt {
  import opened Wrappers
  import opened GoTime
  import Jose
  import UserClient

  /** The legacy JWT configuration: `Secret` and `Expiry` (seconds, a Go int). */
  datatype Config = Config(secret: Jose.Key, expiry: int)

  /** The claim set a legacy token carries. */
  datatype LegacyClaims = LegacyClaims(id: UserClient.UserId, username: string, exp: int)

  function ExpOf(c: LegacyClaims): int {
    c.exp
  }

  /** Parsejwt's key function: the configured secret for the HMAC family, a refusal for any other. */
  function HmacKeyfunc(secret: Jose.Key): (f: Jose.Alg -> Option<Jose.Key>)
    ensures forall a :: f(a) == if Jose.IsHmac(a) then Some(secret) else None
  {
    (a: Jose.Alg) => if Jose.IsHmac(a) then Some(secret) else None
  }

  /** The `exp` of a token minted at `now`: `Expiry` seconds later, with Go's Duration wrap-around. */
  function ExpiryAt(cfg: Config, now: int): (exp: int)
    ensures InInt64(cfg.expiry * Second) ==> exp == now + cfg.expiry
  {
    AddUnix(now, Seconds(cfg.expiry))
  }

  /** `Createjwt(id, username)` at second `now`: an HS256 token over (id, username, exp), or the signing failure. */
  function Createjwt(lib: Jose.Library<LegacyClaims>, cfg: Config, id: UserClient.UserId, username: string, now: int)
    : (r: Result<string, Jose.SignError>)
    ensures r.Err? <==> lib.sign(Jose.HS256, cfg.secret, LegacyClaims(id, username, ExpiryAt(cfg, now))).None?
    ensures Jose.Lawful(lib) && r.Ok? ==>
      && lib.decode(r.value).Some?
      && lib.decode(r.value).value.alg == Jose.HS256
      && lib.decode(r.value).value.claims == LegacyClaims(id, username, ExpiryAt(cfg, now))
  {
    Jose.SignedString(lib, Jose.HS256, LegacyClaims(id, username, ExpiryAt(cfg, now)), cfg.secret)
  }

  /**
   * `Parsejwt(token)` at second `now`: the claims of a well-formed,
   * unexpired token signed by the HMAC family under the configured secret;
   * the library's error for anything else.
   */
  function Parsejwt(lib: Jose.Library<LegacyClaims>, cfg: Config, token: string, now: int)
    : (r: Result<LegacyClaims, Jose.ParseError>)
    ensures lib.decode(token).None? ==> r == Err(Jose.Malformed)
    ensures r.Ok? <==>
      && lib.decode(token).Some?
      && Jose.IsHmac(lib.decode(token).value.alg)
      && lib.sign(lib.decode(token).value.alg, cfg.secret, lib.decode(token).value.claims)
         == Some(lib.decode(token).value.signature)
      && now < lib.decode(token).value.claims.exp
    ensures r.Ok? ==> r.value == lib.decode(token).value.claims
  {
    Jose.Parse(lib, HmacKeyfunc(cfg.secret), ExpOf, now, token)
  }

  /** A legacy token parses back to its claims before its `exp` and is rejected as expired from then on. */
  lemma CreateParseRoundTrip(lib: Jose.Library<LegacyClaims>, cfg: Config, id: UserClient.UserId,
                             username: string, now: int, t: int)
    requires Jose.Lawful(lib)
    requires Createjwt(lib, cfg, id, username, now).Ok?
    ensures t < ExpiryAt(cfg, now) ==>
      Parsejwt(lib, cfg, Createjwt(lib, cfg, id, username, now).value, t) == Ok(LegacyClaims(id, username, ExpiryAt(cfg, now)))
    ensures ExpiryAt(cfg, now) <= t ==>
      Parsejwt(lib, cfg, Createjwt(lib, cfg, id, username, now).value, t) == Err(Jose.Expired)
  {
    Jose.ParseSigned(lib, HmacKeyfunc(cfg.secret), ExpOf, Jose.HS256,
                     LegacyClaims(id, username, ExpiryAt(cfg, now)), cfg.secret, t);
  }

  /**
   * A configured lifetime whose nanosecond count overflows int64 by less
   * than one full wrap turns negative, so the token is minted already
   * expired.
   */
  lemma WrappedExpiryIsInThePast(cfg: Config, now: int)
    requires MaxInt64 < cfg.expiry * Second < 0x1_0000_0000_0000_0000
    ensures Seconds(cfg.expiry) == cfg.expiry * Second - 0x1_0000_0000_0000_0000
    ensures ExpiryAt(cfg, now) < now
  {
    var x := cfg.expiry * Second;
    assert 0x1_0000_0000_0000_0000 <= x - MinInt64 < 2 * 0x1_0000_0000_0000_0000;
    assert (x - MinInt64) % 0x1_0000_0000_0000_0000 == x - MinInt64 - 0x1_0000_0000_0000_0000;
  }

  /** The wrap can also land in the future: this overflowing lifetime mints a token valid for one second. */
  lemma WrappedExpiryCanBeInTheFuture(cfg: Config, now: int)
    requires cfg.expiry == 18_446_744_075
    ensures ExpiryAt(cfg, now) == now + 1
  {
    assert Seconds(cfg.expiry) == cfg.expiry * Second - 0x1_0000_0000_0000_0000;
  }
}
