/**
 * The token manager (internal/lib/jwt/jwt.go): mints HS256-signed tokens
 * carrying `id`, `username`, `exp` and a fresh `jti`, parses them back
 * accepting only the HMAC family, and keeps a revocation list in the TTL
 * store under `token-blacklist:<jti>`. The clock (`now`, Unix seconds),
 * the fresh identifier drawn from uuid.New() (`jti`) and store failures
 * (`fault`) are parameters.
 */
module TokenManager {
  import opened Wrappers
  import opened GoTime
  import Grpc
  import Jose
  import RevocationStore
  import UserClient

  const BlacklistNamespace: string := "token-blacklist"

  /** The store key of a revocation entry, `token-blacklist:<jti>`. */
  function BlacklistKey(jti: string): (key: string)
    ensures |key| == |BlacklistNamespace| + 1 + |jti|
    ensures key[..|BlacklistNamespace| + 1] == BlacklistNamespace + ":"
    ensures key[|BlacklistNamespace| + 1..] == jti
  {
    BlacklistNamespace + ":" + jti
  }

  /** Distinct token identifiers never share a revocation entry. */
  lemma BlacklistKeyInjective(a: string, b: string)
    ensures BlacklistKey(a) == BlacklistKey(b) <==> a == b
  {
    if BlacklistKey(a) == BlacklistKey(b) {
      calc {
        a;
        BlacklistKey(a)[|BlacklistNamespace| + 1..];
        BlacklistKey(b)[|BlacklistNamespace| + 1..];
        b;
      }
    }
  }

  /** The typed claim set of a current-generation token. */
  datatype Claims = Claims(id: UserClient.UserId, username: string, exp: int, jti: string)

  function ExpOf(c: Claims): int {
    c.exp
  }

  /** ParseToken's key function: the secret for the HMAC family, a refusal for any other. */
  function HmacKeyfunc(secret: Jose.Key): (f: Jose.Alg -> Option<Jose.Key>)
    ensures forall a :: f(a) == if Jose.IsHmac(a) then Some(secret) else None
  {
    (a: Jose.Alg) => if Jose.IsHmac(a) then Some(secret) else None
  }

  /**
   * The revocation list after revoking `jti` at second `now` for a token
   * expiring at `expiry`: unchanged when the token is already dead,
   * otherwise an empty entry living exactly the remaining lifetime.
   */
  function AfterRevocation(entries: RevocationStore.Entries, jti: string, expiry: int, now: int)
    : RevocationStore.Entries
  {
    var exp := expiry - now;
    if exp <= 0 then entries
    else entries[BlacklistKey(jti) := RevocationStore.Entry("", RevocationStore.ExpiryAfter(now, exp))]
  }

  /** After a revocation the entry is present exactly while the token is still alive. */
  lemma RevocationCoversLifetime(entries: RevocationStore.Entries, jti: string, expiry: int, now: int, t: int)
    requires now < expiry && now <= t
    ensures RevocationStore.Live(AfterRevocation(entries, jti, expiry, now), BlacklistKey(jti), t) <==> t < expiry
  {
  }

  /** Revoking one token leaves every other token's revocation status as it was. */
  lemma RevocationKeepsOthers(entries: RevocationStore.Entries, jti: string, other: string,
                              expiry: int, now: int, t: int)
    requires other != jti
    ensures RevocationStore.Live(AfterRevocation(entries, jti, expiry, now), BlacklistKey(other), t)
        == RevocationStore.Live(entries, BlacklistKey(other), t)
  {
    BlacklistKeyInjective(jti, other);
  }

  class JwtManager {
    const secret: Jose.Key
    const expiry: Duration
    const lib: Jose.Library<Claims>
    const store: RevocationStore.TtlStore

    constructor (secret: Jose.Key, expiry: Duration, lib: Jose.Library<Claims>, store: RevocationStore.TtlStore)
      ensures this.secret == secret && this.expiry == expiry && this.lib == lib && this.store == store
    {
      this.secret := secret;
      this.expiry := expiry;
      this.lib := lib;
      this.store := store;
    }

    /** The claims a token minted at `now` for (id, username) with identifier `jti` carries. */
    function MintedClaims(id: UserClient.UserId, username: string, now: int, jti: string): (c: Claims)
      ensures c.id == id && c.username == username && c.jti == jti
      ensures c.exp == AddUnix(now, expiry)
    {
      Claims(id, username, AddUnix(now, expiry), jti)
    }

    /** `NewToken(id, username)`: an HS256 token over the minted claims, or the signing failure. */
    function NewToken(id: UserClient.UserId, username: string, now: int, jti: string)
      : (r: Result<string, Jose.SignError>)
      ensures r.Err? <==> lib.sign(Jose.HS256, secret, MintedClaims(id, username, now, jti)).None?
      ensures Jose.Lawful(lib) && r.Ok? ==>
        && lib.decode(r.value).Some?
        && lib.decode(r.value).value.alg == Jose.HS256
        && lib.decode(r.value).value.claims == Claims(id, username, AddUnix(now, expiry), jti)
    {
      Jose.SignedString(lib, Jose.HS256, MintedClaims(id, username, now, jti), secret)
    }

    /**
     * `ParseToken(token)` at second `now`: the claims of a well-formed,
     * unexpired, HMAC-signed token whose signature matches the secret;
     * an error and no claims for anything else.
     */
    function ParseToken(token: string, now: int): (r: Result<Claims, Jose.ParseError>)
      ensures lib.decode(token).None? ==> r == Err(Jose.Malformed)
      ensures lib.decode(token).Some? && !Jose.IsHmac(lib.decode(token).value.alg) ==> r.Err?
      ensures r.Ok? <==>
        && lib.decode(token).Some?
        && Jose.IsHmac(lib.decode(token).value.alg)
        && lib.sign(lib.decode(token).value.alg, secret, lib.decode(token).value.claims)
           == Some(lib.decode(token).value.signature)
        && now < lib.decode(token).value.claims.exp
      ensures r.Ok? ==> r.value == lib.decode(token).value.claims
    {
      Jose.Parse(lib, HmacKeyfunc(secret), ExpOf, now, token)
    }

    /** `IsBlacklisted(jti)`: true exactly when the store answers for the key; a store error reads as false. */
    function IsBlacklisted(jti: string, now: int, fault: Option<Grpc.Error>): (r: bool)
      reads store
      ensures r <==> fault.None? && RevocationStore.Live(store.entries, BlacklistKey(jti), now)
    {
      store.Get(BlacklistKey(jti), now, fault).Ok?
    }

    /**
     * `AddToBlacklist(jti, expiry)` at second `now`: nothing at all when
     * the token has already expired; otherwise exactly one Set of an
     * empty value for the remaining lifetime, whose error is returned.
     */
    method AddToBlacklist(jti: string, expiry: int, now: int, fault: Option<Grpc.Error>)
      returns (err: Option<Grpc.Error>)
      modifies store
      ensures expiry - now <= 0 ==> err.None? && store.log == old(store.log)
      ensures expiry - now > 0 ==>
        && err == fault
        && store.log == old(store.log) + [RevocationStore.SetCommand(BlacklistKey(jti), "", expiry - now)]
      ensures err.None? ==> store.entries == AfterRevocation(old(store.entries), jti, expiry, now)
      ensures err.Some? ==> store.entries == old(store.entries)
    {
      var key := BlacklistKey(jti);
      var exp := expiry - now;
      if exp <= 0 {
        return None;
      }
      err := store.Set(key, "", exp, now, fault);
    }
  }

  /** A minted token parses back to its own claims until its `exp`, and is rejected as expired from then on. */
  lemma NewTokenRoundTrip(m: JwtManager, id: UserClient.UserId, username: string, now: int, jti: string, t: int)
    requires Jose.Lawful(m.lib)
    requires m.NewToken(id, username, now, jti).Ok?
    ensures t < AddUnix(now, m.expiry) ==>
      m.ParseToken(m.NewToken(id, username, now, jti).value, t) == Ok(Claims(id, username, AddUnix(now, m.expiry), jti))
    ensures AddUnix(now, m.expiry) <= t ==>
      m.ParseToken(m.NewToken(id, username, now, jti).value, t) == Err(Jose.Expired)
  {
    Jose.ParseSigned(m.lib, HmacKeyfunc(m.secret), ExpOf, Jose.HS256, m.MintedClaims(id, username, now, jti), m.secret, t);
  }

  /** A token carries the same claims at every second at which it parses. */
  lemma ParseTokenStable(m: JwtManager, token: string, now: int, t: int)
    requires m.ParseToken(token, now).Ok? && m.ParseToken(token, t).Ok?
    ensures m.ParseToken(token, now).value == m.ParseToken(token, t).value
  {
  }

  /**
   * Once a token's revocation has been written at `now`, it is on the
   * list at every later second at which it would still parse.
   */
  lemma RevokedTokenListed(m: JwtManager, token: string, c: Claims,
                           before: RevocationStore.Entries, now: int, t: int)
    requires m.ParseToken(token, t) == Ok(c)
    requires m.store.entries == AfterRevocation(before, c.jti, c.exp, now)
    requires now <= t
    ensures m.IsBlacklisted(c.jti, t, None)
  {
    RevocationCoversLifetime(before, c.jti, c.exp, now, t);
  }
}
