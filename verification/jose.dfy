/**
 * The signed-token library (golang-jwt) as an abstract collaborator.
 * A token's compact serialisation, its decoding and the signature an
 * algorithm computes over a header and claim set are left uninterpreted:
 * they are fields of a `Library` value, and `Lawful` states the one fact
 * the core relies on, that decoding undoes encoding. Hashing and
 * base64/JSON encoding (RFC 7515, RFC 7518 section 3.2) are not modelled.
 */
module Jose {
  import opened Wrappers

  /** The signing methods the library registers, and any other `alg` header. */
  datatype Alg =
    | HS256 | HS384 | HS512
    | RS256 | RS384 | RS512 | PS256 | PS384 | PS512
    | ES256 | ES384 | ES512 | EdDSA | NoneAlg
    | Unregistered(name: string)

  /** The HMAC family (`*jwt.SigningMethodHMAC`). */
  predicate IsHmac(a: Alg) {
    a.HS256? || a.HS384? || a.HS512?
  }

  type Key = seq<bv8>

  /** A decoded token: its `alg` header, its claim set and its signature. */
  datatype Jws<C> = Jws(alg: Alg, claims: C, signature: seq<bv8>)

  datatype Library<!C> = Library(
    encode: Jws<C> -> string,
    decode: string -> Option<Jws<C>>,
    /** The signature `alg` computes under a key, None when it cannot sign. */
    sign: (Alg, Key, C) -> Option<seq<bv8>>)

  ghost predicate Lawful<C(!new)>(lib: Library<C>) {
    forall j :: lib.decode(lib.encode(j)) == Some(j)
  }

  datatype SignError = SigningFailed

  datatype ParseError =
    | Malformed
    | MethodUnavailable(alg: Alg)
    | UnexpectedSigningMethod(alg: Alg)
    | SignatureInvalid
    | Expired

  /** `token.SignedString(key)` for a token built with `jwt.New(alg)`. */
  function SignedString<C>(lib: Library<C>, alg: Alg, claims: C, key: Key): (r: Result<string, SignError>)
    ensures r.Err? <==> lib.sign(alg, key, claims).None?
    ensures r.Ok? ==> r.value == lib.encode(Jws(alg, claims, lib.sign(alg, key, claims).value))
  {
    match lib.sign(alg, key, claims)
    case None => Err(SigningFailed)
    case Some(sig) => Ok(lib.encode(Jws(alg, claims, sig)))
  }

  /**
   * `jwt.Parse(token, keyfunc)` at Unix second `now`: decode, look the
   * method up, ask the keyfunc for a key (None: the keyfunc refused the
   * algorithm), check the signature, then check `exp` (valid while
   * `now < exp`). Every failure yields no claims.
   */
  function Parse<C>(lib: Library<C>, keyfunc: Alg -> Option<Key>, expOf: C -> int, now: int, token: string)
    : (r: Result<C, ParseError>)
    ensures lib.decode(token).None? ==> r == Err(Malformed)
    ensures r.Ok? <==>
      && lib.decode(token).Some?
      && !lib.decode(token).value.alg.Unregistered?
      && keyfunc(lib.decode(token).value.alg).Some?
      && lib.sign(lib.decode(token).value.alg, keyfunc(lib.decode(token).value.alg).value,
                  lib.decode(token).value.claims) == Some(lib.decode(token).value.signature)
      && now < expOf(lib.decode(token).value.claims)
    ensures r.Ok? ==> r.value == lib.decode(token).value.claims
  {
    match lib.decode(token)
    case None => Err(Malformed)
    case Some(j) =>
      if j.alg.Unregistered? then Err(MethodUnavailable(j.alg))
      else match keyfunc(j.alg)
        case None => Err(UnexpectedSigningMethod(j.alg))
        case Some(key) =>
          if lib.sign(j.alg, key, j.claims) != Some(j.signature) then Err(SignatureInvalid)
          else if !(now < expOf(j.claims)) then Err(Expired)
          else Ok(j.claims)
  }

  /** A token signed under `key` parses back to its claims until it expires, then never. */
  lemma ParseSigned<C(!new)>(lib: Library<C>, keyfunc: Alg -> Option<Key>, expOf: C -> int,
                       alg: Alg, claims: C, key: Key, now: int)
    requires Lawful(lib)
    requires !alg.Unregistered? && keyfunc(alg) == Some(key)
    requires SignedString(lib, alg, claims, key).Ok?
    ensures now < expOf(claims) ==>
      Parse(lib, keyfunc, expOf, now, SignedString(lib, alg, claims, key).value) == Ok(claims)
    ensures expOf(claims) <= now ==>
      Parse(lib, keyfunc, expOf, now, SignedString(lib, alg, claims, key).value) == Err(Expired)
  {
    var sig := lib.sign(alg, key, claims).value;
    assert lib.decode(lib.encode(Jws(alg, claims, sig))) == Some(Jws(alg, claims, sig));
  }
}
