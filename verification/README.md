# Authentication service core, modelled in Dafny

This project models the core of a gRPC authentication service written in Go.

- **Token manager.** It mints HS256-signed JSON Web Tokens carrying a user id, a username, an expiry (`exp`) and a fresh token identifier (`jti`). It parses them back and accepts only the HMAC family. It keeps a revocation list ("blacklist") in a key-value store with per-key time-to-live, under keys `token-blacklist:<jti>`.
- **Request flows.** Register, Login, VerifyToken and Logout call the upstream user service and the token manager in a fixed order, and map each failure to a fixed gRPC status.
- **Health aggregator.** It reports SERVING only when both the revocation store and the user service are healthy, and sets a gauge to 1 or 0 on every probe.
- **Supporting pieces.** These are the metadata and environment helpers, and the user-service client: its error passthrough and its health mapping.
- **The earlier generation still in the tree.** Its tokens carry no `jti`. Its VerifyToken does not require the "Bearer " prefix and has no revocation check, and its Logout does nothing. It sits in separate modules.

Collaborators are abstract:
- the signing library is a `Jose.Library` value, with one law, `Jose.Lawful`: decoding undoes encoding;
- the store is the `RevocationStore.TtlStore` class;
- the user service is a `UserClient.Upstream` value.

The clock (`now`, whole Unix seconds), the fresh `jti` drawn from `uuid.New()`, the process environment, and the failures of store and network calls are all parameters.

Each request flow returns an `Rpc.Outcome`. It holds the result and the trace of dependency calls made, in order. This lets contracts state which dependencies were never called.

Modules, one per file:
- `Wrappers`, `GoTime`, `Grpc`, `Strconv`: Go runtime pieces (int64 wrap-around, `time.Duration`, gRPC status and metadata, `strconv.Atoi`).
- `Helper`: internal/helper/helper.go.
- `Jose`: the signing library.
- `RevocationStore`: the TTL store.
- `UserClient`: internal/grpc/client/user/user.go.
- `TokenManager`: internal/lib/jwt/jwt.go.
- `Rpc`: what both generations of handlers share (header names, `strings.CutPrefix`, the dependency calls and a flow's outcome).
- `Authentication`: internal/grpc/server/authentication.go.
- `Health`: internal/grpc/server/health.go.
- `LegacyJwt`: internal/pkg/jwt.go.
- `LegacyAuth`: internal/grpc/server/auth.go.
- `Generations`: how the two generations' VerifyToken differ on the same request.

Notes on reading the source:
- authentication.go calls package-level `jwt.New`, `jwt.Parse`, `jwt.IsBlacklisted` and `jwt.AddToBlacklist`, a global `userrpc.User`, and `helper.GetFromMetadata`. None of these is defined in the files modelled here.
- The model injects the two dependencies into `AuthenticationServer`, as the server's tests do. The token dependency follows the `JWTManager` contract of internal/lib/jwt/jwt.go:16-21. `GetFromMetadata` is read as `GetGRPCMetadataValue` (internal/helper/helper.go:21-28).
- The revocation check fails open: `IsBlacklisted` is false on any store error (internal/lib/jwt/jwt.go:78-82), so a store outage lets revoked tokens through. The model keeps this behaviour rather than failing closed.
- The "blacklisted token" case of internal/grpc/server/authentication_test.go:247-254 expects Logout to reject an already-revoked token. The code performs no such check. The model follows the code in `Authentication.AuthenticationServer.Logout` and records the difference under "## Findings".

## Model

| member | source | states |
|---|---|---|
| GoTime.Seconds | internal/helper/helper.go:48 | `time.Duration(n) * time.Second` is congruent to `n * 10^9` modulo 2^64 (the int64 wrap), and is exactly `n * 10^9` nanoseconds when that fits |
| GoTime.AddUnix | internal/lib/jwt/jwt.go:39 | `now.Add(d).Unix()` is `now + d/10^9` for a whole-second duration and never earlier than `now` for a non-negative one |
| Grpc.ToLower | internal/helper/helper.go:22 | metadata keys are lower-cased character by character (ASCII), keeping the length |
| Grpc.ToLowerIdempotent | internal/helper/helper.go:22 | lower-casing a key twice is the same as once |
| Grpc.MdGet | internal/helper/helper.go:22 | `md.Get(k)` is the list under the lower-cased key, or empty when the key is absent |
| Strconv.Atoi | internal/helper/helper.go:39 | a parse succeeds only on one or more digits with an optional leading '+' or '-'; for each of those forms it succeeds exactly when the value fits int64, and gives the signed decimal value |
| Strconv.AtoiForms | internal/helper/helper.go:39 | "-5" and "+5" parse to -5 and 5; a lone sign and a string with a non-digit inside do not parse |
| Strconv.DecimalValueOfNatToString | internal/helper/helper.go:39 | the decimal rendering of a natural number has that number as its value |
| Strconv.AtoiItoa | internal/helper/helper.go:39 | parsing the rendering of any int64 gives it back |
| Strconv.ItoaInjective | internal/helper/helper.go:39 | two int64 values have the same rendering exactly when they are equal |
| Helper.GetGRPCMetadataValue | internal/helper/helper.go:21-28 | found exactly when the lower-cased key has at least one value; then the first value, otherwise `("", false)` |
| Helper.MetadataKeyCaseInsensitive | internal/helper/helper.go:21-28 | a key and its lower-cased spelling find the same value |
| Helper.GetEnv | internal/helper/helper.go:30-36 | the variable's value when it is set and non-empty, otherwise the default |
| Helper.GetEnvInt | internal/helper/helper.go:38-44 | the parsed integer when the value parses, otherwise the default, including when the variable is unset |
| Helper.GetEnvIntReadsRendering | internal/helper/helper.go:38-44 | a variable holding the decimal rendering of an int64 reads back as that number |
| Helper.GetEnvDurationSeconds | internal/helper/helper.go:46-52 | the parsed value in seconds when it parses, otherwise the default, also multiplied by one second |
| Helper.DurationIsScaledInt | internal/helper/helper.go:46-52 | on every input the duration helper equals the integer helper's result scaled to seconds |
| Helper.GetEnvDurationReadsRendering | internal/helper/helper.go:46-52 | a rendered count of seconds that does not overflow reads back as that many seconds |
| Jose.SignedString | internal/lib/jwt/jwt.go:47 | signing fails exactly when the algorithm cannot sign, and otherwise yields the encoding of the header, claims and signature |
| Jose.Parse | internal/lib/jwt/jwt.go:51-59 | claims come back exactly for a well-formed token with a registered algorithm that the key function accepts, a matching signature and `now < exp`; a non-token string is Malformed |
| Jose.ParseSigned | internal/lib/jwt/jwt.go:37-67 | a token signed under the key that the key function returns parses back to its claims before `exp`, and is Expired from `exp` on |
| RevocationStore.ExpiryAfter | internal/lib/redis/redis.go:51-53 | a positive TTL expires the key `ttl` seconds after `now`; any other TTL sets no expiry |
| RevocationStore.TtlStore.Get | internal/lib/redis/redis.go:47-49 | the stored value exactly when there is no fault and the key is live; otherwise the fault, or the missing-key error |
| RevocationStore.TtlStore.Set | internal/lib/redis/redis.go:51-53 | returns the fault, logs the command, and writes the entry only when there is no fault |
| UserClient.Forward | internal/grpc/client/user/user.go:34-41 | on an upstream error, no response and the same error; otherwise the upstream response unchanged |
| UserClient.FindById | internal/grpc/client/user/user.go:30-42 | the upstream error or response, passed through unchanged |
| UserClient.FindByCredential | internal/grpc/client/user/user.go:44-56 | the upstream error or response, passed through unchanged |
| UserClient.Store | internal/grpc/client/user/user.go:58-70 | the upstream error or response, passed through unchanged |
| UserClient.Health | internal/grpc/client/user/user.go:72-88 | the call's own error; otherwise "user grpc health check failed" exactly for NOT_SERVING; otherwise healthy |
| TokenManager.BlacklistKey | internal/lib/jwt/jwt.go:70 | the key is `token-blacklist:` followed by the jti |
| TokenManager.BlacklistKeyInjective | internal/lib/jwt/jwt.go:70 | two jtis share a key exactly when they are equal |
| TokenManager.HmacKeyfunc | internal/lib/jwt/jwt.go:51-56 | the secret for HS256/384/512, a refusal for every other algorithm |
| TokenManager.RevocationCoversLifetime | internal/lib/jwt/jwt.go:69-82 | after a revocation written at `now`, the entry is live at a later second `t` exactly when `t < exp` |
| TokenManager.RevocationKeepsOthers | internal/lib/jwt/jwt.go:69-75 | revoking one jti leaves every other jti's revocation status unchanged |
| TokenManager.JwtManager.MintedClaims | internal/lib/jwt/jwt.go:39-45 | the minted claims are exactly the id, the username, `exp = now + expiry` and the fresh jti |
| TokenManager.JwtManager.NewToken | internal/lib/jwt/jwt.go:37-48 | fails exactly when HS256 signing fails; otherwise the token decodes to HS256 over exactly (id, username, now + expiry, jti) |
| TokenManager.JwtManager.ParseToken | internal/lib/jwt/jwt.go:50-67 | a non-token is Malformed; a non-HMAC algorithm is an error; claims come back exactly for a valid HMAC signature under the secret before `exp`, and are the decoded claims |
| TokenManager.JwtManager.IsBlacklisted | internal/lib/jwt/jwt.go:78-82 | true exactly when the store read succeeds, so that a store error reads as not revoked |
| TokenManager.JwtManager.AddToBlacklist | internal/lib/jwt/jwt.go:69-76 | an expired token is a success with no write; otherwise exactly one Set of "" with TTL `exp - now`, and the store's error is returned unchanged |
| TokenManager.NewTokenRoundTrip | internal/lib/jwt/jwt_test.go:18-33 | a minted token parses back to (id, username, exp, jti) until its `exp`, and is Expired from then on |
| TokenManager.ParseTokenStable | internal/lib/jwt/jwt.go:50-67 | a token carries the same claims at every second at which it parses |
| TokenManager.RevokedTokenListed | internal/lib/jwt/jwt.go:69-82 | once a token's revocation is written, it is listed at every later second at which it still parses |
| Rpc.CutPrefix | internal/grpc/server/authentication.go:103 | cut exactly when the prefix is present, and then the rest; otherwise the input unchanged |
| Rpc.CutPrefixOfConcat | internal/grpc/server/authentication.go:103 | the prefix followed by any rest is cut to that rest |
| Authentication.BearerToken | internal/grpc/server/authentication.go:100-107 | found exactly when the first authorization value starts with the case-sensitive "Bearer ", and then that value with the prefix cut off; never found when the header is missing |
| Rpc.ToLowerOfLowercase | internal/grpc/server/authentication.go:102 | a key with no upper-case letter is its own lower-cased form |
| Rpc.AuthorizationValues | internal/grpc/server/authentication.go:102 | a request whose only header is `authorization` yields exactly its values for that key |
| Authentication.BearerTokenOfHeader | internal/grpc/server/authentication.go:100-107 | a single authorization value "Bearer t" yields the token t |
| Authentication.AuthenticationServer.Register | internal/grpc/server/authentication.go:26-61 | an account-creation error is returned verbatim with no token minted; otherwise a token for (id, email); a minting failure is Internal with the "registered, but" message; success is "Success" with the token and the upstream user |
| Authentication.AuthenticationServer.Login | internal/grpc/server/authentication.go:63-97 | a lookup error is returned verbatim with no token minted; otherwise a token for (id, name); a minting failure is Unauthenticated; success is "Success" with the token and the upstream user |
| Authentication.AuthenticationServer.VerifyToken | internal/grpc/server/authentication.go:99-146 | order: prefix, parse, revocation check, lookup of the claimed id; a missing prefix, a parse failure or a revoked jti is Unauthenticated with nothing further called; a lookup failure is Internal; success is "Success" with the upstream user |
| Authentication.AuthenticationServer.Logout | internal/grpc/server/authentication.go:148-176 | a missing prefix or a parse failure is Unauthenticated and leaves the store alone; otherwise revokes (jti, exp) with no revocation check first; a store error is Internal with the store unchanged; otherwise "Success" with the revocation written |
| Authentication.AuthenticationServer.LogoutChecked | internal/grpc/server/authentication_test.go:247-254 | as Logout, but a token already on the list is Unauthenticated before anything is written |
| Authentication.RegisterMintsOnlyForCreatedAccount | internal/grpc/server/authentication.go:27-43 | Register reaches the minting step exactly when the account was created, and after that only the distinguished Internal error can fail it |
| Authentication.LoginThenVerify | internal/grpc/server/authentication.go:63-146 | a token from Login, presented before expiry and not revoked, passes VerifyToken's parse and revocation checks and is looked up under the issued id |
| Authentication.VerifyAfterRevocation | internal/grpc/server/authentication.go:109-117 | once a token's revocation is written, VerifyToken rejects it at every later second after the revocation check, with no user lookup |
| Authentication.RevokedTokenRejected | internal/grpc/server/authentication.go:109-117 | after the revocation of a token that parsed at `now`, VerifyToken rejects it at every later second, whether or not it still parses |
| Authentication.VerifyUnparsed | internal/grpc/server/authentication.go:109-113 | a token that fails to parse is rejected right after the parse |
| Authentication.LogoutThenVerify | internal/grpc/server/authentication.go:99-176 | a successful Logout followed by VerifyToken of the same token at a later second is Unauthenticated, and the user is never looked up |
| Authentication.LogoutRevokedTokenAgain | internal/grpc/server/authentication.go:148-176 | as written, a second Logout with an already revoked token still reports Success |
| Authentication.LogoutCheckedRejectsRevoked | internal/grpc/server/authentication_test.go:247-254 | with the revocation check, the second Logout with the same token is Unauthenticated |
| Health.Gauge.Set | internal/grpc/server/health.go:36 | the gauge holds the value set |
| Health.HealthServer.Check | internal/grpc/server/health.go:19-42 | SERVING exactly when neither the store check nor the user check failed, otherwise NOT_SERVING; both are probed, the store first; never an error; the gauge is 1 for SERVING and 0 otherwise |
| Health.ProbeWithUserDown | internal/grpc/server/health_test.go:39-42 | with the user service NOT_SERVING, the probe is NOT_SERVING and the gauge is 0 |
| LegacyJwt.HmacKeyfunc | internal/pkg/jwt.go:29-35 | the configured secret for HS256/384/512, a refusal for every other algorithm |
| LegacyJwt.ExpiryAt | internal/pkg/jwt.go:18 | `exp` is now plus Expiry seconds whenever `Expiry * time.Second` does not overflow int64 |
| LegacyJwt.Createjwt | internal/pkg/jwt.go:13-26 | fails exactly when HS256 signing fails; otherwise the token decodes to HS256 over exactly (id, username, exp), with no jti |
| LegacyJwt.Parsejwt | internal/pkg/jwt.go:28-52 | a non-token is Malformed; claims come back exactly for a valid HMAC signature under the configured secret before `exp`; any error gives no claims |
| LegacyJwt.CreateParseRoundTrip | internal/pkg/jwt.go:13-52 | a legacy token parses back to its claims before `exp`, and is Expired from then on |
| LegacyJwt.WrappedExpiryIsInThePast | internal/pkg/jwt.go:18 | a lifetime whose nanosecond count lies above the int64 maximum but below 2^64 wraps to a negative duration, so the token's `exp` is earlier than `now` |
| LegacyJwt.WrappedExpiryCanBeInTheFuture | internal/pkg/jwt.go:18 | an overflowing lifetime of 18446744075 seconds wraps to one second, so `exp` is `now + 1` |
| LegacyAuth.HeaderToken | internal/grpc/server/auth.go:58-70 | no token exactly when there is no authorization value; otherwise the first value with "Bearer " cut off when it starts with it, and the first value unchanged when it does not |
| LegacyAuth.AuthServer.Login | internal/grpc/server/auth.go:21-55 | a lookup error is returned verbatim with no token minted; otherwise a legacy token for (id, name); a minting failure is Unauthenticated "Unauthenticated"; success is "Success" with the token and the six user fields |
| LegacyAuth.AuthServer.VerifyToken | internal/grpc/server/auth.go:57-104 | no authorization value is Unauthenticated; a parse failure is Unauthenticated; no revocation check; a lookup failure is Internal "Server error"; success is "Success" with the upstream user |
| LegacyAuth.AuthServer.Logout | internal/grpc/server/auth.go:106-113 | every request succeeds with "Success" and calls nothing |
| LegacyAuth.HeaderTokenOfBare | internal/grpc/server/auth.go:70 | a bare authorization value without the prefix is taken as the token |
| LegacyAuth.LoginLogoutThenVerify | internal/grpc/server/auth.go:21-113 | a legacy token verifies before expiry, presented bare or with "Bearer ", even after a Logout with it |
| Generations.BareTokenReachesOnlyLegacyParser | internal/grpc/server/auth.go:70-73 | a bare token reaches the legacy parser, while the current VerifyToken rejects it before parsing |

## Left out

- Cryptography and encoding: HMAC-SHA256, JSON and base64url (RFC 7515, section 3.2 of RFC 7518) are uninterpreted `Jose.Library` fields. The only law assumed is that decoding undoes encoding.
- Dynamic claim typing: the `claims["jti"].(string)` and `claims["id"].(float64)` assertions and their panics are not modelled, and the claims are typed records. User ids are int32 values in [0, 2^31). On that range the uint, float64 and int32 conversions are the identity.
- The `!ok` branches on the claims type (internal/lib/jwt/jwt.go:61-64, internal/pkg/jwt.go:43-49) are left out, because `jwt.Parse` without a custom claims type always yields map claims.
- A legacy or foreign token without an `exp` claim is not modelled. The library would accept such a token with no expiry, but neither generation mints one.
- Time below one second is left out: `now` is whole Unix seconds.
- TokenManager.JwtManager.AddToBlacklist: the TTL `exp - now` is passed as a whole number of seconds. The int64 wrap of `time.Duration(exp) * time.Second` for lifetimes beyond about 292 years is not modelled.
- RevocationStore.TtlStore.Set: go-redis treats the special TTL values (KeepTTL) differently. This is unreachable here, because the TTL is always positive.
- Grpc.ToLower: lower-cases ASCII only. Go's `strings.ToLower` also folds non-ASCII letters.
- A nil `Data` or `User` in an upstream reply, which would panic the handlers, is not modelled. A reply without an error always carries a user.
- A store write that fails after reaching the server is not modelled. A failed Set changes nothing.
- Concurrency, context timeouts and cancellation, logging and the metrics export are left out. The gauge is an integer field.
- The revocation store's own health probe (internal/lib/redis/redis.go:59-67, five pings with sleeps) is left out. Its outcome is the `redisHealth` parameter of `Health.HealthServer.Check`.
- Connection setup, configuration loading from files and the OS, generated protobuf code, and the global client singletons are left out. The configuration is a parameter: `TokenManager.JwtManager` fields, or `LegacyJwt.Config`.

## Findings

| source | as written | input that shows it | evidently intended | confidence | as-written member | corrected member |
|---|---|---|---|---|---|---|
| internal/grpc/server/authentication.go:158-175 | Logout revokes any token that parses, without asking whether it is already revoked, so a second Logout with the same token reports Success | two Logout calls with the same valid "Bearer" token, with the store healthy | Logout rejects an already-revoked token as Unauthenticated, as the "blacklisted token" case of internal/grpc/server/authentication_test.go:247-254 expects (it stubs IsBlacklisted to true and expects an error) | medium, not executed | Authentication.LogoutRevokedTokenAgain | Authentication.LogoutCheckedRejectsRevoked |
