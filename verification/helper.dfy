/**
 * Request-metadata lookup and environment-variable fallbacks
 * (internal/helper/helper.go). The process environment is a map
 * parameter; `os.Getenv` of an unset variable is the empty string.
 */
module Helper {
  import opened Wrappers
  import opened GoTime
  import Grpc
  import Strconv

  type Env = map<string, string>

  /** `os.Getenv(key)`. */
  function Getenv(env: Env, key: string): string {
    if key in env then env[key] else ""
  }

  /** The first value recorded under `k` (keys compare lower-cased), if any. */
  function GetGRPCMetadataValue(md: Grpc.Metadata, k: string): (r: (string, bool))
    ensures r.1 <==> Grpc.ToLower(k) in md && |md[Grpc.ToLower(k)]| > 0
    ensures r.1 ==> r.0 == md[Grpc.ToLower(k)][0]
    ensures !r.1 ==> r.0 == ""
  {
    var v := Grpc.MdGet(md, k);
    if |v| == 0 then ("", false) else (v[0], true)
  }

  /** Two spellings of a key that differ only in ASCII case find the same value. */
  lemma MetadataKeyCaseInsensitive(md: Grpc.Metadata, k: string)
    ensures GetGRPCMetadataValue(md, k) == GetGRPCMetadataValue(md, Grpc.ToLower(k))
  {
    Grpc.ToLowerIdempotent(k);
  }

  /** The variable's value when it is set and non-empty, otherwise the default. */
  function GetEnv(env: Env, key: string, defaultVal: string): (r: string)
    ensures key in env && env[key] != "" ==> r == env[key]
    ensures (key !in env || env[key] == "") ==> r == defaultVal
  {
    var val := Getenv(env, key);
    if val != "" then val else defaultVal
  }

  /** The variable parsed by `strconv.Atoi` when it parses, otherwise the default. */
  function GetEnvInt(env: Env, key: string, defaultVal: int): (r: int)
    ensures Strconv.Atoi(Getenv(env, key)).Some? ==> r == Strconv.Atoi(Getenv(env, key)).value
    ensures Strconv.Atoi(Getenv(env, key)).None? ==> r == defaultVal
    ensures key !in env ==> r == defaultVal
  {
    match Strconv.Atoi(Getenv(env, key))
    case Some(val) => val
    case None => defaultVal
  }

  /** An environment holding the decimal rendering of `n` yields `n`. */
  lemma GetEnvIntReadsRendering(env: Env, key: string, n: int, defaultVal: int)
    requires InInt64(n)
    requires key in env && env[key] == Strconv.Itoa(n)
    ensures GetEnvInt(env, key, defaultVal) == n
  {
    Strconv.AtoiItoa(n);
  }

  /**
   * `time.Duration(val) * time.Second` when the variable parses, otherwise
   * `defaultVal * time.Second`: the default is scaled as well.
   */
  function GetEnvDurationSeconds(env: Env, key: string, defaultVal: Duration): (r: Duration)
    ensures Strconv.Atoi(Getenv(env, key)).Some? ==> r == Seconds(Strconv.Atoi(Getenv(env, key)).value)
    ensures Strconv.Atoi(Getenv(env, key)).None? ==> r == Seconds(defaultVal)
  {
    match Strconv.Atoi(Getenv(env, key))
    case Some(val) => Seconds(val)
    case None => Seconds(defaultVal)
  }

  /** The duration helper is the integer helper scaled to seconds, on every input. */
  lemma DurationIsScaledInt(env: Env, key: string, defaultVal: Duration)
    ensures GetEnvDurationSeconds(env, key, defaultVal) == Seconds(GetEnvInt(env, key, defaultVal))
  {
  }

  /** With no wrap-around, a rendered count of seconds reads back as that many seconds. */
  lemma GetEnvDurationReadsRendering(env: Env, key: string, n: int, defaultVal: Duration)
    requires InInt64(n * Second)
    requires key in env && env[key] == Strconv.Itoa(n)
    ensures GetEnvDurationSeconds(env, key, defaultVal) == n * Second
  {
    Strconv.AtoiItoa(n);
  }
}
