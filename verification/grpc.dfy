/**
 * The parts of the gRPC runtime the core relies on: status codes and
 * status errors, the health-check serving status, and request metadata
 * (`metadata.MD`, a map from lower-case keys to lists of values).
 */
module Grpc {

  datatype Code =
    | OK | Canceled | Unknown | InvalidArgument | DeadlineExceeded | NotFound
    | AlreadyExists | PermissionDenied | ResourceExhausted | FailedPrecondition
    | Aborted | OutOfRange | Unimplemented | Internal | Unavailable | DataLoss
    | Unauthenticated

  /** A status error as built by `status.Errorf(code, message)`. */
  datatype Status = Status(code: Code, message: string)

  /** A Go `error`: a gRPC status error or a plain `errors.New` error. */
  datatype Error = StatusError(status: Status) | PlainError(message: string)

  /** grpc_health_v1.HealthCheckResponse_ServingStatus. */
  datatype ServingStatus = UNKNOWN | SERVING | NOT_SERVING | SERVICE_UNKNOWN

  type Metadata = map<string, seq<string>>

  /** ASCII lower-casing of one character. */
  function LowerChar(c: char): (l: char)
    ensures 'A' <= c <= 'Z' ==> l as int == c as int + 32
    ensures !('A' <= c <= 'Z') ==> l == c
    ensures !('A' <= l <= 'Z')
  {
    if 'A' <= c <= 'Z' then (c as int + 32) as char else c
  }

  /** `strings.ToLower` on ASCII text. */
  function ToLower(s: string): (l: string)
    ensures |l| == |s|
    ensures forall i :: 0 <= i < |s| ==> l[i] == LowerChar(s[i])
  {
    if s == [] then [] else [LowerChar(s[0])] + ToLower(s[1..])
  }

  lemma {:induction false} ToLowerIdempotent(s: string)
    ensures ToLower(ToLower(s)) == ToLower(s)
  {
    if s != [] {
      ToLowerIdempotent(s[1..]);
      assert ToLower(s)[1..] == ToLower(s[1..]);
    }
  }

  /** `md.Get(k)`: the values stored under the lower-cased key, or none. */
  function MdGet(md: Metadata, k: string): (v: seq<string>)
    ensures ToLower(k) in md ==> v == md[ToLower(k)]
    ensures ToLower(k) !in md ==> v == []
  {
    var key := ToLower(k);
    if key in md then md[key] else []
  }
}
