/**
 * The request/response vocabulary both generations of handlers share:
 * the metadata header names, `strings.CutPrefix`, the dependency calls a
 * flow can make, and a flow's outcome (its result and the calls it made,
 * in order).
 */
module Rpc {
  import opened Wrappers
  import Grpc
  import UserClient

  const HeaderAuthorization: string := "authorization"
  const HeaderBearerPrefix: string := "Bearer "

  /** `strings.CutPrefix(s, prefix)`. */
  function CutPrefix(s: string, prefix: string): (r: (string, bool))
    ensures r.1 <==> |prefix| <= |s| && s[..|prefix|] == prefix
    ensures r.1 ==> r.0 == s[|prefix|..] && s == prefix + r.0
    ensures !r.1 ==> r.0 == s
  {
    if |prefix| <= |s| && s[..|prefix|] == prefix then (s[|prefix|..], true) else (s, false)
  }

  lemma CutPrefixOfConcat(prefix: string, rest: string)
    ensures CutPrefix(prefix + rest, prefix) == (rest, true)
  {
    assert (prefix + rest)[..|prefix|] == prefix;
    assert (prefix + rest)[|prefix|..] == rest;
  }

  /** A key with no upper-case letter is its own lower-cased form. */
  lemma {:induction false} ToLowerOfLowercase(s: string)
    requires forall i :: 0 <= i < |s| ==> !('A' <= s[i] <= 'Z')
    ensures Grpc.ToLower(s) == s
  {
    var l := Grpc.ToLower(s);
    assert |l| == |s|;
    forall i | 0 <= i < |s| ensures l[i] == s[i] {
    }
  }

  /** A request whose only header is `authorization` carries exactly the given values under it. */
  lemma AuthorizationValues(values: seq<string>)
    ensures Grpc.MdGet(map[HeaderAuthorization := values], HeaderAuthorization) == values
  {
    assert forall i :: 0 <= i < |HeaderAuthorization| ==> 'a' <= HeaderAuthorization[i] <= 'z';
    ToLowerOfLowercase(HeaderAuthorization);
  }

  /** A dependency call a flow makes. */
  datatype Call =
    | StoreCall(store: UserClient.StoreRequest)
    | FindByCredentialCall(credential: UserClient.FindByCredentialRequest)
    | FindByIdCall(find: UserClient.FindByIdRequest)
    | NewTokenCall(id: UserClient.UserId, username: string)
    | ParseCall(token: string)
    | BlacklistCall(jti: string)
    | RevokeCall(jti: string, exp: int)

  /** The `Data` of a Register or Login response. */
  datatype Session = Session(token: string, user: UserClient.User)

  /** The empty `Data` of a Logout response. */
  datatype Acknowledgement = Acknowledgement

  datatype Response<T> = Response(message: string, data: T)

  datatype Outcome<T> = Outcome(result: Result<Response<T>, Grpc.Status>, calls: seq<Call>)
}
