/**
 * The client of the upstream user service (internal/grpc/client/user/user.go).
 * The remote service is an abstract collaborator: each of its RPCs is a
 * function from request to the reply the network delivers. A reply is Go's
 * `(*Response, error)` pair; the generated gRPC client never returns two
 * nils, which the subset type `Answer` records.
 */
module UserClient {
  import opened Wrappers
  import Grpc

  /** A user id: a non-negative int32 database key. */
  type UserId = x: int | 0 <= x < 0x8000_0000

  /** The user record the upstream returns (`Data.User` of its responses). */
  datatype User = User(
    id: UserId, name: string, email: string,
    image: Option<string>, createdAt: Option<string>, updatedAt: Option<string>)

  datatype Reply<T> = Reply(response: Option<T>, err: Option<Grpc.Status>)

  type Answer<T> = r: Reply<T> | r.err.Some? || r.response.Some?
    witness Reply(None, Some(Grpc.Status(Grpc.Unknown, "")))

  datatype FindByIdRequest = FindByIdRequest(id: UserId)
  datatype FindByCredentialRequest = FindByCredentialRequest(email: string, password: string)
  datatype StoreRequest = StoreRequest(name: string, email: string, password: string)

  datatype Upstream = Upstream(
    findById: FindByIdRequest -> Answer<User>,
    findByCredential: FindByCredentialRequest -> Answer<User>,
    store: StoreRequest -> Answer<User>)

  /** The wrapper's handling of one upstream reply: on error, no response and the same error. */
  function Forward<T>(up: Answer<T>): (r: Answer<T>)
    ensures r.err == up.err
    ensures r.err.Some? ==> r.response.None?
    ensures r.err.None? ==> r.response == up.response
  {
    if up.err.Some? then Reply(None, up.err) else Reply(up.response, None)
  }

  function FindById(up: Upstream, req: FindByIdRequest): (r: Answer<User>)
    ensures r.err == up.findById(req).err
    ensures r.err.Some? ==> r.response.None?
    ensures r.err.None? ==> r.response == up.findById(req).response
  {
    Forward(up.findById(req))
  }

  function FindByCredential(up: Upstream, req: FindByCredentialRequest): (r: Answer<User>)
    ensures r.err == up.findByCredential(req).err
    ensures r.err.Some? ==> r.response.None?
    ensures r.err.None? ==> r.response == up.findByCredential(req).response
  {
    Forward(up.findByCredential(req))
  }

  function Store(up: Upstream, req: StoreRequest): (r: Answer<User>)
    ensures r.err == up.store(req).err
    ensures r.err.Some? ==> r.response.None?
    ensures r.err.None? ==> r.response == up.store(req).response
  {
    Forward(up.store(req))
  }

  const HealthCheckFailed: Grpc.Error := Grpc.PlainError("user grpc health check failed")

  /** The health probe: the call's own error, a fixed error for NOT_SERVING, otherwise healthy. */
  function Health(reply: Answer<Grpc.ServingStatus>): (r: Option<Grpc.Error>)
    ensures reply.err.Some? ==> r == Some(Grpc.StatusError(reply.err.value))
    ensures reply.err.None? ==> (r.Some? <==> reply.response.value == Grpc.NOT_SERVING)
    ensures reply.err.None? && r.Some? ==> r.value == HealthCheckFailed
  {
    if reply.err.Some? then Some(Grpc.StatusError(reply.err.value))
    else if reply.response.value == Grpc.NOT_SERVING then Some(HealthCheckFailed)
    else None
  }
}
