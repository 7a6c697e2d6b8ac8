/**
 * The health aggregator (internal/grpc/server/health.go): probes the
 * revocation store and the user service on every call and reports
 * SERVING only when both are healthy, setting the exported
 * `service_health_status` gauge to 1 or 0 as a side effect.
 */
module Health {
  import opened Wrappers
  import Grpc
  import UserClient

  /** The dependencies a probe queries. */
  datatype Dependency = Redis | User

  datatype HealthCheckResponse = HealthCheckResponse(status: Grpc.ServingStatus)

  /** A Prometheus gauge, holding the last value set. */
  class Gauge {
    var value: int

    constructor ()
      ensures value == 0
    {
      value := 0;
    }

    method Set(v: int)
      modifies this
      ensures value == v
    {
      value := v;
    }
  }

  class HealthServer {
    const serviceHealth: Gauge

    constructor (serviceHealth: Gauge)
      ensures this.serviceHealth == serviceHealth
    {
      this.serviceHealth := serviceHealth;
    }

    /**
     * `Check`: `redisHealth` is what the store's health call returned and
     * `userReply` what the user service's health RPC returned. Both are
     * always queried, the store first; the call never fails.
     */
    method Check(redisHealth: Option<Grpc.Error>, userReply: UserClient.Answer<Grpc.ServingStatus>)
      returns (response: HealthCheckResponse, err: Option<Grpc.Error>, ghost probed: seq<Dependency>)
      modifies serviceHealth
      ensures err.None?
      ensures response.status == Grpc.SERVING <==> redisHealth.None? && UserClient.Health(userReply).None?
      ensures response.status == Grpc.SERVING || response.status == Grpc.NOT_SERVING
      ensures serviceHealth.value == if response.status == Grpc.SERVING then 1 else 0
      ensures probed == [Redis, User]
    {
      var status := Grpc.SERVING;
      probed := [Redis];
      if redisHealth.Some? {
        status := Grpc.NOT_SERVING;
      }
      probed := probed + [User];
      var userHealth := UserClient.Health(userReply);
      if userHealth.Some? {
        status := Grpc.NOT_SERVING;
      }
      response := HealthCheckResponse(status);
      if status == Grpc.NOT_SERVING {
        serviceHealth.Set(0);
        return response, None, probed;
      }
      serviceHealth.Set(1);
      return response, None, probed;
    }
  }

  /** A probe with the store up and the user service reporting NOT_SERVING is NOT_SERVING with the gauge at 0. */
  method ProbeWithUserDown(server: HealthServer) returns (response: HealthCheckResponse)
    modifies server.serviceHealth
    ensures response.status == Grpc.NOT_SERVING && server.serviceHealth.value == 0
  {
    var err;
    ghost var probed;
    response, err, probed := server.Check(None, UserClient.Reply(Some(Grpc.NOT_SERVING), None));
  }
}
