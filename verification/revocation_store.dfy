/**
 * The key-value store with per-key time-to-live that holds the token
 * revocation list, as an abstract collaborator (a Redis server behind
 * internal/lib/redis). Time is in whole Unix seconds; a communication
 * failure is a parameter of each call, and a failed call changes nothing.
 */
module RevocationStore {
  import opened Wrappers
  import Grpc

  /** When a key disappears on its own: never, or at an absolute second. */
  datatype Expiry = Never | At(second: int)

  datatype Entry = Entry(value: string, expiry: Expiry)

  type Entries = map<string, Entry>

  /** A Set command as the store receives it. */
  datatype SetCommand = SetCommand(key: string, value: string, ttl: int)

  /** The error go-redis reports for a missing key. */
  const Missing: Grpc.Error := Grpc.PlainError("redis: nil")

  /** `key` is present at second `t`: written and not yet expired. */
  predicate Live(entries: Entries, key: string, t: int) {
    key in entries && (entries[key].expiry.At? ==> t < entries[key].expiry.second)
  }

  /** The expiry of a key set at `now` with a TTL of `ttl` seconds (none unless positive). */
  function ExpiryAfter(now: int, ttl: int): (e: Expiry)
    ensures ttl > 0 ==> e == At(now + ttl)
    ensures ttl <= 0 ==> e == Never
  {
    if ttl > 0 then At(now + ttl) else Never
  }

  class TtlStore {
    var entries: Entries
    /** Every Set command sent so far, failed ones included. */
    ghost var log: seq<SetCommand>

    constructor ()
      ensures entries == map[] && log == []
    {
      entries := map[];
      log := [];
    }

    /** `GET key` at second `now`: the value while the key is live, an error otherwise. */
    function Get(key: string, now: int, fault: Option<Grpc.Error>): (r: Result<string, Grpc.Error>)
      reads this
      ensures r.Ok? <==> fault.None? && Live(entries, key, now)
      ensures r.Ok? ==> r.value == entries[key].value
      ensures fault.Some? ==> r == Err(fault.value)
      ensures fault.None? && !Live(entries, key, now) ==> r == Err(Missing)
    {
      if fault.Some? then Err(fault.value)
      else if Live(entries, key, now) then Ok(entries[key].value)
      else Err(Missing)
    }

    /** `SET key value EX ttl` at second `now`. */
    method Set(key: string, value: string, ttl: int, now: int, fault: Option<Grpc.Error>)
      returns (err: Option<Grpc.Error>)
      modifies this
      ensures err == fault
      ensures log == old(log) + [SetCommand(key, value, ttl)]
      ensures fault.None? ==> entries == old(entries)[key := Entry(value, ExpiryAfter(now, ttl))]
      ensures fault.Some? ==> entries == old(entries)
    {
      log := log + [SetCommand(key, value, ttl)];
      err := fault;
      if fault.None? {
        entries := entries[key := Entry(value, ExpiryAfter(now, ttl))];
      }
    }
  }
}
