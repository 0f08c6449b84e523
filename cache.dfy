/**
 * The upload-session cache (the Redis client `rd` of the controller): a map from an upload id
 * to the JSON object `{bucket, key}` saved with an expiry in seconds. The object is kept as
 * the two values it holds, and the expiry as the number given to `SET ... EX`; no clock runs.
 * Failures of the cache come from an oracle indexed by the number of calls it has served.
 */
module SessionStore {
  import opened Wrappers
  import opened Js

  /** What `rd.set(uploadId, JSON.stringify({bucket, key}), "EX", ttl)` saves. */
  datatype Session = Session(bucket: Value, key: Value, ttl: int)

  datatype CacheState = CacheState(entries: map<string, Session>, calls: nat)

  /** `SET k v EX ttl`. */
  function SetSpec(fault: nat -> bool, c: CacheState, k: string, v: Session): (r: (bool, CacheState))
    ensures r.1.calls == c.calls + 1
    ensures r.0 ==> r.1.entries == c.entries[k := v]
    ensures !r.0 ==> r.1.entries == c.entries
    ensures r.0 <==> !fault(c.calls)
  {
    if fault(c.calls) then (false, c.(calls := c.calls + 1))
    else (true, CacheState(c.entries[k := v], c.calls + 1))
  }

  /** `GET k`: the saved session, `None` standing for Redis' null. */
  function GetSpec(fault: nat -> bool, c: CacheState, k: string): (r: (bool, Option<Session>, CacheState))
    ensures r.2 == c.(calls := c.calls + 1)
    ensures r.0 <==> !fault(c.calls)
    ensures r.0 ==> (r.1.Some? <==> k in c.entries) && (r.1.Some? ==> r.1.value == c.entries[k])
  {
    if fault(c.calls) then (false, None, c.(calls := c.calls + 1))
    else (true, if k in c.entries then Some(c.entries[k]) else None, c.(calls := c.calls + 1))
  }

  /** `DEL k`: succeeds whether or not the key was present. */
  function DelSpec(fault: nat -> bool, c: CacheState, k: string): (r: (bool, CacheState))
    ensures r.1.calls == c.calls + 1
    ensures r.0 <==> !fault(c.calls)
    ensures r.0 ==> k !in r.1.entries && forall j :: j != k ==> (j in r.1.entries <==> j in c.entries)
    ensures r.0 ==> forall j :: j in r.1.entries ==> r.1.entries[j] == c.entries[j]
    ensures !r.0 ==> r.1.entries == c.entries
  {
    if fault(c.calls) then (false, c.(calls := c.calls + 1))
    else (true, CacheState(c.entries - {k}, c.calls + 1))
  }

  class SessionCache {
    var entries: map<string, Session>
    var calls: nat
    const fault: nat -> bool

    function State(): CacheState
      reads this
    {
      CacheState(entries, calls)
    }

    constructor (entries: map<string, Session>, fault: nat -> bool)
      ensures this.entries == entries && calls == 0 && this.fault == fault
    {
      this.entries := entries;
      this.calls := 0;
      this.fault := fault;
    }

    method Set(k: string, v: Session) returns (ok: bool)
      modifies this
      ensures (ok, State()) == SetSpec(fault, old(State()), k, v)
    {
      ok := !fault(calls);
      if ok {
        entries := entries[k := v];
      }
      calls := calls + 1;
    }

    method Get(k: string) returns (ok: bool, found: Option<Session>)
      modifies this
      ensures (ok, found, State()) == GetSpec(fault, old(State()), k)
    {
      ok := !fault(calls);
      found := if ok && k in entries then Some(entries[k]) else None;
      calls := calls + 1;
    }

    method Del(k: string) returns (ok: bool)
      modifies this
      ensures (ok, State()) == DelSpec(fault, old(State()), k)
    {
      ok := !fault(calls);
      if ok {
        entries := entries - {k};
      }
      calls := calls + 1;
    }
  }
}
