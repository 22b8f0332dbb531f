/**
  The Ollama status cache of backend/app.py (`ollama_status_cache`,
  `get_cached_ollama_status`, `update_ollama_status_cache`) and the
  `/status` route that reads and refreshes it.  The clock is explicit: each
  read of `time.time()` is a parameter, in seconds; what `check_ollama_status()` returns is the
  parameter `probe`.
*/
module StatusCache {

  import opened Wrappers

  /** The outcome of one call of `check_ollama_status()`: it returns whether
      Ollama answered and the model names it listed, or it raises. */
  datatype Probe = Completed(running: bool, models: seq<string>) | Raised

  /** The JSON body of a `/status` reply (the HTTP status is always 200). */
  datatype StatusReply =
    | Running(ollamaAvailable: bool, availableModels: seq<string>)
    | CheckFailed

  const CacheDuration: real := 30.0

  class OllamaStatusCache {
    var lastCheck: real
    var status: Option<bool>
    var models: Option<seq<string>>
    var cacheDuration: real

    /** A status is stored exactly when a model list is, and the window is 30 s. */
    ghost predicate Valid()
      reads this
    {
      status.Some? == models.Some? && cacheDuration == CacheDuration
    }

    constructor ()
      ensures Valid()
      ensures lastCheck == 0.0 && status == None && models == None
    {
      lastCheck := 0.0;
      status := None;
      models := None;
      cacheDuration := CacheDuration;
    }

    /** The stored entry is fresh at time `now`. */
    predicate IsFresh(now: real)
      reads this
    {
      now - lastCheck < cacheDuration
    }

    /** `get_cached_ollama_status()`: the stored status and models while the
        entry is fresh, `(None, None)` once it is not. */
    function Lookup(now: real): (r: (Option<bool>, Option<seq<string>>))
      reads this
      ensures IsFresh(now) ==> r == (status, models)
      ensures !IsFresh(now) ==> r == (None, None)
      ensures Valid() ==> (r.0.Some? <==> r.1.Some?)
    {
      if now - lastCheck < cacheDuration then (status, models) else (None, None)
    }

    /** `update_ollama_status_cache(status, models)` at time `now`. */
    method Update(now: real, newStatus: bool, newModels: seq<string>)
      requires Valid()
      modifies this
      ensures Valid()
      ensures lastCheck == now && status == Some(newStatus) && models == Some(newModels)
      ensures cacheDuration == old(cacheDuration)
    {
      lastCheck := now;
      status := Some(newStatus);
      models := Some(newModels);
    }

    /** The `/status` route: the cache is looked up at time `now`.  A fresh
        stored status, `False` included, is a hit: it is returned, the check
        is not called (`probed` is false) and the cache is left alone.  On a
        miss the check runs once; a completed check is stored, stamped with
        `storedAt`, the clock as the update reads it afterwards (nothing ties
        it to `now`: the wall clock may step back), and returned; a raising
        one leaves the cache as it was. */
    method Status(now: real, storedAt: real, probe: Probe) returns (reply: StatusReply, probed: bool)
      requires Valid()
      modifies this
      ensures Valid()
      ensures old(Lookup(now)).0.Some? ==>
        && reply == Running(old(status).value, old(models).value)
        && !probed
        && unchanged(this)
      ensures old(Lookup(now)).0.None? ==> probed
      ensures old(Lookup(now)).0.None? && probe.Completed? ==>
        && reply == Running(probe.running, probe.models)
        && lastCheck == storedAt && status == Some(probe.running) && models == Some(probe.models)
        && cacheDuration == old(cacheDuration)
      ensures old(Lookup(now)).0.None? && probe.Raised? ==> reply == CheckFailed && unchanged(this)
    {
      var (cachedStatus, cachedModels) := Lookup(now);
      if cachedStatus.Some? {
        return Running(cachedStatus.value, cachedModels.value), false;
      }
      probed := true;
      match probe
      case Raised =>
        reply := CheckFailed;
      case Completed(running, available) =>
        Update(storedAt, running, available);
        reply := Running(running, available);
    }
  }

  /** Two `/status` requests, the first a miss that stores its result at
      `s1`, the second looking up less than 30 s after `s1`: the second is
      served from the entry the first stored, with the same reply, and does
      not call the check. */
  method TwoRequestsInWindow(cache: OllamaStatusCache, t1: real, s1: real, t2: real, s2: real, p1: Probe, p2: Probe)
      returns (r1: StatusReply, r2: StatusReply, probed2: bool)
    requires cache.Valid() && cache.Lookup(t1).0.None? && p1.Completed?
    requires t1 <= s1 <= t2 < s1 + CacheDuration && t2 <= s2
    modifies cache
    ensures r2 == r1 && !probed2
  {
    var probed1;
    r1, probed1 := cache.Status(t1, s1, p1);
    r2, probed2 := cache.Status(t2, s2, p2);
  }
}
