/** The template cache of the API server (`api/coinbase_template.go`, `get`): calls that share one
  * probe of the pool, with all other callers free to run whenever the mutex is not held.
  */
module TemplateCache {
  import opened Basics
  import opened CoinbaseTemplate

  datatype Decision = Use | Refresh | Neither

  /** `decide`: whether a template answers a call for a height, or for the latest work. */
  function Decide(t: Option<Template>, candidate: Option<int>, now: int, maxAge: int): Decision {
    if t.None? then Refresh
    else if candidate.Some? then
      if candidate.value == t.value.height then Use
      else if candidate.value > t.value.height then Refresh
      else Neither
    else if now - t.value.fetchedAt < maxAge then Use
    else Refresh
  }

  /** No call is ever answered with a template of another height, and a height the pool has left
    * never costs a probe. */
  lemma DecidesByHeight(t: Template, height: int, now: int, maxAge: int)
    ensures Decide(Some(t), Some(height), now, maxAge) == Use <==> t.height == height
    ensures Decide(Some(t), Some(height), now, maxAge) == Neither <==> height < t.height
  {
  }

  /** The cached template does not answer the call, but another could. */
  predicate Wanting(t: Option<Template>, candidate: Option<int>, now: int, maxAge: int) {
    t.None? || if candidate.Some? then candidate.value > t.value.height else now - t.value.fetchedAt >= maxAge
  }

  /** A refresh less than two seconds ago did not bring what the call wants. */
  predicate Missed(lastRefresh: Option<int>, lastFailed: bool, lastWanted: int, candidate: Option<int>, now: int) {
    lastRefresh.Some? && now - lastRefresh.value < 2 && (lastFailed || (candidate.Some? && candidate.value <= lastWanted))
  }

  class Cache {
    var tmpl: Option<Template>
    var inflight: bool
    var lastRefresh: Option<int>
    var lastFailed: bool
    var lastWanted: int

    // Probes of the pool that are running.
    ghost var probes: nat

    ghost predicate Valid()
      reads this
    {
      probes == if inflight then 1 else 0
    }

    constructor ()
      ensures Valid() && tmpl == None && !inflight
    {
      tmpl, inflight, lastRefresh, lastFailed, lastWanted, probes := None, false, None, false, 0, 0;
    }

    /** Other callers run. They start a probe only if none is in flight, and only the caller that
      * started it stores its result. */
    method Others(ours: bool)
      requires Valid() && (ours ==> inflight)
      modifies this
      ensures Valid() && (ours ==> inflight && tmpl == old(tmpl))
    {
      if !ours {
        tmpl, inflight, lastRefresh, lastFailed, lastWanted := *, *, *, *, *;
        probes := if inflight then 1 else 0;
      }
    }

    /** `recentlyMissed`. */
    method RecentlyMissed(candidate: Option<int>, now: int) returns (missed: bool)
      ensures missed <==> Missed(lastRefresh, lastFailed, lastWanted, candidate, now)
    {
      if lastRefresh.None? || now - lastRefresh.value >= RETRY_INTERVAL {
        return false;
      }
      if lastFailed {
        return true;
      }
      return candidate.Some? && candidate.value <= lastWanted;
    }

    /** `get`, entered at time `now`, with what its probe brings if it makes one. A call probes the pool once at
      * most and comes to an end, and no two probes run at a time. A template that answers the call when it
      * comes is returned without a probe, and a height the pool has left is given up without one; what is
      * returned in any case is the cached template, of the height asked for. If nothing is in the way the
      * call makes its probe, and a template it brings of that height is the answer. */
    method Get(candidate: Option<int>, maxAge: int, now: int, probe: Option<Template>)
      returns (t: Option<Template>, fetches: nat)
      requires Valid()
      modifies this
      ensures Valid() && fetches <= 1
      ensures t.Some? && candidate.Some? ==> t.value.height == candidate.value
      ensures t.Some? ==> t == tmpl
      ensures old(tmpl).Some? && (if candidate.Some? then candidate.value == old(tmpl).value.height
                                  else now - old(tmpl).value.fetchedAt < maxAge) ==>
                t == old(tmpl) == tmpl && fetches == 0
      ensures old(tmpl).Some? && candidate.Some? && candidate.value < old(tmpl).value.height ==> t == None && fetches == 0
      ensures var missed := Missed(old(lastRefresh), old(lastFailed), old(lastWanted), candidate, now);
              Wanting(old(tmpl), candidate, now, maxAge) && !old(inflight) ==>
                && fetches == One(!missed) && (missed ==> t == None)
                && (!missed ==> tmpl == (if probe.Some? then probe else old(tmpl)) && lastFailed == probe.None?)
                && (!missed && candidate.Some? ==>
                      (t.Some? <==> probe.Some? && probe.value.height == candidate.value))
    {
      var refreshed, time := false, now;
      fetches := 0;
      while true
        invariant Valid() && fetches <= One(refreshed)
        invariant !refreshed ==> fetches == 0 && time == now && tmpl == old(tmpl) && inflight == old(inflight)
        invariant !refreshed ==> lastRefresh == old(lastRefresh) && lastFailed == old(lastFailed) && lastWanted == old(lastWanted)
        invariant refreshed ==> Wanting(old(tmpl), candidate, now, maxAge)
        invariant refreshed && !old(inflight) ==>
                    && fetches == 1 && tmpl == (if probe.Some? then probe else old(tmpl)) && lastFailed == probe.None?
                    && !Missed(old(lastRefresh), old(lastFailed), old(lastWanted), candidate, now)
        decreases if refreshed then 0 else 1
      {
        var decision := Decide(tmpl, candidate, time, maxAge);
        if decision == Use {
          return tmpl, fetches;
        }
        if decision == Neither || refreshed {
          return None, fetches;
        }
        if inflight {
          Others(false);
          refreshed, time := true, *;
          continue;
        }
        var missed := RecentlyMissed(candidate, time);
        if missed {
          return None, fetches;
        }
        lastWanted := if candidate.Some? then candidate.value else 0;
        inflight, probes := true, probes + 1;
        Others(true);
        fetches := fetches + 1;
        if probe.Some? {
          tmpl := probe;
        }
        time := *;
        lastRefresh, lastFailed := Some(time), probe.None?;
        inflight, probes := false, probes - 1;
        time, refreshed := *, true;
      }
    }
  }
}
