/** The per-IP sliding-window limiter: its buckets, the periodic sweep and the at-cap
    eviction, as the code changes them in place. Instants are integers. */
module RateLimiters {
  import opened Wrappers

  /** A V6 address is its /64 prefix and its interface half. */
  datatype IpAddr = V4(addr: int) | V6(prefix: int, suffix: int)

  const MAX_TRACKED_IPS: nat := 100_000
  // a tenth of the ceiling
  const EVICT_BATCH: nat := 10_000

  function LimiterKey(ip: IpAddr): IpAddr {
    match ip
    case V4(_) => ip
    case V6(prefix, _) => V6(prefix, 0)
  }

  predicate AddrBefore(a: IpAddr, b: IpAddr) {
    match (a, b)
    case (V4(x), V4(y)) => x < y
    case (V4(_), V6(_, _)) => true
    case (V6(_, _), V4(_)) => false
    case (V6(p, x), V6(q, y)) => p < q || (p == q && x < y)
  }

  /** `now.checked_sub(window).unwrap_or(now)`. */
  function Cutoff(now: nat, window: nat): nat {
    if window <= now then now - window else now
  }

  function Prune(bucket: seq<nat>, cutoff: nat): (live: seq<nat>) {
    if bucket != [] && bucket[0] <= cutoff then Prune(bucket[1..], cutoff) else bucket
  }

  type Hits = map<IpAddr, seq<nat>>

  function BucketOf(hits: Hits, key: IpAddr): seq<nat> {
    if key in hits then hits[key] else []
  }

  predicate SweepDue(lastSweep: Option<nat>, now: nat, window: nat) {
    match lastSweep
    case None => true
    case Some(previous) => (if now >= previous then now - previous else 0) >= window
  }

  predicate Lively(bucket: seq<nat>, cutoff: nat) {
    bucket != [] && bucket[|bucket| - 1] > cutoff
  }

  function Swept(hits: Hits, cutoff: nat): Hits {
    map key | key in hits && Lively(hits[key], cutoff) :: hits[key]
  }

  function SweptIfDue(hits: Hits, lastSweep: Option<nat>, now: nat, window: nat): Hits {
    if SweepDue(lastSweep, now, window) then Swept(hits, Cutoff(now, window)) else hits
  }

  /** The `(newest hit, key)` order of the eviction pass; a bucket without a hit comes first. */
  predicate StalerThan(hits: Hits, a: IpAddr, b: IpAddr)
    requires a in hits && b in hits
  {
    var x, y := hits[a], hits[b];
    if x == [] then y != [] || AddrBefore(a, b)
    else y != [] && (x[|x| - 1] < y[|y| - 1] || (x[|x| - 1] == y[|y| - 1] && AddrBefore(a, b)))
  }

  /** The `count` stalest keys: every key left behind is more recent than each of them. */
  ghost predicate AreStalest(hits: Hits, evicted: set<IpAddr>, count: nat) {
    && evicted <= hits.Keys && |evicted| == count
    && forall e, k :: e in evicted && k in hits && k !in evicted ==> StalerThan(hits, e, k)
  }

  function Min(a: nat, b: nat): nat { if a < b then a else b }

  /** What the at-cap branch of a call for `key` may evict. */
  ghost predicate MayEvict(hits: Hits, key: IpAddr, evicted: set<IpAddr>) {
    if |hits| >= MAX_TRACKED_IPS && key !in hits
    then AreStalest(hits, evicted, Min(EVICT_BATCH, |hits|))
    else evicted == {}
  }

  predicate Admits(hits: Hits, key: IpAddr, now: nat, window: nat, maxAttempts: nat) {
    |Prune(BucketOf(hits, key), Cutoff(now, window))| < maxAttempts
  }

  /** The buckets after the sweep and the eviction, with the call itself recorded. */
  function Recorded(hits: Hits, key: IpAddr, now: nat, window: nat, maxAttempts: nat): Hits {
    var live := Prune(BucketOf(hits, key), Cutoff(now, window));
    hits[key := if |live| < maxAttempts then live + [now] else live]
  }

  class Buckets {
    var hits: Hits
    var lastSweep: Option<nat>

    constructor ()
      ensures hits == map[] && lastSweep == None
    {
      hits, lastSweep := map[], None;
    }

    method SweepIfDue(now: nat, cutoff: nat, window: nat)
      requires cutoff == Cutoff(now, window)
      modifies this
      ensures hits == SweptIfDue(old(hits), old(lastSweep), now, window)
      ensures lastSweep == if SweepDue(old(lastSweep), now, window) then Some(now) else old(lastSweep)
    {
      if lastSweep.Some? {
        var since := if now >= lastSweep.value then now - lastSweep.value else 0;
        if since < window { return; }
      }
      lastSweep := Some(now);
      hits := map key | key in hits && Lively(hits[key], cutoff) :: hits[key];
    }

    /** The stalest of the keys in `among`. */
    method FindStalest(among: set<IpAddr>) returns (least: IpAddr)
      requires among != {} && among <= hits.Keys
      ensures least in among && forall k :: k in among && k != least ==> StalerThan(hits, least, k)
    {
      least :| least in among;
      var rest := among - {least};
      while rest != {}
        invariant rest <= among && least in among && least !in rest
        invariant forall k :: k in among && k !in rest && k != least ==> StalerThan(hits, least, k)
        decreases rest
      {
        var k :| k in rest;
        rest := rest - {k};
        if StalerThan(hits, k, least) {
          least := k;
        }
      }
    }

    method EvictStalest(count: nat) returns (ghost evicted: set<IpAddr>)
      modifies this`hits
      ensures AreStalest(old(hits), evicted, Min(count, |old(hits)|))
      ensures hits == old(hits) - evicted
    {
      var n := if count < |hits| then count else |hits|;
      var chosen: set<IpAddr> := {};
      while |chosen| < n
        invariant chosen <= hits.Keys && |chosen| <= n <= |hits|
        invariant hits == old(hits)
        invariant forall e, k :: e in chosen && k in hits && k !in chosen ==> StalerThan(hits, e, k)
        decreases n - |chosen|
      {
        assert |hits.Keys - chosen| == |hits| - |chosen|;
        var least := FindStalest(hits.Keys - chosen);
        chosen := chosen + {least};
      }
      evicted := chosen;
      hits := hits - chosen;
    }
  }

  class RateLimiter {
    const maxAttempts: nat
    const window: nat
    const buckets: Buckets
    var unresolved: seq<nat>

    constructor (maxAttempts: nat, window: nat)
      ensures this.maxAttempts == maxAttempts && this.window == window && unresolved == []
      ensures fresh(buckets) && buckets.hits == map[] && buckets.lastSweep == None
    {
      this.maxAttempts, this.window, unresolved := maxAttempts, window, [];
      buckets := new Buckets();
    }

    method CheckAt(ip: IpAddr, now: nat) returns (allowed: bool, ghost evicted: set<IpAddr>)
      modifies buckets
      ensures var key, swept := LimiterKey(ip), SweptIfDue(old(buckets.hits), old(buckets.lastSweep), now, window);
        && MayEvict(swept, key, evicted)
        && allowed == Admits(swept - evicted, key, now, window, maxAttempts)
        && buckets.hits == Recorded(swept - evicted, key, now, window, maxAttempts)
      ensures buckets.lastSweep == if SweepDue(old(buckets.lastSweep), now, window) then Some(now) else old(buckets.lastSweep)
    {
      var key := LimiterKey(ip);
      var cutoff := Cutoff(now, window);
      buckets.SweepIfDue(now, cutoff, window);
      evicted := {};
      if |buckets.hits| >= MAX_TRACKED_IPS && key !in buckets.hits {
        evicted := buckets.EvictStalest(EVICT_BATCH);
      } else {
        assert buckets.hits - evicted == buckets.hits;
      }
      var bucket := BucketOf(buckets.hits, key);
      bucket := DropExpired(bucket, cutoff);
      allowed := |bucket| < maxAttempts;
      if allowed {
        bucket := bucket + [now];
      }
      buckets.hits := buckets.hits[key := bucket];
    }

    /** The shared bucket of the requests whose address cannot be resolved. */
    method CheckUnresolvedAt(now: nat) returns (allowed: bool)
      modifies this`unresolved
      ensures var live := Prune(old(unresolved), Cutoff(now, window));
        allowed == (|live| < maxAttempts) && unresolved == if allowed then live + [now] else live
    {
      unresolved := DropExpired(unresolved, Cutoff(now, window));
      allowed := |unresolved| < maxAttempts;
      if allowed {
        unresolved := unresolved + [now];
      }
    }
  }

  method DropExpired(bucket: seq<nat>, cutoff: nat) returns (live: seq<nat>)
    ensures live == Prune(bucket, cutoff)
  {
    live := bucket;
    while live != [] && live[0] <= cutoff
      invariant Prune(live, cutoff) == Prune(bucket, cutoff)
      decreases |live|
    {
      live := live[1..];
    }
  }
}
