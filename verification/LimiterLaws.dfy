/** What one call does to the limiter's map, stated on the hits and addresses. */
module LimiterLaws {
  import opened Wrappers
  import opened RateLimiters
  import opened LimiterRuns

  /** Whether the bucket has a hit later than `t`; its hits are in order. */
  ghost predicate HasLater(bucket: seq<nat>, t: int) { exists i :: 0 <= i < |bucket| && bucket[i] > t }

  lemma LivelyIs(bucket: seq<nat>, t: nat)
    requires Sorted(bucket)
    ensures Lively(bucket, t) <==> HasLater(bucket, t)
  {
    if i :| 0 <= i < |bucket| && bucket[i] > t { assert bucket[i] <= bucket[|bucket| - 1]; }
  }

  /** A sweep comes first of all, and then not before a window has passed since the last one. It
      drops exactly the keys without a hit in the window, and changes no bucket. */
  lemma SweepsExactly(hits: Hits, lastSweep: Option<nat>, now: nat, window: nat, key: IpAddr)
    requires forall k :: k in hits ==> Sorted(hits[k])
    requires window <= now && (lastSweep.Some? ==> lastSweep.value <= now)
    ensures var after := SweptIfDue(hits, lastSweep, now, window);
      var due := lastSweep == None || (lastSweep.Some? && now - lastSweep.value >= window);
      && (key in after <==> key in hits && (due ==> HasLater(hits[key], now - window)))
      && (key in after ==> after[key] == hits[key])
  {
    if key in hits { LivelyIs(hits[key], now - window); }
  }

  /** Pruning drops exactly the hits at or before the cutoff. */
  lemma PrunesExactly(bucket: seq<nat>, cutoff: nat) returns (n: nat)
    requires Sorted(bucket)
    ensures n <= |bucket| && Prune(bucket, cutoff) == bucket[n..]
    ensures forall i :: 0 <= i < n ==> bucket[i] <= cutoff
    ensures forall i :: n <= i < |bucket| ==> bucket[i] > cutoff
  {
    PruneSplits(bucket, cutoff);
    n := |bucket| - |Prune(bucket, cutoff)|;
  }

  /** A call is admitted when fewer than the budget of its key's hits lie after the cutoff, is
      recorded if so, and touches no other bucket. */
  lemma RecordsExactly(hits: Hits, key: IpAddr, now: nat, window: nat, maxAttempts: nat, other: IpAddr) returns (n: nat)
    requires window <= now && forall k :: k in hits ==> Sorted(hits[k])
    ensures var bucket := if key in hits then hits[key] else [];
      && n <= |bucket| && (forall i :: 0 <= i < n ==> bucket[i] <= now - window) && (forall i :: n <= i < |bucket| ==> bucket[i] > now - window)
      && (Admits(hits, key, now, window, maxAttempts) <==> |bucket| - n < maxAttempts)
      && Recorded(hits, key, now, window, maxAttempts) ==
           hits[key := if |bucket| - n < maxAttempts then bucket[n..] + [now] else bucket[n..]]
  {
    var bucket := if key in hits then hits[key] else [];
    n := PrunesExactly(bucket, now - window);
  }

  // ----- Evictions -----

  /** Addresses are ordered as numbers, every V4 address before every V6 one. */
  lemma AddressOrder(a: IpAddr, b: IpAddr)
    requires a.V6? ==> 0 <= a.suffix < 0x1_0000_0000_0000_0000
    requires b.V6? ==> 0 <= b.suffix < 0x1_0000_0000_0000_0000
    ensures AddrBefore(a, b) <==>
      || (a.V4? && b.V6?)
      || (a.V4? && b.V4? && a.addr < b.addr)
      || (a.V6? && b.V6? && a.prefix * 0x1_0000_0000_0000_0000 + a.suffix < b.prefix * 0x1_0000_0000_0000_0000 + b.suffix)
  {
  }

  function Newest(bucket: seq<nat>): int { if bucket == [] then -1 else bucket[|bucket| - 1] }

  /** A key is staler whose newest hit is earlier, or as early and its address before. */
  lemma StalerIs(hits: Hits, a: IpAddr, b: IpAddr)
    requires a in hits && b in hits
    ensures StalerThan(hits, a, b) <==>
      Newest(hits[a]) < Newest(hits[b]) || (Newest(hits[a]) == Newest(hits[b]) && AddrBefore(a, b))
  {
  }

  /** Only a call for an unknown key in a map of a hundred thousand keys evicts, and then ten thousand
      of them, each staler than every one that stays. */
  lemma EvictsExactly(hits: Hits, key: IpAddr, evicted: set<IpAddr>)
    ensures MayEvict(hits, key, evicted) <==>
      if |hits| >= 100_000 && key !in hits then
        && (forall e :: e in evicted ==> e in hits) && |evicted| == 10_000
        && (forall e, k :: e in evicted && k in hits && k !in evicted ==> StalerThan(hits, e, k))
      else evicted == {}
  {
  }

  /** Over every run the map has at most a hundred thousand keys, and ten thousand keys have been
      inserted for every eviction. */
  lemma CeilingIsKept(c: Config, calls: seq<Call>)
    requires ValidRun(c, Begin(), calls)
    ensures var r := Exec(c, Begin(), calls);
      |r.hits| <= 100_000 && |r.hits| + 10_000 * r.evictions <= r.inserted <= r.calls
  {
    MemoryIsBounded(c, Begin(), calls);
  }
}
