/** Which addresses share a budget: stated on the addresses of the calls. */
module LimiterAddresses {
  import opened Wrappers
  import opened RateLimiters
  import opened LimiterRuns

  /** One V4 address, or V6 addresses of one /64 prefix. */
  predicate OneClient(a: IpAddr, b: IpAddr) {
    (a.V4? && b.V4? && a.addr == b.addr) || (a.V6? && b.V6? && a.prefix == b.prefix)
  }

  /** The times of the calls from `a`'s client. */
  function ClientTimes(calls: seq<Call>, a: IpAddr): seq<nat> {
    if calls == [] then []
    else (if OneClient(calls[0].ip, a) then [calls[0].now] else []) + ClientTimes(calls[1..], a)
  }

  /** The answers to them, in order. */
  function ClientAnswers(c: Config, r: Run, calls: seq<Call>, a: IpAddr): seq<bool>
    decreases |calls|
  {
    if calls == [] then []
    else
      (if OneClient(calls[0].ip, a) then [Allowed(c, r, calls[0])] else [])
      + ClientAnswers(c, Next(c, r, calls[0]), calls[1..], a)
  }

  predicate EvictsClient(call: Call, a: IpAddr) {
    exists e :: e in call.evicted && OneClient(e, a)
  }

  ghost predicate ClientKept(calls: seq<Call>, a: IpAddr) {
    forall i :: 0 <= i < |calls| ==> !EvictsClient(calls[i], a)
  }

  lemma OneClientOneKey(a: IpAddr, b: IpAddr)
    ensures OneClient(a, b) <==> LimiterKey(a) == LimiterKey(b)
    ensures OneClient(LimiterKey(a), a)
  {
  }

  lemma {:induction false} ClientIsKey(c: Config, r: Run, calls: seq<Call>, a: IpAddr)
    ensures ClientTimes(calls, a) == Times(calls, LimiterKey(a))
    ensures ClientAnswers(c, r, calls, a) == Answers(c, r, calls, LimiterKey(a))
    decreases |calls|
  {
    if calls != [] {
      OneClientOneKey(calls[0].ip, a);
      ClientIsKey(c, Next(c, r, calls[0]), calls[1..], a);
    }
  }

  lemma KeptIsNeverEvicted(calls: seq<Call>, a: IpAddr)
    requires ClientKept(calls, a)
    ensures NeverEvicted(calls, LimiterKey(a))
  {
    OneClientOneKey(a, a);
    forall i | 0 <= i < |calls| ensures LimiterKey(a) !in calls[i].evicted {
      assert !EvictsClient(calls[i], a);
    }
  }

  /** Over every run that never evicts a client, its answers are those of one budget for all its
      addresses, and of nobody else's calls. */
  lemma ClientsShareOneBudget(c: Config, calls: seq<Call>, a: IpAddr)
    requires ValidRun(c, Begin(), calls) && ClientKept(calls, a)
    ensures ClientAnswers(c, Begin(), calls, a) == Forgetful(c, [], ClientTimes(calls, a))
  {
    BeginOk(c);
    ClientIsKey(c, Begin(), calls, a);
    KeptIsNeverEvicted(calls, a);
    AnswersAreForgetful(c, Begin(), calls, LimiterKey(a));
  }

  /** So two runs in which it calls at the same times, from whichever of its addresses, answer it
      alike. */
  lemma ClientsAreIndependent(c: Config, one: seq<Call>, other: seq<Call>, a: IpAddr)
    requires ValidRun(c, Begin(), one) && ClientKept(one, a)
    requires ValidRun(c, Begin(), other) && ClientKept(other, a)
    requires ClientTimes(one, a) == ClientTimes(other, a)
    ensures ClientAnswers(c, Begin(), one, a) == ClientAnswers(c, Begin(), other, a)
  {
    ClientsShareOneBudget(c, one, a);
    ClientsShareOneBudget(c, other, a);
  }

  // ----- The budget of a client -----

  /** How many calls of the client were admitted in `(lo, t]`. */
  function ClientAdmitted(c: Config, r: Run, calls: seq<Call>, a: IpAddr, lo: int, t: int): nat
    decreases |calls|
  {
    if calls == [] then 0
    else
      (if OneClient(calls[0].ip, a) && Allowed(c, r, calls[0]) && lo < calls[0].now <= t then 1 else 0)
      + ClientAdmitted(c, Next(c, r, calls[0]), calls[1..], a, lo, t)
  }

  /** How many calls in `(lo, t]` evicted it. */
  function ClientEvictions(calls: seq<Call>, a: IpAddr, lo: int, t: int): nat {
    if calls == [] then 0
    else (if EvictsClient(calls[0], a) && lo < calls[0].now <= t then 1 else 0) + ClientEvictions(calls[1..], a, lo, t)
  }

  /** Only keys are in the map, so an evicted address is the key of its client. */
  ghost predicate OnlyKeys(r: Run) {
    forall k :: k in r.hits ==> LimiterKey(k) == k
  }

  lemma OnlyKeysKept(c: Config, r: Run, call: Call)
    requires OnlyKeys(r)
    ensures OnlyKeys(Next(c, r, call))
  {
    OneClientOneKey(LimiterKey(call.ip), call.ip);
  }

  lemma EvictedIsKey(c: Config, r: Run, call: Call, a: IpAddr)
    requires OnlyKeys(r) && Valid(c, r, call)
    ensures EvictsClient(call, a) <==> LimiterKey(a) in call.evicted
  {
    OneClientOneKey(a, a);
    if e :| e in call.evicted && OneClient(e, a) {
      OneClientOneKey(e, a);
      assert e in SweptHits(c, r, call.now);
    }
  }

  lemma MoreHits(h: History, now: nat, lo: int, t: int)
    ensures Total(History(h.past, h.current + [now]), lo, t) == Total(h, lo, t) + (if lo < now <= t then 1 else 0)
    ensures Evictions(History(h.past, h.current + [now]), lo, t) == Evictions(h, lo, t)
  {
    CountLast(h.current, now, lo, t);
    if h.past != [] { assert Previous(History(h.past, h.current + [now])) == Previous(h); }
  }

  lemma MoreEvictions(h: History, now: nat, lo: int, t: int)
    ensures Total(Evict(h, now), lo, t) == Total(h, lo, t)
    ensures Evictions(Evict(h, now), lo, t) == Evictions(h, lo, t) + (if lo < now <= t then 1 else 0)
  {
    assert Previous(Evict(h, now)) == h by { assert Evict(h, now).past[..|h.past|] == h.past; }
  }

  lemma CallCounts(c: Config, r: Run, call: Call, a: IpAddr, lo: int, t: int)
    requires OnlyKeys(r) && Valid(c, r, call)
    ensures var h, h', inside := HistoryOf(r.log, LimiterKey(a)), HistoryOf(Next(c, r, call).log, LimiterKey(a)), lo < call.now <= t;
      && Total(h', lo, t) == Total(h, lo, t) + (if OneClient(call.ip, a) && Allowed(c, r, call) && inside then 1 else 0)
      && Evictions(h', lo, t) == Evictions(h, lo, t) + (if EvictsClient(call, a) && inside then 1 else 0)
  {
    var h := HistoryOf(r.log, LimiterKey(a));
    OneClientOneKey(call.ip, a);
    EvictedIsKey(c, r, call, a);
    EvictsOthers(c, r, call);
    MoreHits(h, call.now, lo, t);
    MoreEvictions(h, call.now, lo, t);
    if OneClient(call.ip, a) { CalledKeyNext(c, r, call); } else { OtherKeyNext(c, r, call, LimiterKey(a)); }
  }

  lemma {:induction false} RunCounts(c: Config, r: Run, calls: seq<Call>, a: IpAddr, lo: int, t: int)
    requires OnlyKeys(r) && ValidRun(c, r, calls)
    ensures var h, h' := HistoryOf(r.log, LimiterKey(a)), HistoryOf(Exec(c, r, calls).log, LimiterKey(a));
      && Total(h', lo, t) == Total(h, lo, t) + ClientAdmitted(c, r, calls, a, lo, t)
      && Evictions(h', lo, t) == Evictions(h, lo, t) + ClientEvictions(calls, a, lo, t)
    decreases |calls|
  {
    if calls != [] {
      CallCounts(c, r, calls[0], a, lo, t);
      OnlyKeysKept(c, r, calls[0]);
      RunCounts(c, Next(c, r, calls[0]), calls[1..], a, lo, t);
    }
  }

  /** Over every run, all the addresses of a client together are admitted at most the budget times
      one plus the client's evictions in any stretch of at most a window after the first window of
      the clock, and in any window at all if no call came in the first. */
  lemma ClientBudget(c: Config, calls: seq<Call>, a: IpAddr, lo: int, t: int)
    requires ValidRun(c, Begin(), calls) && t - c.window <= lo && (c.window - 1 <= lo || Started(c, calls))
    ensures ClientAdmitted(c, Begin(), calls, a, lo, t) <= c.maxAttempts * (1 + ClientEvictions(calls, a, lo, t))
  {
    assert HistoryOf(Begin().log, LimiterKey(a)) == History([], []);
    RunCounts(c, Begin(), calls, a, lo, t);
    AdmissionsUnderEviction(c, calls, LimiterKey(a), lo, t);
  }
}
