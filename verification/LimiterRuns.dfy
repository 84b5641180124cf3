/** Runs of the limiter against a log of its admitted hits. */
module LimiterRuns {
  import opened Wrappers
  import opened RateLimiters

  /** Every admitted hit of a key: those before each eviction of the key, with the time of
      that eviction, and those since the last one. */
  datatype History = History(past: seq<(seq<nat>, nat)>, current: seq<nat>)

  datatype Run = Run(
    hits: Hits, lastSweep: Option<nat>, clock: nat,
    log: map<IpAddr, History>, calls: nat, inserted: nat, evictions: nat)

  datatype Call = Call(ip: IpAddr, now: nat, evicted: set<IpAddr>)

  datatype Config = Config(maxAttempts: nat, window: nat)

  function Begin(): Run { Run(map[], None, 0, map[], 0, 0, 0) }

  function HistoryOf(log: map<IpAddr, History>, key: IpAddr): History {
    if key in log then log[key] else History([], [])
  }

  function SweptHits(c: Config, r: Run, now: nat): Hits {
    SweptIfDue(r.hits, r.lastSweep, now, c.window)
  }

  /** Time never runs backwards, and the eviction is one the at-cap branch may make. */
  ghost predicate Valid(c: Config, r: Run, call: Call) {
    r.clock <= call.now && MayEvict(SweptHits(c, r, call.now), LimiterKey(call.ip), call.evicted)
  }

  function Allowed(c: Config, r: Run, call: Call): bool {
    Admits(SweptHits(c, r, call.now) - call.evicted, LimiterKey(call.ip), call.now, c.window, c.maxAttempts)
  }

  function Evict(h: History, now: nat): History {
    History(h.past + [(h.current, now)], [])
  }

  function NextHistory(c: Config, r: Run, call: Call, key: IpAddr): History {
    var h := HistoryOf(r.log, key);
    if key in call.evicted then Evict(h, call.now)
    else if key == LimiterKey(call.ip) && Allowed(c, r, call) then History(h.past, h.current + [call.now])
    else h
  }

  function Next(c: Config, r: Run, call: Call): Run {
    var key := LimiterKey(call.ip);
    var swept := SweptHits(c, r, call.now);
    Run(
      Recorded(swept - call.evicted, key, call.now, c.window, c.maxAttempts),
      if SweepDue(r.lastSweep, call.now, c.window) then Some(call.now) else r.lastSweep,
      call.now,
      map k | k in r.log.Keys + call.evicted + {key} :: NextHistory(c, r, call, k),
      r.calls + 1,
      if key in swept then r.inserted else r.inserted + 1,
      if |swept| >= MAX_TRACKED_IPS && key !in swept then r.evictions + 1 else r.evictions)
  }

  ghost predicate ValidRun(c: Config, r: Run, calls: seq<Call>)
    decreases |calls|
  {
    calls == [] || (Valid(c, r, calls[0]) && ValidRun(c, Next(c, r, calls[0]), calls[1..]))
  }

  function Exec(c: Config, r: Run, calls: seq<Call>): Run
    decreases |calls|
  {
    if calls == [] then r else Exec(c, Next(c, r, calls[0]), calls[1..])
  }

  // ----- Counting hits in a window -----

  /** How many of the hits lie in `(lo, hi]`. */
  function Count(hits: seq<nat>, lo: int, hi: int): nat {
    if hits == [] then 0
    else Count(hits[..|hits| - 1], lo, hi) + if lo < hits[|hits| - 1] <= hi then 1 else 0
  }

  /** How many of the hits lie in the window that ends at `t`. */
  function InWindow(hits: seq<nat>, window: nat, t: int): nat {
    Count(hits, t - window, t)
  }

  ghost predicate Sorted(s: seq<nat>) {
    forall i, j :: 0 <= i < j < |s| ==> s[i] <= s[j]
  }

  lemma {:induction false} CountNone(s: seq<nat>, lo: int, hi: int)
    requires forall i :: 0 <= i < |s| ==> !(lo < s[i] <= hi)
    ensures Count(s, lo, hi) == 0
  {
    if s != [] { CountNone(s[..|s| - 1], lo, hi); }
  }

  lemma {:induction false} CountAll(s: seq<nat>, lo: int, hi: int)
    requires forall i :: 0 <= i < |s| ==> lo < s[i] <= hi
    ensures Count(s, lo, hi) == |s|
  {
    if s != [] { CountAll(s[..|s| - 1], lo, hi); }
  }

  lemma {:induction false} CountAppend(a: seq<nat>, b: seq<nat>, lo: int, hi: int)
    ensures Count(a + b, lo, hi) == Count(a, lo, hi) + Count(b, lo, hi)
  {
    if b == [] {
      assert a + b == a;
    } else {
      assert (a + b)[..|a + b| - 1] == a + b[..|b| - 1];
      CountAppend(a, b[..|b| - 1], lo, hi);
    }
  }

  /** With every hit at or before `hi`, a later window sees no more of them. */
  lemma {:induction false} CountLater(s: seq<nat>, lo: int, hi: int, lo': int, hi': int)
    requires lo <= lo' && forall i :: 0 <= i < |s| ==> s[i] <= hi
    ensures Count(s, lo', hi') <= Count(s, lo, hi)
  {
    if s != [] { CountLater(s[..|s| - 1], lo, hi, lo', hi'); }
  }

  /** Pruning a sorted bucket drops exactly its expired prefix. */
  lemma {:induction false} PruneSplits(s: seq<nat>, cutoff: nat)
    requires Sorted(s)
    ensures var live := Prune(s, cutoff);
      && |live| <= |s| && live == s[|s| - |live|..]
      && (forall i :: 0 <= i < |s| - |live| ==> s[i] <= cutoff)
      && (forall i :: |s| - |live| <= i < |s| ==> s[i] > cutoff)
  {
    if s != [] && s[0] <= cutoff {
      PruneSplits(s[1..], cutoff);
    }
  }

  // ----- The invariant of one key -----

  /** The bucket is the log since the last eviction, less hits that have expired. */
  ghost predicate Tracks(bucket: seq<nat>, current: seq<nat>, window: nat, clock: nat) {
    && |bucket| <= |current| && bucket == current[|current| - |bucket|..]
    && (forall i :: 0 <= i < |current| - |bucket| ==> current[i] + window <= clock)
    && Sorted(current) && (forall i :: 0 <= i < |current| ==> current[i] <= clock)
  }

  /** At most `maxAttempts` of the hits lie in any window. */
  ghost predicate Budgeted(c: Config, hits: seq<nat>) {
    forall t: int :: InWindow(hits, c.window, t) <= c.maxAttempts
  }

  ghost predicate Fits(c: Config, bucket: seq<nat>, current: seq<nat>, clock: nat) {
    Tracks(bucket, current, c.window, clock) && Budgeted(c, current)
  }

  /** What the code still has of a log: a call in the first window of the clock, where every
      cutoff falls back to `now`, drops every hit before its own. */
  function Remembered(window: nat, log: seq<nat>): seq<nat> {
    if log == [] then []
    else
      var last := log[|log| - 1];
      if last < window then [last] else Remembered(window, log[..|log| - 1]) + [last]
  }

  /** What a call at `now` finds of the log. */
  function Found(c: Config, log: seq<nat>, now: nat): seq<nat> {
    if now < c.window then [] else Remembered(c.window, log)
  }

  ghost predicate KeyOk(c: Config, r: Run, key: IpAddr) {
    Fits(c, BucketOf(r.hits, key), Remembered(c.window, HistoryOf(r.log, key).current), r.clock)
  }

  /** The map is empty until the first sweep, so no sweep is due again in the first window. */
  ghost predicate SweepOk(r: Run) {
    match r.lastSweep
    case None => r.hits == map[]
    case Some(at) => at <= r.clock
  }

  ghost predicate Inv(c: Config, r: Run) {
    SweepOk(r) && forall key :: KeyOk(c, r, key)
  }

  lemma RememberedNext(window: nat, log: seq<nat>, now: nat)
    ensures Remembered(window, log + [now]) == if now < window then [now] else Remembered(window, log) + [now]
  {
    assert (log + [now])[..|log|] == log;
  }

  /** Pruning a bucket leaves the end of the log, from where its hits are live. */
  lemma PruneTracks(bucket: seq<nat>, current: seq<nat>, window: nat, clock: nat, now: nat)
    requires Tracks(bucket, current, window, clock) && clock <= now && window <= now
    ensures var live := Prune(bucket, now - window);
      && |live| <= |current| && live == current[|current| - |live|..]
      && (forall i :: 0 <= i < |current| - |live| ==> current[i] <= now - window)
      && (forall i :: |current| - |live| <= i < |current| ==> now - window < current[i] <= now)
  {
    PruneSplits(bucket, now - window);
    var n := |current| - |Prune(bucket, now - window)|;
    forall i | 0 <= i < n ensures current[i] <= now - window {
      if i >= |current| - |bucket| {
        assert current[i] == bucket[i - (|current| - |bucket|)];
      }
    }
    forall i | n <= i < |current| ensures now - window < current[i] <= now {
      assert current[i] == bucket[i - (|current| - |bucket|)];
    }
  }

  /** Pruning the bucket leaves as many hits as the window holds of the whole log. */
  lemma PruneCounts(bucket: seq<nat>, current: seq<nat>, window: nat, clock: nat, now: nat)
    requires Tracks(bucket, current, window, clock) && clock <= now && window <= now
    ensures var live := Prune(bucket, now - window);
      && |live| == InWindow(current, window, now)
      && Tracks(live, current, window, now)
  {
    PruneTracks(bucket, current, window, clock, now);
    CountFrom(current, |current| - |Prune(bucket, now - window)|, now - window, now);
  }

  lemma CountFrom(s: seq<nat>, n: nat, lo: int, hi: int)
    requires n <= |s|
    requires forall i :: 0 <= i < n ==> s[i] <= lo
    requires forall i :: n <= i < |s| ==> lo < s[i] <= hi
    ensures Count(s, lo, hi) == |s| - n
  {
    assert s == s[..n] + s[n..];
    CountAppend(s[..n], s[n..], lo, hi);
    CountNone(s[..n], lo, hi);
    CountAll(s[n..], lo, hi);
  }

  /** A bucket the sweep drops had nothing left to prune. */
  lemma DeadBucket(bucket: seq<nat>, log: seq<nat>, window: nat, clock: nat, now: nat)
    requires Tracks(bucket, log, window, clock) && clock <= now && window <= now && !Lively(bucket, now - window)
    ensures Tracks([], log, window, now)
  {
    forall i | 0 <= i < |log| ensures log[i] + window <= now {
      if i >= |log| - |bucket| {
        assert log[i] <= log[|log| - 1] == bucket[|bucket| - 1];
      }
    }
  }

  lemma SweptBucket(c: Config, r: Run, now: nat, key: IpAddr)
    requires SweepOk(r) && r.clock <= now
    ensures var bucket, after := BucketOf(r.hits, key), BucketOf(SweptHits(c, r, now), key);
      after == bucket || (after == [] && c.window <= now && !Lively(bucket, now - c.window))
  {
  }

  lemma TracksLater(bucket: seq<nat>, log: seq<nat>, window: nat, clock: nat, now: nat)
    requires Tracks(bucket, log, window, clock) && clock <= now
    ensures Tracks(bucket, log, window, now)
  {
  }

  lemma SweepTracks(c: Config, r: Run, now: nat, key: IpAddr)
    requires KeyOk(c, r, key) && SweepOk(r) && r.clock <= now
    ensures Tracks(BucketOf(SweptHits(c, r, now), key), Remembered(c.window, HistoryOf(r.log, key).current), c.window, now)
  {
    var bucket, log := BucketOf(r.hits, key), Remembered(c.window, HistoryOf(r.log, key).current);
    SweptBucket(c, r, now, key);
    if BucketOf(SweptHits(c, r, now), key) != bucket {
      DeadBucket(bucket, log, c.window, r.clock, now);
    } else {
      TracksLater(bucket, log, c.window, r.clock, now);
    }
  }

  /** The at-cap branch never evicts the key it makes room for. */
  lemma EvictsOthers(c: Config, r: Run, call: Call)
    requires Valid(c, r, call)
    ensures var swept, key := SweptHits(c, r, call.now), LimiterKey(call.ip);
      && key !in call.evicted && call.evicted <= swept.Keys
      && BucketOf(swept - call.evicted, key) == BucketOf(swept, key)
  {
  }

  /** In the first window of the clock pruning leaves nothing, later what the window holds of
      the log. */
  lemma PruneFinds(c: Config, bucket: seq<nat>, log: seq<nat>, clock: nat, now: nat)
    requires Tracks(bucket, log, c.window, clock) && clock <= now
    ensures var live, found := Prune(bucket, Cutoff(now, c.window)), if now < c.window then [] else log;
      |live| == InWindow(found, c.window, now) && Tracks(live, found, c.window, now)
  {
    if now < c.window {
      forall i | 0 <= i < |bucket| ensures bucket[i] <= now {
        assert bucket[i] == log[|log| - |bucket| + i];
      }
      PruneEverything(bucket, now);
    } else {
      PruneCounts(bucket, log, c.window, clock, now);
    }
  }

  /** Sweeping and pruning leave as many hits as the window holds of what is found of the log. */
  lemma LiveHitsMatchLog(c: Config, r: Run, now: nat, key: IpAddr)
    requires KeyOk(c, r, key) && SweepOk(r) && r.clock <= now
    ensures var live := Prune(BucketOf(SweptHits(c, r, now), key), Cutoff(now, c.window));
      && |live| == InWindow(Found(c, HistoryOf(r.log, key).current, now), c.window, now)
      && Tracks(live, Found(c, HistoryOf(r.log, key).current, now), c.window, now)
  {
    SweepTracks(c, r, now, key);
    PruneFinds(c, BucketOf(SweptHits(c, r, now), key), Remembered(c.window, HistoryOf(r.log, key).current), now, now);
  }

  /** Each answer is the reference's: fewer than `maxAttempts` of the hits that the code has
      not forgotten since the key's last eviction lie in `(now - window, now]`. */
  lemma AnswerMatchesLog(c: Config, r: Run, call: Call)
    requires KeyOk(c, r, LimiterKey(call.ip)) && SweepOk(r) && Valid(c, r, call)
    ensures var h := HistoryOf(r.log, LimiterKey(call.ip));
      Allowed(c, r, call) <==> InWindow(Found(c, h.current, call.now), c.window, call.now) < c.maxAttempts
  {
    EvictsOthers(c, r, call);
    LiveHitsMatchLog(c, r, call.now, LimiterKey(call.ip));
  }

  lemma BudgetKept(c: Config, current: seq<nat>, now: nat)
    requires Budgeted(c, current) && (forall i :: 0 <= i < |current| ==> current[i] <= now)
    requires InWindow(current, c.window, now) < c.maxAttempts
    ensures Budgeted(c, current + [now])
  {
    forall t: int ensures InWindow(current + [now], c.window, t) <= c.maxAttempts {
      assert (current + [now])[..|current|] == current;
      assert InWindow(current, c.window, t) <= c.maxAttempts;
      if t >= now {
        CountLater(current, now - c.window, now, t - c.window, t);
      }
    }
  }

  lemma CalledKeyNext(c: Config, r: Run, call: Call)
    requires Valid(c, r, call)
    ensures var key := LimiterKey(call.ip);
      var h, r' := HistoryOf(r.log, key), Next(c, r, call);
      var live := Prune(BucketOf(SweptHits(c, r, call.now), key), Cutoff(call.now, c.window));
      && (Allowed(c, r, call) <==> |live| < c.maxAttempts)
      && BucketOf(r'.hits, key) == (if Allowed(c, r, call) then live + [call.now] else live)
      && HistoryOf(r'.log, key) == (if Allowed(c, r, call) then History(h.past, h.current + [call.now]) else h)
  {
    EvictsOthers(c, r, call);
  }

  lemma OtherKeyNext(c: Config, r: Run, call: Call, key: IpAddr)
    requires key != LimiterKey(call.ip)
    ensures var h, r' := HistoryOf(r.log, key), Next(c, r, call);
      && BucketOf(r'.hits, key) == (if key in call.evicted then [] else BucketOf(SweptHits(c, r, call.now), key))
      && HistoryOf(r'.log, key) == (if key in call.evicted then Evict(h, call.now) else h)
  {
  }

  /** A limiter that admits nothing has nothing to forget. */
  lemma NothingAdmitted(c: Config, log: seq<nat>)
    requires Budgeted(c, log) && c.maxAttempts == 0 && 0 < c.window
    ensures log == []
  {
    assert log == [] || InWindow(log, c.window, log[|log| - 1]) <= c.maxAttempts;
  }

  lemma FoundIsRemembered(c: Config, log: seq<nat>, now: nat, ok: bool)
    requires Budgeted(c, Remembered(c.window, log))
    requires ok <==> InWindow(Found(c, log, now), c.window, now) < c.maxAttempts
    ensures Remembered(c.window, if ok then log + [now] else log) == if ok then Found(c, log, now) + [now] else Found(c, log, now)
    ensures Budgeted(c, Found(c, log, now))
  {
    RememberedNext(c.window, log, now);
    if now < c.window {
      assert Found(c, log, now) == [] && Budgeted(c, []);
      if !ok { NothingAdmitted(c, Remembered(c.window, log)); }
    }
  }

  lemma CalledKeyKept(c: Config, r: Run, call: Call)
    requires KeyOk(c, r, LimiterKey(call.ip)) && SweepOk(r) && Valid(c, r, call)
    ensures KeyOk(c, Next(c, r, call), LimiterKey(call.ip))
  {
    var key := LimiterKey(call.ip);
    var live := Prune(BucketOf(SweptHits(c, r, call.now), key), Cutoff(call.now, c.window));
    var h, r', ok := HistoryOf(r.log, key), Next(c, r, call), Allowed(c, r, call);
    var bucket', h', found := BucketOf(r'.hits, key), HistoryOf(r'.log, key), Found(c, h.current, call.now);
    assert bucket' == (if ok then live + [call.now] else live)
      && h'.current == (if ok then h.current + [call.now] else h.current)
      && (ok <==> |live| < c.maxAttempts) by { CalledKeyNext(c, r, call); }
    assert Tracks(live, found, c.window, call.now) && |live| == InWindow(found, c.window, call.now) by {
      LiveHitsMatchLog(c, r, call.now, key);
    }
    FoundIsRemembered(c, h.current, call.now, ok);
    assert Fits(c, bucket', Remembered(c.window, h'.current), call.now) by { AdmittedFits(c, live, found, call.now); }
  }

  lemma AdmittedFits(c: Config, live: seq<nat>, current: seq<nat>, now: nat)
    requires Fits(c, live, current, now) && |live| == InWindow(current, c.window, now)
    ensures |live| < c.maxAttempts ==> Fits(c, live + [now], current + [now], now)
  {
    if |live| < c.maxAttempts {
      BudgetKept(c, current, now);
    }
  }

  lemma OtherKeyKept(c: Config, r: Run, call: Call, key: IpAddr)
    requires KeyOk(c, r, key) && SweepOk(r) && r.clock <= call.now && key != LimiterKey(call.ip)
    ensures KeyOk(c, Next(c, r, call), key)
  {
    OtherKeyNext(c, r, call, key);
    SweepTracks(c, r, call.now, key);
    if key in call.evicted {
      assert Budgeted(c, []);
    }
  }

  lemma InvKept(c: Config, r: Run, call: Call)
    requires Inv(c, r) && Valid(c, r, call)
    ensures Inv(c, Next(c, r, call))
  {
    forall key ensures KeyOk(c, Next(c, r, call), key) {
      if key == LimiterKey(call.ip) { CalledKeyKept(c, r, call); } else { OtherKeyKept(c, r, call, key); }
    }
  }

  // ----- Whole runs -----

  lemma {:induction false} Invariant(c: Config, r: Run, calls: seq<Call>)
    requires Inv(c, r) && ValidRun(c, r, calls)
    ensures Inv(c, Exec(c, r, calls))
    decreases |calls|
  {
    if calls != [] {
      InvKept(c, r, calls[0]);
      Invariant(c, Next(c, r, calls[0]), calls[1..]);
    }
  }

  lemma BeginOk(c: Config)
    ensures Inv(c, Begin())
  {
    forall key ensures KeyOk(c, Begin(), key) {
      assert Budgeted(c, []);
    }
  }

  /** The limiter's answers to the calls that share `key`, in order. */
  function Answers(c: Config, r: Run, calls: seq<Call>, key: IpAddr): seq<bool>
    decreases |calls|
  {
    if calls == [] then []
    else
      (if LimiterKey(calls[0].ip) == key then [Allowed(c, r, calls[0])] else [])
      + Answers(c, Next(c, r, calls[0]), calls[1..], key)
  }

  /** The times of the calls that share `key`. */
  function Times(calls: seq<Call>, key: IpAddr): seq<nat> {
    if calls == [] then []
    else (if LimiterKey(calls[0].ip) == key then [calls[0].now] else []) + Times(calls[1..], key)
  }

  /** The simple form of the code: keep the admitted hits of one key, but drop them all when a
      call comes in the first window of the clock; admit a call while fewer than `maxAttempts` of
      them lie in the trailing window. */
  function Forgetful(c: Config, log: seq<nat>, times: seq<nat>): seq<bool>
    decreases |times|
  {
    if times == [] then []
    else
      var found := if times[0] < c.window then [] else log;
      var ok := InWindow(found, c.window, times[0]) < c.maxAttempts;
      [ok] + Forgetful(c, if ok then found + [times[0]] else found, times[1..])
  }

  predicate NeverEvicted(calls: seq<Call>, key: IpAddr) {
    forall i :: 0 <= i < |calls| ==> key !in calls[i].evicted
  }

  lemma HistoryStep(c: Config, r: Run, call: Call, key: IpAddr)
    requires Valid(c, r, call) && key !in call.evicted
    ensures HistoryOf(Next(c, r, call).log, key).current ==
      if LimiterKey(call.ip) == key && Allowed(c, r, call) then HistoryOf(r.log, key).current + [call.now]
      else HistoryOf(r.log, key).current
  {
    if LimiterKey(call.ip) == key { CalledKeyNext(c, r, call); } else { OtherKeyNext(c, r, call, key); }
  }

  /** On a run that never evicts `key`, its answers depend on its own call times alone: neither
      the sweep nor any other key can be observed. */
  lemma {:induction false} AnswersAreForgetful(c: Config, r: Run, calls: seq<Call>, key: IpAddr)
    requires Inv(c, r) && ValidRun(c, r, calls) && NeverEvicted(calls, key)
    ensures Answers(c, r, calls, key)
      == Forgetful(c, Remembered(c.window, HistoryOf(r.log, key).current), Times(calls, key))
    decreases |calls|
  {
    if calls != [] {
      var call, rest, r' := calls[0], calls[1..], Next(c, r, calls[0]);
      assert Answers(c, r', rest, key) == Forgetful(c, Remembered(c.window, HistoryOf(r'.log, key).current), Times(rest, key)) by {
        InvKept(c, r, call);
        AnswersAreForgetful(c, r', rest, key);
      }
      assert Valid(c, r, call) && key !in call.evicted;
      CallIsForgetful(c, r, call, key, Times(rest, key));
      AnswersStep(c, r, calls, key);
    }
  }

  lemma AnswersStep(c: Config, r: Run, calls: seq<Call>, key: IpAddr)
    requires calls != []
    ensures var mine, rest := LimiterKey(calls[0].ip) == key, calls[1..];
      && Answers(c, r, calls, key)
         == (if mine then [Allowed(c, r, calls[0])] else []) + Answers(c, Next(c, r, calls[0]), rest, key)
      && Times(calls, key) == if mine then [calls[0].now] + Times(rest, key) else Times(rest, key)
  {
  }

  lemma CallIsForgetful(c: Config, r: Run, call: Call, key: IpAddr, rest: seq<nat>)
    requires Inv(c, r) && Valid(c, r, call) && key !in call.evicted
    ensures var log := Remembered(c.window, HistoryOf(r.log, key).current);
      var log' := Remembered(c.window, HistoryOf(Next(c, r, call).log, key).current);
      if LimiterKey(call.ip) == key then
        Forgetful(c, log, [call.now] + rest) == [Allowed(c, r, call)] + Forgetful(c, log', rest)
      else log' == log
  {
    var current, ok := HistoryOf(r.log, key).current, Allowed(c, r, call);
    HistoryStep(c, r, call, key);
    if LimiterKey(call.ip) == key {
      assert KeyOk(c, r, key);
      AnswerMatchesLog(c, r, call);
      FoundIsRemembered(c, current, call.now, ok);
      ForgetfulStep(c, Remembered(c.window, current), call.now, rest, ok);
    }
  }

  lemma ForgetfulStep(c: Config, log: seq<nat>, now: nat, rest: seq<nat>, ok: bool)
    requires var found := if now < c.window then [] else log; ok <==> InWindow(found, c.window, now) < c.maxAttempts
    ensures var found := if now < c.window then [] else log;
      Forgetful(c, log, [now] + rest) == [ok] + Forgetful(c, if ok then found + [now] else found, rest)
  {
    assert ([now] + rest)[1..] == rest;
  }

  /** From a fresh limiter, two runs that never evict `key` and call it at the same times give
      it the same answers, whatever else they do. */
  lemma KeysAreIndependent(c: Config, one: seq<Call>, other: seq<Call>, key: IpAddr)
    requires ValidRun(c, Begin(), one) && NeverEvicted(one, key)
    requires ValidRun(c, Begin(), other) && NeverEvicted(other, key)
    requires Times(one, key) == Times(other, key)
    ensures Answers(c, Begin(), one, key) == Answers(c, Begin(), other, key)
  {
    BeginOk(c);
    AnswersAreForgetful(c, Begin(), one, key);
    AnswersAreForgetful(c, Begin(), other, key);
  }

  lemma {:induction false} PruneEverything(s: seq<nat>, cutoff: nat)
    requires forall i :: 0 <= i < |s| ==> s[i] <= cutoff
    ensures Prune(s, cutoff) == []
  {
    if s != [] { PruneEverything(s[1..], cutoff); }
  }

  /** A key the map does not hold is always admitted. */
  lemma UntrackedKeyIsAdmitted(c: Config, r: Run, call: Call)
    requires Valid(c, r, call) && LimiterKey(call.ip) !in r.hits && 1 <= c.maxAttempts
    ensures Allowed(c, r, call)
  {
    EvictsOthers(c, r, call);
  }

  // ----- Addresses that cannot be resolved -----

  /** The answers of the bucket they share, which nothing sweeps or evicts. */
  function SharedAnswers(c: Config, bucket: seq<nat>, times: seq<nat>): seq<bool>
    decreases |times|
  {
    if times == [] then []
    else
      var live := Prune(bucket, Cutoff(times[0], c.window));
      [|live| < c.maxAttempts] + SharedAnswers(c, if |live| < c.maxAttempts then live + [times[0]] else live, times[1..])
  }

  ghost predicate NeverEarlier(times: seq<nat>, clock: nat) {
    Sorted(times) && forall i :: 0 <= i < |times| ==> clock <= times[i]
  }

  lemma TailIsLater(times: seq<nat>, clock: nat)
    requires times != [] && NeverEarlier(times, clock)
    ensures NeverEarlier(times[1..], times[0])
  {
  }

  lemma AdmittedTracks(live: seq<nat>, log: seq<nat>, window: nat, now: nat)
    requires Tracks(live, log, window, now)
    ensures Tracks(live + [now], log + [now], window, now)
  {
    var n := |log| - |live|;
    assert (log + [now])[n..] == log[n..] + [now];
  }

  /** They too get the answers of the log of their own admitted hits, with what it forgets. */
  lemma {:induction false} SharedIsForgetful(c: Config, bucket: seq<nat>, log: seq<nat>, clock: nat, times: seq<nat>)
    requires Tracks(bucket, log, c.window, clock) && NeverEarlier(times, clock)
    ensures SharedAnswers(c, bucket, times) == Forgetful(c, log, times)
    decreases |times|
  {
    if times != [] {
      var now, rest := times[0], times[1..];
      var live, found := Prune(bucket, Cutoff(now, c.window)), if now < c.window then [] else log;
      assert |live| == InWindow(found, c.window, now) && Tracks(live, found, c.window, now) by {
        PruneFinds(c, bucket, log, clock, now);
      }
      TailIsLater(times, clock);
      var ok := |live| < c.maxAttempts;
      var live', log' := if ok then live + [now] else live, if ok then found + [now] else found;
      assert Tracks(live', log', c.window, now) by { AdmittedTracks(live, found, c.window, now); }
      assert SharedAnswers(c, live', rest) == Forgetful(c, log', rest) by {
        SharedIsForgetful(c, live', log', now, rest);
      }
    }
  }

  // ----- Evictions -----

  /** All the hits of a history in `(lo, hi]`, whichever side of an eviction. */
  function Total(h: History, lo: int, hi: int): nat
    decreases |h.past|
  {
    Count(h.current, lo, hi) + if h.past == [] then 0 else Total(Previous(h), lo, hi)
  }

  /** The history as it stood just before its last eviction. */
  function Previous(h: History): History
    requires h.past != []
  {
    History(h.past[..|h.past| - 1], h.past[|h.past| - 1].0)
  }

  function EvictedAt(h: History): nat
    requires h.past != []
  {
    h.past[|h.past| - 1].1
  }

  /** How many of the evictions lie in `(lo, hi]`. */
  function Evictions(h: History, lo: int, hi: int): nat
    decreases |h.past|
  {
    if h.past == [] then 0
    else Evictions(Previous(h), lo, hi) + if lo < EvictedAt(h) <= hi then 1 else 0
  }

  /** Nothing in the history is later than `t`. */
  ghost predicate UpTo(h: History, t: int)
    decreases |h.past|
  {
    && (forall i :: 0 <= i < |h.current| ==> h.current[i] <= t)
    && (h.past != [] ==> EvictedAt(h) <= t && UpTo(Previous(h), t))
  }

  ghost predicate PartOk(c: Config, part: seq<nat>) {
    Sorted(part) && Budgeted(c, Remembered(c.window, part))
  }

  /** The parts of the history follow each other in time, each within its budget but for what
      the code forgot. */
  ghost predicate Ordered(c: Config, h: History)
    decreases |h.past|
  {
    && PartOk(c, h.current)
    && (h.past != [] ==>
          && UpTo(Previous(h), EvictedAt(h)) && Ordered(c, Previous(h))
          && forall i :: 0 <= i < |h.current| ==> EvictedAt(h) <= h.current[i])
  }

  lemma {:induction false} UpToLater(h: History, t: int, t': int)
    requires UpTo(h, t) && t <= t'
    ensures UpTo(h, t')
    decreases |h.past|
  {
    if h.past != [] { UpToLater(Previous(h), t, t'); }
  }

  lemma {:induction false} NothingAfter(h: History, lo: int, hi: int)
    requires UpTo(h, lo)
    ensures Total(h, lo, hi) == 0
    decreases |h.past|
  {
    CountNone(h.current, lo, hi);
    if h.past != [] { NothingAfter(Previous(h), lo, hi); }
  }

  /** Every hit came after the first window of the clock. */
  ghost predicate Late(c: Config, h: History)
    decreases |h.past|
  {
    (forall i :: 0 <= i < |h.current| ==> c.window <= h.current[i]) && (h.past != [] ==> Late(c, Previous(h)))
  }

  /** The admitted hits in `(lo, t]` number at most one budget for each eviction in it, and one
      more. */
  ghost predicate WithinBudgets(c: Config, h: History, lo: int, t: int) {
    Total(h, lo, t) <= c.maxAttempts * (1 + Evictions(h, lo, t))
  }

  lemma {:induction false} CountNarrower(s: seq<nat>, lo: int, lo': int, hi: int)
    requires lo <= lo'
    ensures Count(s, lo', hi) <= Count(s, lo, hi)
  {
    if s != [] { CountNarrower(s[..|s| - 1], lo, lo', hi); }
  }

  lemma CountLast(s: seq<nat>, x: nat, lo: int, hi: int)
    ensures Count(s + [x], lo, hi) == Count(s, lo, hi) + (if lo < x <= hi then 1 else 0)
  {
    assert (s + [x])[..|s|] == s;
  }

  /** What was forgotten lies before the end of the first window. */
  lemma {:induction false} ForgottenIsEarly(window: nat, log: seq<nat>, lo: int, hi: int)
    requires Sorted(log) && (window - 1 <= lo || forall i :: 0 <= i < |log| ==> window <= log[i])
    ensures Count(log, lo, hi) == Count(Remembered(window, log), lo, hi)
    decreases |log|
  {
    if log != [] {
      var rest, last := log[..|log| - 1], log[|log| - 1];
      assert log == rest + [last];
      CountLast(rest, last, lo, hi);
      RememberedNext(window, rest, last);
      if last < window {
        CountNone(rest, lo, hi);
        CountLast([], last, lo, hi);
        assert [] + [last] == [last];
      } else {
        ForgottenIsEarly(window, rest, lo, hi);
        CountLast(Remembered(window, rest), last, lo, hi);
      }
    }
  }

  lemma PartWithinBudget(c: Config, part: seq<nat>, lo: int, t: int)
    requires PartOk(c, part) && t - c.window <= lo
    requires c.window - 1 <= lo || forall i :: 0 <= i < |part| ==> c.window <= part[i]
    ensures Count(part, lo, t) <= c.maxAttempts
  {
    ForgottenIsEarly(c.window, part, lo, t);
    CountNarrower(Remembered(c.window, part), t - c.window, lo, t);
    assert InWindow(Remembered(c.window, part), c.window, t) <= c.maxAttempts;
  }

  lemma {:induction false} HitsPerEviction(c: Config, h: History, lo: int, t: int)
    requires Ordered(c, h) && t - c.window <= lo && (c.window - 1 <= lo || Late(c, h))
    ensures WithinBudgets(c, h, lo, t)
    decreases |h.past|
  {
    var m, here := c.maxAttempts, Count(h.current, lo, t);
    assert here <= m by { PartWithinBudget(c, h.current, lo, t); }
    if h.past != [] {
      var before, e := Total(Previous(h), lo, t), Evictions(Previous(h), lo, t);
      assert Total(h, lo, t) == here + before;
      if lo < EvictedAt(h) {
        HitsPerEviction(c, Previous(h), lo, t);
        if EvictedAt(h) > t { CountNone(h.current, lo, t); }
        AddBudget(m, e, before, here);
      } else {
        assert before == 0 by {
          UpToLater(Previous(h), EvictedAt(h), lo);
          NothingAfter(Previous(h), lo, t);
        }
        Scaled(m, Evictions(h, lo, t));
      }
    }
  }

  lemma AddBudget(m: nat, e: nat, before: nat, here: nat)
    requires before <= m * (1 + e) && here <= m
    ensures here + before <= m * (1 + (e + 1))
  {
  }

  lemma Scaled(m: nat, n: nat)
    ensures m <= m * (1 + n)
  {
  }

  ghost predicate HistoryOk(c: Config, r: Run, key: IpAddr) {
    Ordered(c, HistoryOf(r.log, key)) && UpTo(HistoryOf(r.log, key), r.clock)
  }

  lemma EvictedHistoryOk(c: Config, h: History, now: nat)
    requires Ordered(c, h) && UpTo(h, now)
    ensures Ordered(c, Evict(h, now)) && UpTo(Evict(h, now), now)
  {
    assert Previous(Evict(h, now)) == h by { assert Evict(h, now).past[..|h.past|] == h.past; }
    assert Budgeted(c, []);
  }

  lemma ExtendedHistoryOk(c: Config, h: History, now: nat)
    requires Ordered(c, h) && UpTo(h, now) && PartOk(c, h.current + [now])
    ensures Ordered(c, History(h.past, h.current + [now])) && UpTo(History(h.past, h.current + [now]), now)
  {
    var h' := History(h.past, h.current + [now]);
    assert forall i :: 0 <= i < |h'.current| ==> h'.current[i] == if i < |h.current| then h.current[i] else now;
    if h.past != [] {
      assert Previous(h') == Previous(h) && EvictedAt(h') == EvictedAt(h);
    }
  }

  lemma SortedNext(s: seq<nat>, now: nat)
    requires Sorted(s) && forall i :: 0 <= i < |s| ==> s[i] <= now
    ensures Sorted(s + [now])
  {
  }

  /** A call leaves a history alone, evicts it, or adds itself. */
  lemma HistoryMoves(c: Config, r: Run, call: Call, key: IpAddr)
    requires Valid(c, r, call)
    ensures var h, h' := HistoryOf(r.log, key), HistoryOf(Next(c, r, call).log, key);
      h' == h || h' == Evict(h, call.now) || h' == History(h.past, h.current + [call.now])
  {
    if key != LimiterKey(call.ip) { OtherKeyNext(c, r, call, key); } else { CalledKeyNext(c, r, call); }
  }

  lemma HistoryKept(c: Config, r: Run, call: Call, key: IpAddr)
    requires Inv(c, r) && Valid(c, r, call) && HistoryOk(c, r, key)
    ensures HistoryOk(c, Next(c, r, call), key)
  {
    var h, h' := HistoryOf(r.log, key), HistoryOf(Next(c, r, call).log, key);
    assert UpTo(h, call.now) by { UpToLater(h, r.clock, call.now); }
    HistoryMoves(c, r, call, key);
    assert PartOk(c, h'.current) by {
      InvKept(c, r, call);
      assert KeyOk(c, Next(c, r, call), key);
      SortedNext(h.current, call.now);
      assert Sorted([]);
    }
    if h' == Evict(h, call.now) {
      EvictedHistoryOk(c, h, call.now);
    } else if h' == History(h.past, h.current + [call.now]) {
      ExtendedHistoryOk(c, h, call.now);
    }
  }

  lemma BeginHistoryOk(c: Config, key: IpAddr)
    ensures HistoryOk(c, Begin(), key)
  {
    assert HistoryOf(Begin().log, key) == History([], []);
    assert Budgeted(c, []);
  }

  lemma {:induction false} HistoryInvariant(c: Config, r: Run, calls: seq<Call>, key: IpAddr)
    requires Inv(c, r) && HistoryOk(c, r, key) && ValidRun(c, r, calls)
    ensures HistoryOk(c, Exec(c, r, calls), key)
    decreases |calls|
  {
    if calls != [] {
      InvKept(c, r, calls[0]);
      HistoryKept(c, r, calls[0], key);
      HistoryInvariant(c, Next(c, r, calls[0]), calls[1..], key);
    }
  }

  predicate Started(c: Config, calls: seq<Call>) {
    forall i :: 0 <= i < |calls| ==> c.window <= calls[i].now
  }

  lemma LateNext(c: Config, h: History, now: nat)
    requires Late(c, h) && c.window <= now
    ensures Late(c, Evict(h, now)) && Late(c, History(h.past, h.current + [now]))
  {
    assert Previous(Evict(h, now)) == h by { assert Evict(h, now).past[..|h.past|] == h.past; }
    if h.past != [] { assert Previous(History(h.past, h.current + [now])) == Previous(h); }
  }

  lemma {:induction false} LateInvariant(c: Config, r: Run, calls: seq<Call>, key: IpAddr)
    requires ValidRun(c, r, calls) && Started(c, calls) && Late(c, HistoryOf(r.log, key))
    ensures Late(c, HistoryOf(Exec(c, r, calls).log, key))
    decreases |calls|
  {
    if calls != [] {
      HistoryMoves(c, r, calls[0], key);
      LateNext(c, HistoryOf(r.log, key), calls[0].now);
      LateInvariant(c, Next(c, r, calls[0]), calls[1..], key);
    }
  }

  /** After any run, a key was admitted at most `maxAttempts` times (1 + the evictions of that key)
      in any stretch of at most a window that begins after the first window of the clock; and in
      any window at all, if no call came in the first. */
  lemma AdmissionsUnderEviction(c: Config, calls: seq<Call>, key: IpAddr, lo: int, t: int)
    requires ValidRun(c, Begin(), calls) && t - c.window <= lo && (c.window - 1 <= lo || Started(c, calls))
    ensures WithinBudgets(c, HistoryOf(Exec(c, Begin(), calls).log, key), lo, t)
  {
    var r := Begin();
    assert HistoryOf(r.log, key) == History([], []);
    assert Inv(c, r) by { BeginOk(c); }
    assert HistoryOk(c, r, key) by { BeginHistoryOk(c, key); }
    HistoryInvariant(c, r, calls, key);
    if Started(c, calls) { LateInvariant(c, r, calls, key); }
    HitsPerEviction(c, HistoryOf(Exec(c, r, calls).log, key), lo, t);
  }

  // ----- Memory -----

  /** The room that the map, the evictions so far and the calls leave one another. */
  ghost predicate WithinBounds(size: nat, evictions: nat, inserted: nat, calls: nat) {
    size <= MAX_TRACKED_IPS && size + EVICT_BATCH * evictions <= inserted <= calls
  }

  ghost predicate Bounded(r: Run) { WithinBounds(|r.hits|, r.evictions, r.inserted, r.calls) }

  lemma KeySubset(a: set<IpAddr>, b: set<IpAddr>)
    requires a <= b
    ensures |b - a| == |b| - |a|
  {
    assert b == a + (b - a);
  }

  lemma SweepShrinks(c: Config, r: Run, now: nat)
    ensures |SweptHits(c, r, now)| <= |r.hits|
  {
    var swept := SweptHits(c, r, now);
    assert swept.Keys <= r.hits.Keys;
    KeySubset(swept.Keys, r.hits.Keys);
    assert |swept| == |swept.Keys| && |r.hits| == |r.hits.Keys|;
  }

  lemma EvictionShrinks(swept: Hits, key: IpAddr, evicted: set<IpAddr>, bucket: seq<nat>)
    requires evicted <= swept.Keys && key !in evicted
    ensures |(swept - evicted)[key := bucket]| == |swept| - |evicted| + if key in swept then 0 else 1
  {
    var kept := swept - evicted;
    assert kept.Keys == swept.Keys - evicted;
    KeySubset(evicted, swept.Keys);
    assert |kept| == |kept.Keys| && |swept| == |swept.Keys|;
    assert kept[key := bucket].Keys == kept.Keys + {key};
  }

  /** The counts after a call, from those before: `full` says the map was at its ceiling and
      the key not in it. */
  lemma CountsAfter(size: nat, swept: nat, evicted: nat, evictions: nat, inserted: nat, calls: nat, known: bool, full: bool)
    requires WithinBounds(size, evictions, inserted, calls) && swept <= size
    requires full <==> swept >= MAX_TRACKED_IPS && !known
    requires evicted <= swept && evicted == if full then Min(EVICT_BATCH, swept) else 0
    ensures WithinBounds(swept - evicted + (if known then 0 else 1), if full then evictions + 1 else evictions,
      if known then inserted else inserted + 1, calls + 1)
  {
  }

  lemma EvictedSize(c: Config, r: Run, call: Call)
    requires Valid(c, r, call)
    ensures var swept := SweptHits(c, r, call.now);
      |call.evicted| ==
        if |swept| >= MAX_TRACKED_IPS && LimiterKey(call.ip) !in swept then Min(EVICT_BATCH, |swept|) else 0
  {
  }

  lemma SizeAfter(c: Config, r: Run, call: Call)
    requires var swept, key := SweptHits(c, r, call.now), LimiterKey(call.ip);
      key !in call.evicted && call.evicted <= swept.Keys
    ensures var swept, key := SweptHits(c, r, call.now), LimiterKey(call.ip);
      |Next(c, r, call).hits| == |swept| - |call.evicted| + if key in swept then 0 else 1
  {
    var swept, key, r' := SweptHits(c, r, call.now), LimiterKey(call.ip), Next(c, r, call);
    EvictionShrinks(swept, key, call.evicted, r'.hits[key]);
    assert r'.hits == (swept - call.evicted)[key := r'.hits[key]];
  }

  lemma CountersMove(c: Config, r: Run, call: Call)
    ensures var swept, known, r' := SweptHits(c, r, call.now), LimiterKey(call.ip) in SweptHits(c, r, call.now), Next(c, r, call);
      && r'.calls == r.calls + 1 && r'.inserted == (if known then r.inserted else r.inserted + 1)
      && r'.evictions == if |swept| >= MAX_TRACKED_IPS && !known then r.evictions + 1 else r.evictions
  {
  }

  lemma BoundedAfter(c: Config, r: Run, call: Call, swept: Hits, known: bool)
    requires Bounded(r) && swept == SweptHits(c, r, call.now) && known == (LimiterKey(call.ip) in swept)
    requires LimiterKey(call.ip) !in call.evicted && call.evicted <= swept.Keys
    requires |call.evicted| == if |swept| >= MAX_TRACKED_IPS && !known then Min(EVICT_BATCH, |swept|) else 0
    ensures Bounded(Next(c, r, call))
  {
    var r' := Next(c, r, call);
    SweepShrinks(c, r, call.now);
    KeySubset(call.evicted, swept.Keys);
    assert |swept| == |swept.Keys|;
    assert |r'.hits| == |swept| - |call.evicted| + (if known then 0 else 1) by { SizeAfter(c, r, call); }
    assert r'.calls == r.calls + 1 && r'.inserted == (if known then r.inserted else r.inserted + 1) by { CountersMove(c, r, call); }
    assert r'.evictions == if |swept| >= MAX_TRACKED_IPS && !known then r.evictions + 1 else r.evictions by { CountersMove(c, r, call); }
    CountsAfter(|r.hits|, |swept|, |call.evicted|, r.evictions, r.inserted, r.calls, known, |swept| >= MAX_TRACKED_IPS && !known);
  }

  lemma BoundedKept(c: Config, r: Run, call: Call)
    requires Bounded(r) && Valid(c, r, call)
    ensures Bounded(Next(c, r, call))
  {
    EvictsOthers(c, r, call);
    EvictedSize(c, r, call);
    BoundedAfter(c, r, call, SweptHits(c, r, call.now), LimiterKey(call.ip) in SweptHits(c, r, call.now));
  }

  /** The map never outgrows its ceiling, and the batches reclaimed never outnumber the keys
      inserted, which never outnumber the calls: the eviction scans are amortised. */
  lemma {:induction false} MemoryIsBounded(c: Config, r: Run, calls: seq<Call>)
    requires Bounded(r) && ValidRun(c, r, calls)
    ensures Bounded(Exec(c, r, calls))
    decreases |calls|
  {
    if calls != [] {
      BoundedKept(c, r, calls[0]);
      MemoryIsBounded(c, Next(c, r, calls[0]), calls[1..]);
    }
  }
}
