/** The limiter against a reference that keeps every admitted hit for ever, the first window of
    the clock included: exactly when their answers are the same. */
module LimiterReference {
  import opened Wrappers
  import opened RateLimiters
  import opened LimiterRuns

  /** The simple form: admit a call while fewer than `maxAttempts` of the hits admitted so far
      lie in the trailing window. */
  function Reference(c: Config, log: seq<nat>, times: seq<nat>): seq<bool>
    decreases |times|
  {
    if times == [] then []
    else
      var ok := InWindow(log, c.window, times[0]) < c.maxAttempts;
      [ok] + Reference(c, if ok then log + [times[0]] else log, times[1..])
  }

  /** When call `j` comes, call `i` still lies in its window, and a later call of the first
      window of the clock has made the code forget it. */
  ghost predicate Misses(window: nat, times: seq<nat>, i: nat, k: nat, j: nat) {
    i < k <= j < |times| && times[k] < window && times[j] < times[i] + window
  }

  ghost predicate Missed(window: nat, times: seq<nat>, j: nat) {
    exists i: nat, k: nat :: Misses(window, times, i, k, j)
  }

  /** While a forgotten call is still in the window, the budget is not used up. */
  ghost predicate RoomWhileMissed(c: Config, times: seq<nat>, from: nat) {
    forall j: nat :: from <= j < |times| && Missed(c.window, times, j) ==> InWindow(times[..j], c.window, times[j]) < c.maxAttempts
  }

  /** How far the two have come when nothing was refused: the reference has all `n` calls, the
      code those from `f` on, which is the last call of the first window if there was one. */
  ghost predicate Forgot(window: nat, times: seq<nat>, f: nat, n: nat) {
    && f <= n <= |times| && (f > 0 ==> f < n && times[f] < window)
    && (forall k :: f < k < n ==> times[k] >= window)
  }

  // ----- Counting -----

  lemma CountSplit(s: seq<nat>, f: nat, lo: int, hi: int)
    requires f <= |s|
    ensures Count(s, lo, hi) == Count(s[..f], lo, hi) + Count(s[f..], lo, hi)
  {
    assert s == s[..f] + s[f..];
    CountAppend(s[..f], s[f..], lo, hi);
  }

  lemma {:induction false} CountSome(s: seq<nat>, i: nat, lo: int, hi: int)
    requires i < |s| && lo < s[i] <= hi
    ensures Count(s, lo, hi) >= 1
    decreases |s|
  {
    if i < |s| - 1 { CountSome(s[..|s| - 1], i, lo, hi); }
  }

  lemma DeadHits(dead: seq<nat>, log: seq<nat>, window: nat, now: nat)
    requires forall i :: 0 <= i < |dead| ==> dead[i] + window <= now
    ensures InWindow(dead + log, window, now) == InWindow(log, window, now)
    ensures (dead + log) + [now] == dead + (log + [now])
  {
    CountAppend(dead, log, now - window, now);
    CountNone(dead, now - window, now);
  }

  /** Hits that have left the window for good make no difference. */
  lemma {:induction false} DeadHitsDoNotCount(c: Config, dead: seq<nat>, log: seq<nat>, times: seq<nat>)
    requires forall j :: 0 <= j < |times| ==> times[j] >= c.window
    requires forall i, j :: 0 <= i < |dead| && 0 <= j < |times| ==> dead[i] + c.window <= times[j]
    ensures Forgetful(c, log, times) == Reference(c, dead + log, times)
    decreases |times|
  {
    if times != [] {
      DeadHits(dead, log, c.window, times[0]);
      var next := if InWindow(log, c.window, times[0]) < c.maxAttempts then log + [times[0]] else log;
      DeadHitsDoNotCount(c, dead, next, times[1..]);
    }
  }

  // ----- Agreement -----

  /** The next answer of each, and how it goes on. */
  lemma NextAnswers(c: Config, times: seq<nat>, f: nat, n: nat)
    requires f <= n < |times|
    ensures var now, rest := times[n], times[n + 1..];
      var found := if now < c.window then [] else times[f..n];
      var ok, room := InWindow(found, c.window, now) < c.maxAttempts, InWindow(times[..n], c.window, now) < c.maxAttempts;
      && Forgetful(c, times[f..n], times[n..]) == [ok] + Forgetful(c, if ok then found + [now] else found, rest)
      && Reference(c, times[..n], times[n..]) == [room] + Reference(c, if room then times[..n + 1] else times[..n], rest)
      && times[f..n] + [now] == times[f..n + 1] && [] + [now] == times[n..n + 1]
  {
    assert times[n..][0] == times[n] && times[n..][1..] == times[n + 1..];
    assert times[..n] + [times[n]] == times[..n + 1];
  }

  lemma RoomNext(c: Config, times: seq<nat>, n: nat)
    requires n < |times|
    ensures RoomWhileMissed(c, times, n) <==>
      RoomWhileMissed(c, times, n + 1)
      && (Missed(c.window, times, n) ==> InWindow(times[..n], c.window, times[n]) < c.maxAttempts)
  {
  }

  /** A second call of the first window is one whose predecessor was forgotten. */
  lemma EarlyMisses(c: Config, times: seq<nat>, n: nat)
    requires 0 < n < |times| && Sorted(times) && times[n] < c.window
    ensures Missed(c.window, times, n)
  {
    assert Misses(c.window, times, n - 1, n, n);
  }

  /** What is missed is among the hits the code has forgotten, and counts in the window. */
  lemma MissedCounts(c: Config, times: seq<nat>, f: nat, n: nat)
    requires Sorted(times) && Forgot(c.window, times, f, n) && n < |times| && c.window <= times[n]
    ensures InWindow(times[..n], c.window, times[n]) == InWindow(times[..f], c.window, times[n]) + InWindow(times[f..n], c.window, times[n])
    ensures Missed(c.window, times, n) ==> InWindow(times[..f], c.window, times[n]) >= 1
  {
    assert times[..n][..f] == times[..f] && times[..n][f..] == times[f..n];
    CountSplit(times[..n], f, times[n] - c.window, times[n]);
    if i: nat, k: nat :| Misses(c.window, times, i, k, n) {
      assert i < k <= f;
      CountSome(times[..f], i, times[n] - c.window, times[n]);
    }
  }

  /** Once nothing is missed any more, nothing ever is. */
  lemma NothingMissed(c: Config, times: seq<nat>, f: nat, n: nat)
    requires Sorted(times) && Forgot(c.window, times, f, n) && n < |times| && c.window <= times[n]
    requires !Missed(c.window, times, n)
    ensures RoomWhileMissed(c, times, n)
    ensures Forgetful(c, times[f..n], times[n..]) == Reference(c, times[..n], times[n..])
  {
    forall i | 0 <= i < f ensures times[i] + c.window <= times[n] {
      assert !Misses(c.window, times, i, f, n);
    }
    forall j: nat | n <= j < |times| ensures !Missed(c.window, times, j) {
      forall i: nat, k: nat ensures !Misses(c.window, times, i, k, j) {}
    }
    DeadHitsDoNotCount(c, times[..f], times[f..n], times[n..]);
    assert times[..f] + times[f..n] == times[..n];
  }

  ghost predicate Agree(c: Config, times: seq<nat>, f: nat, n: nat)
    requires f <= n <= |times|
  {
    Forgetful(c, times[f..n], times[n..]) == Reference(c, times[..n], times[n..])
  }

  function Room(c: Config, times: seq<nat>, n: nat): bool
    requires n < |times|
  {
    InWindow(times[..n], c.window, times[n]) < c.maxAttempts
  }

  /** Where the code's memory begins after call `n`. */
  function Begins(c: Config, times: seq<nat>, f: nat, n: nat): nat
    requires n < |times|
  {
    if times[n] < c.window then n else f
  }

  lemma SameHead(a: bool, rest: seq<bool>, a': bool, rest': seq<bool>)
    ensures [a] + rest == [a'] + rest' <==> a == a' && rest == rest'
  {
    assert ([a] + rest)[0] == a && ([a'] + rest')[0] == a' && ([a] + rest)[1..] == rest && ([a'] + rest')[1..] == rest';
  }

  lemma AgreeNext(c: Config, times: seq<nat>, f: nat, n: nat)
    requires f <= n < |times| && Sorted(times) && 1 <= c.maxAttempts && Room(c, times, n) && Forgot(c.window, times, f, n)
    ensures Agree(c, times, f, n) <==> Agree(c, times, Begins(c, times, f, n), n + 1)
  {
    var next, rest := Begins(c, times, f, n), times[n + 1..];
    NextAnswers(c, times, f, n);
    if c.window <= times[n] { MissedCounts(c, times, f, n); }
    assert Forgetful(c, times[f..n], times[n..]) == [true] + Forgetful(c, times[next..n + 1], rest);
    SameHead(true, Forgetful(c, times[next..n + 1], rest), true, Reference(c, times[..n + 1], rest));
  }

  lemma DifferNext(c: Config, times: seq<nat>, f: nat, n: nat)
    requires f <= n < |times| && Sorted(times) && 1 <= c.maxAttempts && !Room(c, times, n) && Forgot(c.window, times, f, n)
    requires InWindow(times[..n], c.window, times[n]) <= c.maxAttempts
    requires Missed(c.window, times, n)
    ensures !Agree(c, times, f, n)
  {
    NextAnswers(c, times, f, n);
    if c.window <= times[n] { MissedCounts(c, times, f, n); }
    assert Forgetful(c, times[f..n], times[n..])[0] && !Reference(c, times[..n], times[n..])[0];
  }

  lemma BudgetNext(c: Config, times: seq<nat>, n: nat)
    requires n < |times| && Sorted(times) && Budgeted(c, times[..n]) && Room(c, times, n)
    ensures Budgeted(c, times[..n + 1])
  {
    BudgetKept(c, times[..n], times[n]);
    assert times[..n] + [times[n]] == times[..n + 1];
  }

  lemma {:induction false} AgreeFrom(c: Config, times: seq<nat>, f: nat, n: nat)
    requires Sorted(times) && 1 <= c.maxAttempts && Forgot(c.window, times, f, n) && Budgeted(c, times[..n])
    ensures Agree(c, times, f, n) <==> RoomWhileMissed(c, times, n)
    decreases |times| - n
  {
    if n == |times| {
      assert times[n..] == [];
    } else {
      RoomNext(c, times, n);
      if Room(c, times, n) {
        BudgetNext(c, times, n);
        AgreeNext(c, times, f, n);
        AgreeFrom(c, times, Begins(c, times, f, n), n + 1);
      } else {
        assert InWindow(times[..n], c.window, times[n]) <= c.maxAttempts;
        if times[n] < c.window && n > 0 { EarlyMisses(c, times, n); }
        if Missed(c.window, times, n) { DifferNext(c, times, f, n); } else { NothingMissed(c, times, f, n); }
      }
    }
  }

  /** Exactly when the code answers as the reference: while a hit that it has forgotten would
      still count, fewer than `maxAttempts` calls lie in the window. */
  lemma ForgetfulAgreesExactly(c: Config, times: seq<nat>)
    requires Sorted(times)
    ensures Forgetful(c, [], times) == Reference(c, [], times) <==> c.maxAttempts == 0 || RoomWhileMissed(c, times, 0)
  {
    if c.maxAttempts == 0 {
      NothingToForget(c, times);
    } else {
      assert times[0..0] == [] == times[..0] && times[0..] == times && Budgeted(c, []);
      AgreeFrom(c, times, 0, 0);
    }
  }

  lemma {:induction false} NothingToForget(c: Config, times: seq<nat>)
    requires c.maxAttempts == 0
    ensures Forgetful(c, [], times) == Reference(c, [], times)
    decreases |times|
  {
    if times != [] { NothingToForget(c, times[1..]); }
  }

  // ----- Whole runs -----

  ghost predicate InOrder(calls: seq<Call>, clock: nat) {
    calls == [] || (clock <= calls[0].now && InOrder(calls[1..], calls[0].now))
  }

  lemma {:induction false} RunIsInOrder(c: Config, r: Run, calls: seq<Call>)
    requires ValidRun(c, r, calls)
    ensures InOrder(calls, r.clock)
    decreases |calls|
  {
    if calls != [] { RunIsInOrder(c, Next(c, r, calls[0]), calls[1..]); }
  }

  lemma {:induction false} TimesSorted(calls: seq<Call>, key: IpAddr, clock: nat)
    requires InOrder(calls, clock)
    ensures NeverEarlier(Times(calls, key), clock)
    decreases |calls|
  {
    if calls != [] { TimesSorted(calls[1..], key, calls[0].now); }
  }

  /** A run that never evicts `key` answers it as the reference does on its own call times exactly
      if, while a forgotten call is still in the window, fewer than `maxAttempts` calls are. */
  lemma AnswersRefineReferenceExactly(c: Config, calls: seq<Call>, key: IpAddr)
    requires ValidRun(c, Begin(), calls) && NeverEvicted(calls, key)
    ensures Answers(c, Begin(), calls, key) == Reference(c, [], Times(calls, key)) <==>
      c.maxAttempts == 0 || RoomWhileMissed(c, Times(calls, key), 0)
  {
    BeginOk(c);
    AnswersAreForgetful(c, Begin(), calls, key);
    RunIsInOrder(c, Begin(), calls);
    TimesSorted(calls, key, 0);
    ForgetfulAgreesExactly(c, Times(calls, key));
  }

  /** So it does whenever at most one of its calls comes in the first window of the clock. */
  lemma AnswersRefineReference(c: Config, calls: seq<Call>, key: IpAddr)
    requires ValidRun(c, Begin(), calls) && NeverEvicted(calls, key)
    requires forall k :: 0 < k < |Times(calls, key)| ==> c.window <= Times(calls, key)[k]
    ensures Answers(c, Begin(), calls, key) == Reference(c, [], Times(calls, key))
  {
    AnswersRefineReferenceExactly(c, calls, key);
  }

  /** The same for the bucket of the addresses that cannot be resolved. */
  lemma SharedRefinesReferenceExactly(c: Config, times: seq<nat>)
    requires Sorted(times)
    ensures SharedAnswers(c, [], times) == Reference(c, [], times) <==> c.maxAttempts == 0 || RoomWhileMissed(c, times, 0)
  {
    SharedIsForgetful(c, [], [], 0, times);
    ForgetfulAgreesExactly(c, times);
  }

  // ----- One call of the first window -----

  /** How many calls of `key` have come since it was last evicted, `n` of them before. */
  function CallsSince(calls: seq<Call>, key: IpAddr, n: nat): nat {
    if calls == [] then n
    else
      CallsSince(calls[1..], key,
        if key in calls[0].evicted then 0 else if LimiterKey(calls[0].ip) == key then n + 1 else n)
  }

  ghost predicate AllBy(log: seq<nat>, t: nat) {
    forall i :: 0 <= i < |log| ==> log[i] <= t
  }

  lemma {:induction false} CallsArePast(c: Config, r: Run, calls: seq<Call>, t: nat)
    requires ValidRun(c, r, calls) && Exec(c, r, calls).clock <= t
    ensures r.clock <= t && forall i :: 0 <= i < |calls| ==> calls[i].now <= t
    decreases |calls|
  {
    if calls != [] {
      var rest := calls[1..];
      CallsArePast(c, Next(c, r, calls[0]), rest, t);
      forall i | 0 <= i < |calls| ensures calls[i].now <= t { assert i > 0 ==> calls[i] == rest[i - 1]; }
    }
  }

  lemma FirstWindowAdmits(c: Config, r: Run, call: Call)
    requires Inv(c, r) && Valid(c, r, call) && call.now < c.window
    ensures Allowed(c, r, call) <==> c.maxAttempts > 0
  {
    assert KeyOk(c, r, LimiterKey(call.ip));
    AnswerMatchesLog(c, r, call);
  }

  lemma LogGrows(c: Config, r: Run, call: Call, key: IpAddr)
    requires Inv(c, r) && Valid(c, r, call) && call.now < c.window && c.maxAttempts > 0
    ensures |HistoryOf(Next(c, r, call).log, key).current| ==
      var n := |HistoryOf(r.log, key).current|;
      if key in call.evicted then 0 else if LimiterKey(call.ip) == key then n + 1 else n
  {
    EvictsOthers(c, r, call);
    FirstWindowAdmits(c, r, call);
    if LimiterKey(call.ip) == key { CalledKeyNext(c, r, call); } else { OtherKeyNext(c, r, call, key); }
  }

  /** In the first window the log of a key has all its calls since its last eviction. */
  lemma {:induction false} FirstWindowLog(c: Config, r: Run, calls: seq<Call>, key: IpAddr)
    requires Inv(c, r) && ValidRun(c, r, calls) && c.maxAttempts > 0
    requires forall i :: 0 <= i < |calls| ==> calls[i].now < c.window
    ensures |HistoryOf(Exec(c, r, calls).log, key).current| == CallsSince(calls, key, |HistoryOf(r.log, key).current|)
    decreases |calls|
  {
    if calls != [] {
      var r' := Next(c, r, calls[0]);
      assert Inv(c, r') by { InvKept(c, r, calls[0]); }
      LogGrows(c, r, calls[0], key);
      FirstWindowLog(c, r', calls[1..], key);
    }
  }

  lemma HitsArePast(c: Config, calls: seq<Call>, key: IpAddr)
    requires ValidRun(c, Begin(), calls)
    ensures var r := Exec(c, Begin(), calls); AllBy(HistoryOf(r.log, key).current, r.clock)
  {
    assert Inv(c, Begin()) by { BeginOk(c); }
    assert HistoryOk(c, Begin(), key) by { BeginHistoryOk(c, key); }
    HistoryInvariant(c, Begin(), calls, key);
  }

  /** All the hits of a log lie in the first window. */
  lemma LogInWindow(log: seq<nat>, window: nat, clock: nat, now: nat)
    requires clock <= now < window && AllBy(log, clock)
    ensures InWindow(log, window, now) == |log|
  {
    CountAll(log, now - window, now);
  }

  /** The `checked_sub` fallback: a call in the first window of the clock is admitted, whatever
      came before. That is the log's answer exactly if the key has made fewer than `maxAttempts`
      calls since it was last evicted, or nothing is ever admitted. */
  lemma BeforeFirstWindow(c: Config, calls: seq<Call>, call: Call)
    requires ValidRun(c, Begin(), calls) && Valid(c, Exec(c, Begin(), calls), call) && call.now < c.window
    ensures var r, key := Exec(c, Begin(), calls), LimiterKey(call.ip);
      var agreed := InWindow(HistoryOf(r.log, key).current, c.window, call.now) < c.maxAttempts;
      && (Allowed(c, r, call) <==> c.maxAttempts > 0)
      && ((Allowed(c, r, call) <==> agreed) <==> c.maxAttempts == 0 || CallsSince(calls, key, 0) < c.maxAttempts)
  {
    var r, key := Exec(c, Begin(), calls), LimiterKey(call.ip);
    var log := HistoryOf(r.log, key).current;
    assert Inv(c, Begin()) by { BeginOk(c); }
    assert Allowed(c, r, call) <==> c.maxAttempts > 0 by {
      Invariant(c, Begin(), calls);
      FirstWindowAdmits(c, r, call);
    }
    assert InWindow(log, c.window, call.now) == |log| by {
      HitsArePast(c, calls, key);
      LogInWindow(log, c.window, r.clock, call.now);
    }
    assert HistoryOf(Begin().log, key) == History([], []);
    CallsArePast(c, Begin(), calls, call.now);
    if c.maxAttempts > 0 { FirstWindowLog(c, Begin(), calls, key); }
  }

  // ----- Where they part -----

  lemma Subset<T>(a: set<T>, b: set<T>)
    requires a <= b
    ensures |a| <= |b|
  {
    assert b == a + (b - a) && |a + (b - a)| == |a| + |b - a|;
  }

  lemma SmallMap(c: Config, r: Run, call: Call)
    requires r.hits.Keys <= {LimiterKey(call.ip)} && r.clock <= call.now && call.evicted == {}
    ensures Valid(c, r, call) && Next(c, r, call).hits.Keys <= {LimiterKey(call.ip)}
  {
    var swept, only := SweptHits(c, r, call.now), {LimiterKey(call.ip)};
    assert swept.Keys <= only;
    Subset(swept.Keys, only);
    assert |swept| == |swept.Keys| <= 1;
  }

  function CallsOf(ip: IpAddr, times: seq<nat>): seq<Call> {
    if times == [] then [] else [Call(ip, times[0], {})] + CallsOf(ip, times[1..])
  }

  lemma {:induction false} TheirTimes(ip: IpAddr, times: seq<nat>)
    ensures NeverEvicted(CallsOf(ip, times), LimiterKey(ip)) && Times(CallsOf(ip, times), LimiterKey(ip)) == times
  {
    if times != [] {
      TheirTimes(ip, times[1..]);
      assert CallsOf(ip, times)[1..] == CallsOf(ip, times[1..]);
    }
  }

  /** Any times in order are those of a run with one address. */
  lemma {:induction false} OneAddress(c: Config, r: Run, ip: IpAddr, times: seq<nat>)
    requires r.hits.Keys <= {LimiterKey(ip)} && NeverEarlier(times, r.clock)
    ensures ValidRun(c, r, CallsOf(ip, times))
    decreases |times|
  {
    if times != [] {
      var call := Call(ip, times[0], {});
      var r' := Next(c, r, call);
      assert Valid(c, r, call) && r'.hits.Keys <= {LimiterKey(ip)} by { SmallMap(c, r, call); }
      assert ValidRun(c, r', CallsOf(ip, times[1..])) by {
        TailIsLater(times, r.clock);
        OneAddress(c, r', ip, times[1..]);
      }
      assert CallsOf(ip, times)[1..] == CallsOf(ip, times[1..]);
    }
  }

  /** So wherever the reference parts from the code, a run shows it. */
  lemma ARunAnswers(c: Config, ip: IpAddr, times: seq<nat>)
    requires Sorted(times)
    ensures ValidRun(c, Begin(), CallsOf(ip, times))
    ensures Answers(c, Begin(), CallsOf(ip, times), LimiterKey(ip)) == Forgetful(c, [], times)
  {
    OneAddress(c, Begin(), ip, times);
    TheirTimes(ip, times);
    BeginOk(c);
    AnswersAreForgetful(c, Begin(), CallsOf(ip, times), LimiterKey(ip));
  }

  lemma OneHit(c: Config, hit: nat, now: nat)
    requires now - c.window < hit <= now
    ensures InWindow([], c.window, now) == 0 && InWindow([hit], c.window, now) == 1
  {
    CountAll([hit], now - c.window, now);
  }

  lemma TwoAnswers(c: Config, one: nat, two: nat)
    requires c.maxAttempts == 1 && one <= two < c.window
    ensures Forgetful(c, [], [one, two]) == [true, true] && Reference(c, [], [one, two]) == [true, false]
  {
    OneHit(c, one, two);
    assert [one, two][1..] == [two] && [two][1..] == [] && [] + [one] == [one];
    assert Forgetful(c, [one], [two]) == [true] + Forgetful(c, [] + [two], []);
    assert Reference(c, [one], [two]) == [false] + Reference(c, [one], []);
  }

  /** With one attempt a window, two calls in the first window of the clock are both admitted. */
  lemma FirstWindowDisagrees(c: Config, ip: IpAddr, one: nat, two: nat)
    requires c.maxAttempts == 1 && one <= two < c.window
    ensures var calls := CallsOf(ip, [one, two]);
      && ValidRun(c, Begin(), calls) && Answers(c, Begin(), calls, LimiterKey(ip)) == [true, true]
      && Reference(c, [], [one, two]) == [true, false]
  {
    TwoAnswers(c, one, two);
    ARunAnswers(c, ip, [one, two]);
  }

  lemma LastAnswers(c: Config, one: nat, two: nat, three: nat)
    requires c.maxAttempts == 2 && one <= two < c.window <= three < one + c.window
    ensures Forgetful(c, [two], [three]) == [true] && Reference(c, [one, two], [three]) == [false]
  {
    OneHit(c, two, three);
    CountAll([one, two], three - c.window, three);
  }

  lemma ThreeAnswers(c: Config, one: nat, two: nat, three: nat)
    requires c.maxAttempts == 2 && one <= two < c.window <= three < one + c.window
    ensures Forgetful(c, [], [one, two, three]) == [true, true, true]
    ensures Reference(c, [], [one, two, three]) == [true, true, false]
  {
    OneHit(c, one, two);
    LastAnswers(c, one, two, three);
    assert [one, two, three][1..] == [two, three] && [two, three][1..] == [three];
    assert [] + [one] == [one] && [] + [two] == [two] && [one] + [two] == [one, two];
    assert Forgetful(c, [one], [two, three]) == [true] + [true] && Reference(c, [one], [two, three]) == [true] + [false];
  }

  /** And what was forgotten is missed after the first window: with two attempts, calls at 8, 9
      and 10 on a window of 10 agree until the third, which only the reference refuses. */
  lemma ForgottenAfterFirstWindow(c: Config, ip: IpAddr, one: nat, two: nat, three: nat)
    requires c.maxAttempts == 2 && one <= two < c.window <= three < one + c.window
    ensures var calls := CallsOf(ip, [one, two, three]);
      && ValidRun(c, Begin(), calls) && Answers(c, Begin(), calls, LimiterKey(ip)) == [true, true, true]
      && Reference(c, [], [one, two, three]) == [true, true, false]
  {
    ThreeAnswers(c, one, two, three);
    ARunAnswers(c, ip, [one, two, three]);
  }
}
