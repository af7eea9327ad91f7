/** The two limiter backends side by side: on which clock readings the deque, which is
    pruned from the front only, and the table give the same verdicts. */
module Backends {
  import opened Window
  import opened RateLimit

  /** The clock readings at which the calls are made. */
  predicate ReadsClock(calls: seq<Call>, ts: seq<real>) {
    |calls| == |ts| && forall i | 0 <= i < |ts| :: calls[i].now == ts[i]
  }

  /** At reading k the timestamp of call j has left the window, while that of the earlier
      call i, in front of it in the deque, has not. Before time 0 nothing is admitted. */
  predicate StaleBehindFresh(ts: seq<real>, window: real, i: int, j: int, k: int)
    requires 0 <= i < j < k < |ts|
  {
    0.0 <= ts[j] < ts[k] - window <= ts[i]
  }

  predicate NoneStaleBehindFresh(ts: seq<real>, window: real) {
    forall i, j, k | 0 <= i < j < k < |ts| :: !StaleBehindFresh(ts, window, i, j, k)
  }

  // ----- without such readings the backends agree

  /** No timestamp below lo stands behind one that is not. */
  predicate Clean(s: seq<real>, lo: real) {
    forall a, b | 0 <= a < b < |s| :: !(s[b] < lo <= s[a])
  }

  lemma {:induction false} CleanDrop(s: seq<real>, now: real, width: real)
    requires Clean(s, now - width)
    ensures DropOld(s, now, width) == Since(s, now - width)
  {
    if s != [] {
      if now - s[0] > width {
        CleanDrop(s[1..], now, width);
      } else {
        SinceAll(s, now - width);
      }
    }
  }

  lemma {:induction false} DropIsSuffix(s: seq<real>, now: real, width: real) returns (m: nat)
    ensures m <= |s| && DropOld(s, now, width) == s[m..]
  {
    m := 0;
    if s != [] && now - s[0] > width {
      var k := DropIsSuffix(s[1..], now, width);
      m := k + 1;
    }
  }

  /** Before call n: every kept timestamp is an earlier reading, and none that a later
      reading finds stale stands behind one that it finds fresh. */
  ghost predicate Prunable(st: Limiter, ts: seq<real>, n: nat, window: real)
    requires n <= |ts|
  {
    && (forall key :: BucketPrunable(HitsOf(st.hits, key), ts, n, window))
    && (forall key :: DeadlineOf(st.cooldown, key) >= 0.0)
  }

  ghost predicate BucketPrunable(s: seq<real>, ts: seq<real>, n: nat, window: real)
    requires n <= |ts|
  {
    && (forall x | x in s :: x in ts[..n])
    && (forall m | n <= m < |ts| :: Clean(s, ts[m] - window))
  }

  lemma SuffixPrunable(s: seq<real>, from: nat, ts: seq<real>, n: nat, window: real)
    requires n <= |ts| && from <= |s| && BucketPrunable(s, ts, n, window)
    ensures BucketPrunable(s[from..], ts, n, window)
  {
    forall m | n <= m < |ts|
      ensures Clean(s[from..], ts[m] - window)
    {
      assert Clean(s, ts[m] - window);
    }
  }

  lemma LaterPrunable(s: seq<real>, ts: seq<real>, n: nat, window: real)
    requires n < |ts| && BucketPrunable(s, ts, n, window)
    ensures BucketPrunable(s, ts, n + 1, window)
  {
    assert ts[..n + 1] == ts[..n] + [ts[n]];
  }

  lemma AdmitPrunable(s: seq<real>, ts: seq<real>, n: nat, window: real)
    requires n < |ts| && 0.0 <= ts[n] && NoneStaleBehindFresh(ts, window) && BucketPrunable(s, ts, n, window)
    ensures BucketPrunable(s + [ts[n]], ts, n + 1, window)
  {
    assert ts[..n + 1] == ts[..n] + [ts[n]];
    var s1 := s + [ts[n]];
    forall m | n + 1 <= m < |ts|
      ensures Clean(s1, ts[m] - window)
    {
      assert Clean(s, ts[m] - window);
      forall a, b | 0 <= a < b < |s1|
        ensures !(s1[b] < ts[m] - window <= s1[a])
      {
        if b == |s| {
          assert s[a] in ts[..n];
          var i :| 0 <= i < n && ts[i] == s[a];
          assert !StaleBehindFresh(ts, window, i, n, m);
        } else {
          assert s1[a] == s[a] && s1[b] == s[b];
        }
      }
    }
  }

  lemma StepAgrees(cfg: Config, st: Limiter, ts: seq<real>, n: nat, c: Call)
    requires n < |ts| && c.now == ts[n] && NoneStaleBehindFresh(ts, cfg.window) && Prunable(st, ts, n, cfg.window)
    ensures MemAllow(cfg, st, c) == Allow(cfg, st, c)
    ensures Prunable(Allow(cfg, st, c).0, ts, n + 1, cfg.window)
  {
    var bucket := HitsOf(st.hits, c.key);
    assert BucketPrunable(bucket, ts, n, cfg.window);
    CleanDrop(bucket, c.now, cfg.window);
    var from := DropIsSuffix(bucket, c.now, cfg.window);
    SuffixPrunable(bucket, from, ts, n, cfg.window);
    var st1 := Allow(cfg, st, c).0;
    forall key
      ensures BucketPrunable(HitsOf(st1.hits, key), ts, n + 1, cfg.window)
    {
      assert BucketPrunable(HitsOf(st.hits, key), ts, n, cfg.window);
      LaterPrunable(HitsOf(st.hits, key), ts, n, cfg.window);
      LaterPrunable(bucket[from..], ts, n, cfg.window);
      if c.now >= 0.0 {
        AdmitPrunable(bucket[from..], ts, n, cfg.window);
      }
    }
    assert DeadlineOf(st.cooldown, c.key) >= 0.0;
    forall key
      ensures DeadlineOf(st1.cooldown, key) >= 0.0
    {
      assert DeadlineOf(st.cooldown, key) >= 0.0;
    }
  }

  lemma {:induction false} RunAgrees(cfg: Config, st: Limiter, ts: seq<real>, n: nat, calls: seq<Call>)
    requires n <= |ts| && ReadsClock(calls, ts[n..])
    requires NoneStaleBehindFresh(ts, cfg.window) && Prunable(st, ts, n, cfg.window)
    ensures MemRun(cfg, st, calls) == Run(cfg, st, calls)
    decreases |calls|
  {
    if calls != [] {
      assert calls[0].now == ts[n..][0];
      StepAgrees(cfg, st, ts, n, calls[0]);
      assert ReadsClock(calls[1..], ts[n + 1..]) by {
        assert forall i | 0 <= i < |calls| - 1 :: calls[1..][i] == calls[i + 1] && ts[n + 1..][i] == ts[n..][i + 1];
      }
      RunAgrees(cfg, Allow(cfg, st, calls[0]).0, ts, n + 1, calls[1..]);
    }
  }

  /** The table is the abstract limiter on every call sequence, under any clock. */
  lemma {:induction false} TableRunIsRun(cfg: Config, sql: Tables, abs: Limiter, calls: seq<Call>)
    requires SqlMatches(sql, abs)
    ensures SqlRun(cfg, sql, calls).1 == Run(cfg, abs, calls).1
    decreases |calls|
  {
    if calls != [] {
      SqlStep(cfg, sql, abs, calls[0]);
      TableRunIsRun(cfg, SqlAllow(cfg, sql, calls[0]).0, Allow(cfg, abs, calls[0]).0, calls[1..]);
    }
  }

  // ----- with such readings some calls separate them

  const PROBE_KEY := "probe"

  /** Three calls under one key at the readings i, j and k, all others under another. */
  function ProbeCalls(ts: seq<real>, i: nat, j: nat, k: nat): (calls: seq<Call>)
    ensures ReadsClock(calls, ts)
  {
    seq(|ts|, n requires 0 <= n < |ts| =>
      Call(if n == i || n == j || n == k then PROBE_KEY else "other", ts[n], 0, 0, 1.0))
  }

  predicate Quiet(c: Call) {
    c.severity == 0 && c.attempts == 0 && c.multiplier == 1.0
  }

  /** Quiet calls, of which those before the next probe go under other keys. */
  predicate QuietUntil(calls: seq<Call>, next: nat) {
    && next < |calls| && calls[next].key == PROBE_KEY
    && (forall n | 0 <= n < |calls| :: Quiet(calls[n]))
    && (forall n | 0 <= n < next :: calls[n].key != PROBE_KEY)
  }

  /** Both limiters, outside cooldown, keep these timestamps for the probe. */
  predicate BothKeep(mem: Limiter, abs: Limiter, times: seq<real>) {
    && mem.cooldown == map[] && abs.cooldown == map[]
    && HitsOf(mem.hits, PROBE_KEY) == times && HitsOf(abs.hits, PROBE_KEY) == times
  }

  lemma QuietLimit(cfg: Config, c: Call)
    requires Quiet(c) && cfg.maxRequests == 2
    ensures EffectiveLimit(cfg.maxRequests, c.severity, c.attempts, c.multiplier) == 2
  {
  }

  /** Calls under other keys leave the probe's timestamps alone. */
  lemma OtherCall(cfg: Config, mem: Limiter, abs: Limiter, times: seq<real>, c: Call)
    requires BothKeep(mem, abs, times) && Quiet(c) && c.key != PROBE_KEY
    ensures BothKeep(MemAllow(cfg, mem, c).0, Allow(cfg, abs, c).0, times)
  {
  }

  lemma NextQuiet(calls: seq<Call>, next: nat)
    requires QuietUntil(calls, next) && next > 0
    ensures QuietUntil(calls[1..], next - 1)
  {
    assert forall n | 0 <= n < |calls| - 1 :: calls[1..][n] == calls[n + 1];
  }

  lemma QuietFrom(calls: seq<Call>, from: nat, next: nat)
    requires from <= next < |calls| && calls[next].key == PROBE_KEY
    requires forall n | 0 <= n < |calls| :: Quiet(calls[n])
    requires forall n | from <= n < next :: calls[n].key != PROBE_KEY
    ensures QuietUntil(calls[from..], next - from)
  {
  }

  lemma Unequal<T>(a: T, b: T, s: seq<T>, t: seq<T>)
    requires a != b || s != t
    ensures [a] + s != [b] + t
  {
    assert ([a] + s)[0] == a && ([b] + t)[0] == b && ([a] + s)[1..] == s && ([b] + t)[1..] == t;
  }

  /** The third probe: the deque still counts the stale timestamp, the table does not. */
  lemma {:induction false} ThirdProbe(cfg: Config, mem: Limiter, abs: Limiter, first: real, second: real,
                                      calls: seq<Call>, next: nat)
    requires cfg.maxRequests == 2 && BothKeep(mem, abs, [first, second]) && QuietUntil(calls, next)
    requires 0.0 <= second < calls[next].now - cfg.window <= first && 0.0 <= calls[next].now
    ensures MemRun(cfg, mem, calls).1 != Run(cfg, abs, calls).1
    decreases next
  {
    var c := calls[0];
    assert Quiet(c);
    if next == 0 {
      QuietLimit(cfg, c);
      assert [first, second][1..] == [second] && [second][1..] == [];
      assert Since([second], c.now - cfg.window) == [];
      assert Since([first, second], c.now - cfg.window) == [first];
    } else {
      OtherCall(cfg, mem, abs, [first, second], c);
      NextQuiet(calls, next);
      ThirdProbe(cfg, MemAllow(cfg, mem, c).0, Allow(cfg, abs, c).0, first, second, calls[1..], next - 1);
    }
    Unequal(MemAllow(cfg, mem, c).1, Allow(cfg, abs, c).1,
            MemRun(cfg, MemAllow(cfg, mem, c).0, calls[1..]).1, Run(cfg, Allow(cfg, abs, c).0, calls[1..]).1);
  }

  /** The second probe: admitted by both, behind the first. */
  lemma {:induction false} SecondProbe(cfg: Config, mem: Limiter, abs: Limiter, first: real,
                                       calls: seq<Call>, next: nat, last: nat)
    requires cfg.maxRequests == 2 && cfg.window >= 0.0 && BothKeep(mem, abs, [first]) && QuietUntil(calls, next)
    requires next < last < |calls| && QuietUntil(calls[next + 1..], last - next - 1)
    requires 0.0 <= calls[next].now < calls[last].now - cfg.window <= first
    ensures MemRun(cfg, mem, calls).1 != Run(cfg, abs, calls).1
    decreases next
  {
    var c := calls[0];
    assert Quiet(c);
    var mem1, abs1 := MemAllow(cfg, mem, c).0, Allow(cfg, abs, c).0;
    if next == 0 {
      QuietLimit(cfg, c);
      assert [first][1..] == [];
      assert Since([first], c.now - cfg.window) == [first];
      assert [first] + [c.now] == [first, c.now];
      ThirdProbe(cfg, mem1, abs1, first, c.now, calls[1..], last - 1);
    } else {
      OtherCall(cfg, mem, abs, [first], c);
      NextQuiet(calls, next);
      assert calls[1..][next..] == calls[next + 1..];
      SecondProbe(cfg, mem1, abs1, first, calls[1..], next - 1, last - 1);
    }
    Unequal(MemAllow(cfg, mem, c).1, Allow(cfg, abs, c).1, MemRun(cfg, mem1, calls[1..]).1,
            Run(cfg, abs1, calls[1..]).1);
  }

  lemma FirstKept(cfg: Config, mem: Limiter, abs: Limiter, c: Call)
    requires cfg.maxRequests == 2 && BothKeep(mem, abs, []) && Quiet(c) && c.key == PROBE_KEY && 0.0 <= c.now
    ensures BothKeep(MemAllow(cfg, mem, c).0, Allow(cfg, abs, c).0, [c.now])
  {
    QuietLimit(cfg, c);
    assert [] + [c.now] == [c.now];
  }

  /** The first probe: admitted by both. */
  lemma {:induction false} FirstProbe(cfg: Config, mem: Limiter, abs: Limiter, calls: seq<Call>, i: nat, j: nat, k: nat)
    requires cfg.maxRequests == 2 && cfg.window >= 0.0 && BothKeep(mem, abs, []) && QuietUntil(calls, i)
    requires i < j < k < |calls| && QuietUntil(calls[i + 1..], j - i - 1) && QuietUntil(calls[j + 1..], k - j - 1)
    requires 0.0 <= calls[j].now < calls[k].now - cfg.window <= calls[i].now
    ensures MemRun(cfg, mem, calls).1 != Run(cfg, abs, calls).1
    decreases i
  {
    var c := calls[0];
    assert Quiet(c);
    var mem1, abs1 := MemAllow(cfg, mem, c).0, Allow(cfg, abs, c).0;
    assert calls[1..][j..] == calls[j + 1..];
    if i == 0 {
      FirstKept(cfg, mem, abs, c);
      SecondProbe(cfg, mem1, abs1, c.now, calls[1..], j - 1, k - 1);
    } else {
      OtherCall(cfg, mem, abs, [], c);
      NextQuiet(calls, i);
      assert calls[1..][i..] == calls[i + 1..];
      FirstProbe(cfg, mem1, abs1, calls[1..], i - 1, j - 1, k - 1);
    }
    Unequal(MemAllow(cfg, mem, c).1, Allow(cfg, abs, c).1, MemRun(cfg, mem1, calls[1..]).1,
            Run(cfg, abs1, calls[1..]).1);
  }

  /** At such readings the probe calls under a maximum of 2 get different answers. */
  lemma StaleBehindFreshSeparates(window: real, ts: seq<real>, i: nat, j: nat, k: nat)
    requires window >= 0.0 && i < j < k < |ts| && StaleBehindFresh(ts, window, i, j, k)
    ensures var cfg, calls := Config(2, window), ProbeCalls(ts, i, j, k);
            MemRun(cfg, EMPTY, calls).1 != SqlRun(cfg, EMPTY_TABLES, calls).1
  {
    var cfg, calls := Config(2, window), ProbeCalls(ts, i, j, k);
    QuietFrom(calls, i + 1, j);
    QuietFrom(calls, j + 1, k);
    FirstProbe(cfg, EMPTY, EMPTY, calls, i, j, k);
    TableRunIsRun(cfg, EMPTY_TABLES, EMPTY, calls);
  }

  // ----- the exact condition

  /** The backends answer alike, whatever the calls at these readings and whatever the
      maximum. */
  ghost predicate AlwaysAgree(window: real, ts: seq<real>) {
    forall max: int, calls: seq<Call> | ReadsClock(calls, ts) ::
      MemRun(Config(max, window), EMPTY, calls).1 == SqlRun(Config(max, window), EMPTY_TABLES, calls).1
  }

  lemma AgreeWhenNoneStale(window: real, ts: seq<real>, max: int, calls: seq<Call>)
    requires NoneStaleBehindFresh(ts, window) && ReadsClock(calls, ts)
    ensures MemRun(Config(max, window), EMPTY, calls).1 == Run(Config(max, window), EMPTY, calls).1
    ensures MemRun(Config(max, window), EMPTY, calls).1 == SqlRun(Config(max, window), EMPTY_TABLES, calls).1
  {
    assert ts[0..] == ts;
    RunAgrees(Config(max, window), EMPTY, ts, 0, calls);
    TableRunIsRun(Config(max, window), EMPTY_TABLES, EMPTY, calls);
  }

  /** The two backends agree on every call sequence made at given clock readings if and
      only if no reading ever finds a stale timestamp behind a fresh one. A clock that
      steps back need not separate them; this is exactly when it does. */
  lemma BackendsAgreeExactly(window: real, ts: seq<real>)
    requires window >= 0.0
    ensures AlwaysAgree(window, ts) <==> NoneStaleBehindFresh(ts, window)
  {
    if NoneStaleBehindFresh(ts, window) {
      forall max: int, calls: seq<Call> | ReadsClock(calls, ts)
        ensures MemRun(Config(max, window), EMPTY, calls).1 == SqlRun(Config(max, window), EMPTY_TABLES, calls).1
      {
        AgreeWhenNoneStale(window, ts, max, calls);
      }
    } else {
      var i, j, k :| 0 <= i < j < k < |ts| && StaleBehindFresh(ts, window, i, j, k);
      StaleBehindFreshSeparates(window, ts, i, j, k);
      assert ReadsClock(ProbeCalls(ts, i, j, k), ts);
    }
  }

  /** A step back from 100 to 50 separates them at 70, under a window of 10. */
  lemma BackwardClockSeparates()
    ensures !AlwaysAgree(10.0, [100.0, 50.0, 70.0])
  {
    assert StaleBehindFresh([100.0, 50.0, 70.0], 10.0, 0, 1, 2);
    BackendsAgreeExactly(10.0, [100.0, 50.0, 70.0]);
  }

  // ----- the usual clock

  lemma {:induction false} ClockLowerBound(now: real, calls: seq<Call>, i: nat)
    requires ClockFrom(now, calls) && i < |calls|
    ensures now <= calls[i].now
    decreases |calls|
  {
    if i > 0 {
      ClockLowerBound(calls[0].now, calls[1..], i - 1);
    }
  }

  lemma {:induction false} ClockSorted(now: real, calls: seq<Call>, i: nat, j: nat)
    requires ClockFrom(now, calls) && i < j < |calls|
    ensures calls[i].now <= calls[j].now
    decreases |calls|
  {
    if i == 0 {
      ClockLowerBound(calls[0].now, calls[1..], j - 1);
    } else {
      ClockSorted(calls[0].now, calls[1..], i - 1, j - 1);
    }
  }

  /** Under a clock that never runs back the two backends give the same verdicts on every
      call sequence, and both are the abstract limiter. */
  lemma BackendsAgree(cfg: Config, start: real, calls: seq<Call>)
    requires ClockFrom(start, calls)
    ensures MemRun(cfg, EMPTY, calls).1 == SqlRun(cfg, EMPTY_TABLES, calls).1
    ensures MemRun(cfg, EMPTY, calls).1 == Run(cfg, EMPTY, calls).1
  {
    var ts := seq(|calls|, n requires 0 <= n < |calls| => calls[n].now);
    forall i, j, k | 0 <= i < j < k < |ts|
      ensures !StaleBehindFresh(ts, cfg.window, i, j, k)
    {
      ClockSorted(start, calls, i, j);
    }
    AgreeWhenNoneStale(cfg.window, ts, cfg.maxRequests, calls);
  }

  /** The window bound holds of what the callers of either backend see. */
  lemma BothBackendsBounded(cfg: Config, start: real, calls: seq<Call>, key: string, a: real)
    requires ClockFrom(start, calls)
    ensures var mem, sql := MemRun(cfg, EMPTY, calls).1, SqlRun(cfg, EMPTY_TABLES, calls).1;
            |mem| == |sql| == |calls| &&
            CountIn(TimesAnswered(calls, mem, key), a, a + cfg.window) <= Max(1, cfg.maxRequests) &&
            CountIn(TimesAnswered(calls, sql, key), a, a + cfg.window) <= Max(1, cfg.maxRequests)
  {
    BackendsAgree(cfg, start, calls);
    AnswersAreAdmissions(cfg, EMPTY, calls, key);
    SlidingWindowBound(cfg, start, calls, key, a);
  }
}
