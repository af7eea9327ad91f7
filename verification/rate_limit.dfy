/** The adaptive sliding-window limiter of app/rate_limit.py: one abstract window per
    key, the two backends that implement it, and what every run of them guarantees. */
module RateLimit {
  import opened Window

  const COOLDOWN_SECONDS := 3600.0

  datatype Config = Config(maxRequests: int, window: real)

  datatype Call = Call(key: string, now: real, severity: int, attempts: int, multiplier: real)

  datatype Verdict = Allowed | CooldownActive | AggressiveAttacker | RateExceeded

  function Max(a: int, b: int): int { if a < b then b else a }

  /** Python's int(): truncation toward zero. */
  function Truncate(x: real): int {
    if x >= 0.0 then x.Floor else -((-x).Floor)
  }

  function AfterSeverity(maxRequests: int, severity: int): int {
    if severity >= 80 then Max(1, maxRequests / 10)
    else if severity >= 50 then Max(1, maxRequests / 5)
    else if severity >= 30 then Max(1, maxRequests / 2)
    else maxRequests
  }

  function AfterMultiplier(limit: int, multiplier: real): int {
    if multiplier > 1.0 then Max(1, Truncate(limit as real / multiplier)) else limit
  }

  /** The limit in force for a call that is not sent straight to cooldown. */
  function EffectiveLimit(maxRequests: int, severity: int, attempts: int, multiplier: real): int {
    var limit := AfterMultiplier(AfterSeverity(maxRequests, severity), multiplier);
    if attempts >= 2 then Max(1, limit / 2) else limit
  }

  // ----- arithmetic of the limit

  lemma RealQuotient(n: real, q: real, r: real, m: real)
    requires 0.0 <= r < m && n == q * m + r
    ensures q <= n / m < q + 1.0
  {
    assert n / m == q + r / m;
  }

  lemma FloorQuotient(n: int, m: int)
    requires n >= 0 && m >= 1
    ensures Truncate(n as real / m as real) == n / m
  {
    var q, r := n / m, n % m;
    assert n == q * m + r;
    assert n as real == q as real * m as real + r as real;
    RealQuotient(n as real, q as real, r as real, m as real);
    var x := n as real / m as real;
    assert q >= 0 && q as real <= x < (q + 1) as real;
    assert x.Floor == q;
  }

  lemma Regroup(r: int, b: int, k: int, a: int)
    ensures (r * b + k) * a == r * (a * b) + k * a
  {
    assert (r * b) * a == r * (a * b);
    assert (r * b + k) * a == (r * b) * a + k * a;
  }

  lemma RemainderBound(k: int, a: int, b: int, r: int)
    requires 0 <= k < b && 0 <= r < a
    ensures 0 <= k * a + r < a * b
  {
    assert k * a <= (b - 1) * a;
    assert (b - 1) * a == a * b - a;
  }

  lemma NestedQuotient(n: int, a: int, b: int)
    requires n >= 0 && a >= 1 && b >= 1
    ensures a * b >= 1
    ensures n / a / b == n / (a * b)
  {
    var q, r0 := n / a, n % a;
    var r, k := q / b, q % b;
    assert n == q * a + r0 && q == r * b + k;
    RemainderBound(k, a, b, r0);
    Regroup(r, b, k, a);
    QuotientUnique(n, a * b, r, k * a + r0);
  }

  lemma MulAtLeast(g: int, d: int)
    requires g >= 1 && d >= 1
    ensures g * d >= d
  {
  }

  lemma QuotientUnique(n: int, d: int, q: int, r: int)
    requires d >= 1 && n == q * d + r && 0 <= r < d
    ensures n / d == q
  {
    var q', r' := n / d, n % d;
    assert n == q' * d + r' && 0 <= r' < d;
    var gap := q' - q;
    assert gap * d == q' * d - q * d == r - r';
    if gap >= 1 {
      MulAtLeast(gap, d);
    } else if gap <= -1 {
      MulAtLeast(-gap, d);
    }
  }

  lemma ClampedQuotient(n: int, a: int, b: int)
    requires n >= 1 && a >= 1 && b >= 1
    ensures a * b >= 1
    ensures Max(1, Max(1, n / a) / b) == Max(1, n / (a * b))
  {
    NestedQuotient(n, a, b);
    if n / a < 1 {
      assert n / a == 0;
      assert 1 / b <= 1;
    }
  }

  /** The clamped divisions, taken one after the other, are one clamped division by the
      product of three divisors: 1, 2, 5 or 10 for severities below 30, from 30, 50 and 80
      on, the multiplier, and 2 from the second attempt on. */
  lemma LimitIsOneQuotient(maxRequests: int, severity: int, attempts: int, m: int, d: int, a: int)
    requires maxRequests >= 1 && m >= 1
    requires d == if severity < 30 then 1 else if severity < 50 then 2 else if severity < 80 then 5 else 10
    requires a == if attempts < 2 then 1 else 2
    ensures d * m * a >= 1
    ensures EffectiveLimit(maxRequests, severity, attempts, m as real) == Max(1, maxRequests / (d * m * a))
  {
    var first := AfterSeverity(maxRequests, severity);
    assert first == Max(1, maxRequests / d);
    FloorQuotient(first, m);
    var second := AfterMultiplier(first, m as real);
    assert second == Max(1, first / m);
    ClampedQuotient(maxRequests, d, m);
    assert second == Max(1, maxRequests / (d * m));
    ClampedQuotient(maxRequests, d * m, a);
    assert EffectiveLimit(maxRequests, severity, attempts, m as real) == Max(1, second / a);
  }

  lemma QuotientShrinks(limit: int, multiplier: real)
    requires limit >= 1 && multiplier > 1.0
    ensures 0 <= Truncate(limit as real / multiplier) <= limit
  {
    var x := limit as real / multiplier;
    assert x * multiplier == limit as real;
    assert 0.0 <= x <= limit as real;
  }

  /** Whatever the signals, the limit stays in 1..maxRequests. */
  lemma LimitInRange(maxRequests: int, severity: int, attempts: int, multiplier: real)
    requires maxRequests >= 1
    ensures 1 <= EffectiveLimit(maxRequests, severity, attempts, multiplier) <= maxRequests
  {
    var first := AfterSeverity(maxRequests, severity);
    if multiplier > 1.0 {
      QuotientShrinks(first, multiplier);
    }
  }

  /** The same upper bound for any configured maximum, positive or not. */
  lemma LimitAtMost(maxRequests: int, severity: int, attempts: int, multiplier: real)
    ensures EffectiveLimit(maxRequests, severity, attempts, multiplier) <= Max(1, maxRequests)
  {
    if maxRequests >= 1 {
      LimitInRange(maxRequests, severity, attempts, multiplier);
    } else if multiplier > 1.0 {
      var first := AfterSeverity(maxRequests, severity);
      if first >= 1 {
        QuotientShrinks(first, multiplier);
      } else {
        var x := first as real / multiplier;
        assert x * multiplier == first as real;
        assert x <= 0.0;
      }
    }
  }

  lemma QuotientAntitone(n1: int, n2: int, m1: real, m2: real)
    requires 0 <= n2 <= n1 && 1.0 < m1 <= m2
    ensures Truncate(n2 as real / m2) <= Truncate(n1 as real / m1)
  {
    var x1, x2 := n1 as real / m1, n2 as real / m2;
    assert x1 * m1 == n1 as real && x2 * m2 == n2 as real;
    assert 0.0 <= x2;
    assert x2 * m1 <= x2 * m2;
    assert x2 * m1 <= x1 * m1;
    assert x2 <= x1;
  }

  /** Raising any risk signal never raises the limit. */
  lemma LimitAntitone(maxRequests: int, s1: int, s2: int, a1: int, a2: int, m1: real, m2: real)
    requires maxRequests >= 1
    requires s1 <= s2 && a1 <= a2 && m1 <= m2
    ensures EffectiveLimit(maxRequests, s2, a2, m2) <= EffectiveLimit(maxRequests, s1, a1, m1)
  {
    var f1, f2 := AfterSeverity(maxRequests, s1), AfterSeverity(maxRequests, s2);
    assert 1 <= f2 <= f1;
    var g1, g2 := AfterMultiplier(f1, m1), AfterMultiplier(f2, m2);
    if m1 > 1.0 {
      QuotientAntitone(f1, f2, m1, m2);
    } else if m2 > 1.0 {
      QuotientShrinks(f2, m2);
    }
    assert g2 <= g1;
    LimitInRange(maxRequests, s1, 0, m1);
    assert 1 <= g1;
  }

  // ----- the abstract limiter: per key, the timestamps of the last window

  datatype Limiter = Limiter(hits: map<string, seq<real>>, cooldown: map<string, real>)

  const EMPTY := Limiter(map[], map[])

  function HitsOf(hits: map<string, seq<real>>, key: string): seq<real> {
    if key in hits then hits[key] else []
  }

  function DeadlineOf(cooldown: map<string, real>, key: string): real {
    if key in cooldown then cooldown[key] else 0.0
  }

  /** The verdict on a call outside cooldown that finds `current` hits in the window. */
  function Judge(cfg: Config, c: Call, current: int): Verdict {
    if c.attempts >= 3 then AggressiveAttacker
    else if current >= EffectiveLimit(cfg.maxRequests, c.severity, c.attempts, c.multiplier) then RateExceeded
    else Allowed
  }

  /** A call outside cooldown, once the key's window has been pruned to `kept`. */
  function Settle(cfg: Config, st: Limiter, c: Call, kept: seq<real>): (Limiter, Verdict) {
    match Judge(cfg, c, |kept|)
    case Allowed => (st.(hits := st.hits[c.key := kept + [c.now]]), Allowed)
    case AggressiveAttacker =>
      (Limiter(st.hits[c.key := kept], st.cooldown[c.key := c.now + COOLDOWN_SECONDS]), AggressiveAttacker)
    case other => (st.(hits := st.hits[c.key := kept]), other)
  }

  function Allow(cfg: Config, st: Limiter, c: Call): (Limiter, Verdict) {
    if c.now < DeadlineOf(st.cooldown, c.key) then (st, CooldownActive)
    else Settle(cfg, st, c, Since(HitsOf(st.hits, c.key), c.now - cfg.window))
  }

  // ----- the deque backend

  function MemAllow(cfg: Config, st: Limiter, c: Call): (Limiter, Verdict) {
    if c.now < DeadlineOf(st.cooldown, c.key) then (st, CooldownActive)
    else Settle(cfg, st, c, DropOld(HitsOf(st.hits, c.key), c.now, cfg.window))
  }

  // ----- the SQLite backend: one table of (key, ts) rows

  datatype Row = Row(key: string, ts: real)

  datatype Tables = Tables(rows: seq<Row>, cooldown: map<string, real>)

  const EMPTY_TABLES := Tables([], map[])

  /** The rows that a prune of one key up to a timestamp leaves in the table. */
  function DeleteBefore(rows: seq<Row>, key: string, lo: real): seq<Row> {
    if rows == [] then []
    else if rows[0].key == key && rows[0].ts < lo then DeleteBefore(rows[1..], key, lo)
    else [rows[0]] + DeleteBefore(rows[1..], key, lo)
  }

  /** How many rows of one key are no older than a timestamp. */
  function CountFrom(rows: seq<Row>, key: string, lo: real): nat {
    if rows == [] then 0
    else (if rows[0].key == key && rows[0].ts >= lo then 1 else 0) + CountFrom(rows[1..], key, lo)
  }

  function TimesOf(rows: seq<Row>, key: string): seq<real> {
    if rows == [] then []
    else if rows[0].key == key then [rows[0].ts] + TimesOf(rows[1..], key)
    else TimesOf(rows[1..], key)
  }

  function SqlAllow(cfg: Config, st: Tables, c: Call): (Tables, Verdict) {
    if c.now < DeadlineOf(st.cooldown, c.key) then (st, CooldownActive)
    else
      var rows := DeleteBefore(st.rows, c.key, c.now - cfg.window);
      match Judge(cfg, c, CountFrom(rows, c.key, c.now - cfg.window))
      case Allowed => (st.(rows := rows + [Row(c.key, c.now)]), Allowed)
      case AggressiveAttacker =>
        (Tables(rows, st.cooldown[c.key := c.now + COOLDOWN_SECONDS]), AggressiveAttacker)
      case other => (st.(rows := rows), other)
  }

  lemma TimesCons(r: Row, rows: seq<Row>, key: string)
    ensures TimesOf([r] + rows, key) == if r.key == key then [r.ts] + TimesOf(rows, key) else TimesOf(rows, key)
  {
    assert ([r] + rows)[1..] == rows;
  }

  lemma {:induction false} TimesAppend(rows: seq<Row>, r: Row, key: string)
    ensures TimesOf(rows + [r], key) == TimesOf(rows, key) + if r.key == key then [r.ts] else []
  {
    if rows == [] {
      assert rows + [r] == [r] + [];
      TimesCons(r, [], key);
    } else {
      assert rows + [r] == [rows[0]] + (rows[1..] + [r]);
      TimesCons(rows[0], rows[1..] + [r], key);
      TimesAppend(rows[1..], r, key);
    }
  }

  lemma SinceCons(t: real, s: seq<real>, lo: real)
    ensures Since([t] + s, lo) == if lo <= t then [t] + Since(s, lo) else Since(s, lo)
  {
    assert ([t] + s)[1..] == s;
  }

  /** Deleting rows of one key prunes that key's timestamps. */
  lemma {:induction false} DeleteTimes(rows: seq<Row>, key: string, lo: real)
    ensures TimesOf(DeleteBefore(rows, key, lo), key) == Since(TimesOf(rows, key), lo)
  {
    if rows != [] {
      var r, rest := rows[0], rows[1..];
      DeleteTimes(rest, key, lo);
      TimesCons(r, DeleteBefore(rest, key, lo), key);
      SinceCons(r.ts, TimesOf(rest, key), lo);
    }
  }

  /** And leaves every other key's alone. */
  lemma {:induction false} DeleteTimesOther(rows: seq<Row>, key: string, lo: real, other: string)
    requires other != key
    ensures TimesOf(DeleteBefore(rows, key, lo), other) == TimesOf(rows, other)
  {
    if rows != [] {
      DeleteTimesOther(rows[1..], key, lo, other);
      TimesCons(rows[0], DeleteBefore(rows[1..], key, lo), other);
    }
  }

  lemma {:induction false} CountIsSince(rows: seq<Row>, key: string, lo: real)
    ensures CountFrom(rows, key, lo) == |Since(TimesOf(rows, key), lo)|
  {
    if rows != [] {
      CountIsSince(rows[1..], key, lo);
      SinceCons(rows[0].ts, TimesOf(rows[1..], key), lo);
    }
  }

  // ----- simulation between the backends

  function Last(s: seq<real>): real
    requires s != []
  {
    s[|s| - 1]
  }

  /** Every deque is sorted and not ahead of now. */
  ghost predicate Orderly(hits: map<string, seq<real>>, now: real) {
    forall key | key in hits :: Sorted(hits[key]) && (hits[key] != [] ==> Last(hits[key]) <= now)
  }

  ghost predicate SqlMatches(sql: Tables, abs: Limiter) {
    && sql.cooldown == abs.cooldown
    && (forall key :: TimesOf(sql.rows, key) == HitsOf(abs.hits, key))
  }

  lemma SettleOrderly(cfg: Config, st: Limiter, c: Call, kept: seq<real>)
    requires Orderly(st.hits, c.now) && Sorted(kept) && (kept != [] ==> Last(kept) <= c.now)
    ensures Orderly(Settle(cfg, st, c, kept).0.hits, c.now)
  {
    assert Sorted(kept + [c.now]);
  }

  /** While the clock does not run back, popping from the front is all the pruning that
      a deque needs. */
  lemma MemStep(cfg: Config, st: Limiter, now: real, c: Call)
    requires Orderly(st.hits, now) && now <= c.now
    ensures MemAllow(cfg, st, c) == Allow(cfg, st, c)
    ensures Orderly(MemAllow(cfg, st, c).0.hits, c.now)
  {
    var bucket := HitsOf(st.hits, c.key);
    DropOldIsSince(bucket, c.now, cfg.window);
    SinceSorted(bucket, c.now - cfg.window);
    SettleOrderly(cfg, st, c, Since(bucket, c.now - cfg.window));
  }

  /** What the delete and the count find is the abstract window, pruned. */
  lemma SqlFinds(sql: Tables, abs: Limiter, key: string, lo: real)
    requires SqlMatches(sql, abs)
    ensures TimesOf(DeleteBefore(sql.rows, key, lo), key) == Since(HitsOf(abs.hits, key), lo)
    ensures CountFrom(DeleteBefore(sql.rows, key, lo), key, lo) == |Since(HitsOf(abs.hits, key), lo)|
  {
    DeleteTimes(sql.rows, key, lo);
    CountIsSince(DeleteBefore(sql.rows, key, lo), key, lo);
    SinceSince(TimesOf(sql.rows, key), lo, lo);
  }

  lemma SqlStepOwnKey(cfg: Config, sql: Tables, abs: Limiter, c: Call)
    requires SqlMatches(sql, abs)
    ensures SqlAllow(cfg, sql, c).1 == Allow(cfg, abs, c).1
    ensures TimesOf(SqlAllow(cfg, sql, c).0.rows, c.key) == HitsOf(Allow(cfg, abs, c).0.hits, c.key)
  {
    var rows := DeleteBefore(sql.rows, c.key, c.now - cfg.window);
    SqlFinds(sql, abs, c.key, c.now - cfg.window);
    TimesAppend(rows, Row(c.key, c.now), c.key);
  }

  lemma SqlStepOtherKey(cfg: Config, sql: Tables, c: Call, key: string)
    requires key != c.key
    ensures TimesOf(SqlAllow(cfg, sql, c).0.rows, key) == TimesOf(sql.rows, key)
  {
    var rows := DeleteBefore(sql.rows, c.key, c.now - cfg.window);
    DeleteTimesOther(sql.rows, c.key, c.now - cfg.window, key);
    TimesAppend(rows, Row(c.key, c.now), key);
    assert TimesOf(rows, key) + [] == TimesOf(rows, key);
  }

  lemma AllowOtherKey(cfg: Config, abs: Limiter, c: Call, key: string)
    requires key != c.key
    ensures HitsOf(Allow(cfg, abs, c).0.hits, key) == HitsOf(abs.hits, key)
  {
  }

  lemma SqlStep(cfg: Config, sql: Tables, abs: Limiter, c: Call)
    requires SqlMatches(sql, abs)
    ensures SqlAllow(cfg, sql, c).1 == Allow(cfg, abs, c).1
    ensures SqlMatches(SqlAllow(cfg, sql, c).0, Allow(cfg, abs, c).0)
  {
    SqlStepOwnKey(cfg, sql, abs, c);
    var sql1, abs1 := SqlAllow(cfg, sql, c).0, Allow(cfg, abs, c).0;
    forall key
      ensures TimesOf(sql1.rows, key) == HitsOf(abs1.hits, key)
    {
      if key != c.key {
        SqlStepOtherKey(cfg, sql, c, key);
        AllowOtherKey(cfg, abs, c, key);
      }
    }
  }

  ghost predicate ClockFrom(now: real, calls: seq<Call>)
    decreases |calls|
  {
    calls == [] || (now <= calls[0].now && ClockFrom(calls[0].now, calls[1..]))
  }

  function Run(cfg: Config, st: Limiter, calls: seq<Call>): (Limiter, seq<Verdict>)
    decreases |calls|
  {
    if calls == [] then (st, [])
    else
      var (st1, v) := Allow(cfg, st, calls[0]);
      var (st2, vs) := Run(cfg, st1, calls[1..]);
      (st2, [v] + vs)
  }

  function MemRun(cfg: Config, st: Limiter, calls: seq<Call>): (Limiter, seq<Verdict>)
    decreases |calls|
  {
    if calls == [] then (st, [])
    else
      var (st1, v) := MemAllow(cfg, st, calls[0]);
      var (st2, vs) := MemRun(cfg, st1, calls[1..]);
      (st2, [v] + vs)
  }

  function SqlRun(cfg: Config, st: Tables, calls: seq<Call>): (Tables, seq<Verdict>)
    decreases |calls|
  {
    if calls == [] then (st, [])
    else
      var (st1, v) := SqlAllow(cfg, st, calls[0]);
      var (st2, vs) := SqlRun(cfg, st1, calls[1..]);
      (st2, [v] + vs)
  }

  // ----- the window bound over whole runs

  /** The admission times of one key along a run. */
  function AdmittedTimes(cfg: Config, st: Limiter, calls: seq<Call>, key: string): seq<real>
    decreases |calls|
  {
    if calls == [] then []
    else
      var (st1, v) := Allow(cfg, st, calls[0]);
      (if v.Allowed? && calls[0].key == key then [calls[0].now] else []) + AdmittedTimes(cfg, st1, calls[1..], key)
  }

  lemma StepCovers(cfg: Config, st: Limiter, log: seq<real>, now: real, c: Call, key: string)
    requires Covers(HitsOf(st.hits, key), log, now, cfg.window, Max(1, cfg.maxRequests))
    requires now <= c.now
    ensures var (st1, v) := Allow(cfg, st, c);
            var log1 := log + if v.Allowed? && c.key == key then [c.now] else [];
            Covers(HitsOf(st1.hits, key), log1, c.now, cfg.window, Max(1, cfg.maxRequests))
  {
    var max := Max(1, cfg.maxRequests);
    CoversLater(HitsOf(st.hits, key), log, now, c.now, cfg.window, max);
    assert log + [] == log;
    LimitAtMost(cfg.maxRequests, c.severity, c.attempts, c.multiplier);
    if c.key == key && Allow(cfg, st, c).1.Allowed? {
      CoversAdmit(HitsOf(st.hits, key), log, c.now, cfg.window, max);
    }
  }

  lemma LogAfterCall(cfg: Config, st: Limiter, log: seq<real>, calls: seq<Call>, key: string)
    requires calls != []
    ensures var (st1, v) := Allow(cfg, st, calls[0]);
            log + AdmittedTimes(cfg, st, calls, key)
            == (log + if v.Allowed? && calls[0].key == key then [calls[0].now] else [])
               + AdmittedTimes(cfg, st1, calls[1..], key)
  {
    var (st1, v) := Allow(cfg, st, calls[0]);
    var step := if v.Allowed? && calls[0].key == key then [calls[0].now] else [];
    var rest := AdmittedTimes(cfg, st1, calls[1..], key);
    assert AdmittedTimes(cfg, st, calls, key) == step + rest;
    ConcatAssoc(log, step, rest);
  }

  /** The time of the last call, or the start when there is none. */
  function LastTime(now: real, calls: seq<Call>): real {
    if calls == [] then now else calls[|calls| - 1].now
  }

  lemma {:induction false} RunCovers(cfg: Config, st: Limiter, log: seq<real>, now: real, calls: seq<Call>, key: string)
    requires Covers(HitsOf(st.hits, key), log, now, cfg.window, Max(1, cfg.maxRequests))
    requires ClockFrom(now, calls)
    ensures Covers(HitsOf(Run(cfg, st, calls).0.hits, key), log + AdmittedTimes(cfg, st, calls, key),
                   LastTime(now, calls), cfg.window, Max(1, cfg.maxRequests))
    decreases |calls|
  {
    if calls == [] {
      assert log + [] == log;
    } else {
      var c := calls[0];
      var (st1, v) := Allow(cfg, st, c);
      StepCovers(cfg, st, log, now, c, key);
      LogAfterCall(cfg, st, log, calls, key);
      RunCovers(cfg, st1, log + if v.Allowed? && c.key == key then [c.now] else [], c.now, calls[1..], key);
      assert LastTime(c.now, calls[1..]) == LastTime(now, calls);
    }
  }

  /** Sliding-window safety: along any run under a non-decreasing clock, whatever the
      severities, attempts and multipliers, no closed interval of one window holds
      more than the configured maximum of admissions of one key. */
  lemma SlidingWindowBound(cfg: Config, start: real, calls: seq<Call>, key: string, a: real)
    requires ClockFrom(start, calls)
    ensures CountIn(AdmittedTimes(cfg, EMPTY, calls, key), a, a + cfg.window) <= Max(1, cfg.maxRequests)
  {
    RunCoversAll(cfg, start, calls, key);
    assert AtMostFrom(AdmittedTimes(cfg, EMPTY, calls, key), a, cfg.window, Max(1, cfg.maxRequests));
  }

  /** From the empty limiter: the kept timestamps answer for all admissions so far. */
  lemma RunCoversAll(cfg: Config, start: real, calls: seq<Call>, key: string)
    requires ClockFrom(start, calls)
    ensures Covers(HitsOf(Run(cfg, EMPTY, calls).0.hits, key), AdmittedTimes(cfg, EMPTY, calls, key),
                   LastTime(start, calls), cfg.window, Max(1, cfg.maxRequests))
  {
    assert Covers([], [], start, cfg.window, Max(1, cfg.maxRequests)) by {
      assert forall a: real :: AtMostFrom([], a, cfg.window, Max(1, cfg.maxRequests));
    }
    RunCovers(cfg, EMPTY, [], start, calls, key);
    assert [] + AdmittedTimes(cfg, EMPTY, calls, key) == AdmittedTimes(cfg, EMPTY, calls, key);
  }

  /** The exact verdict: after any run, a call no earlier than the last one is admitted if
      and only if its key's deadline has passed, its session has fewer than three attempts,
      and fewer of the key's admissions lie in the last window than its limit allows. */
  lemma AllowedExactly(cfg: Config, start: real, calls: seq<Call>, c: Call)
    requires ClockFrom(start, calls) && LastTime(start, calls) <= c.now
    ensures var st := Run(cfg, EMPTY, calls).0;
            Allow(cfg, st, c).1.Allowed? <==>
              && DeadlineOf(st.cooldown, c.key) <= c.now
              && c.attempts < 3
              && |Since(AdmittedTimes(cfg, EMPTY, calls, c.key), c.now - cfg.window)|
                 < EffectiveLimit(cfg.maxRequests, c.severity, c.attempts, c.multiplier)
  {
    var st := Run(cfg, EMPTY, calls).0;
    RunCoversAll(cfg, start, calls, c.key);
    CoversLater(HitsOf(st.hits, c.key), AdmittedTimes(cfg, EMPTY, calls, c.key), LastTime(start, calls), c.now,
                cfg.window, Max(1, cfg.maxRequests));
  }

  /** The admission times of one key, read off the answers the callers got. */
  function TimesAnswered(calls: seq<Call>, verdicts: seq<Verdict>, key: string): seq<real>
    requires |calls| == |verdicts|
    decreases |calls|
  {
    if calls == [] then []
    else
      (if verdicts[0].Allowed? && calls[0].key == key then [calls[0].now] else [])
      + TimesAnswered(calls[1..], verdicts[1..], key)
  }

  lemma {:induction false} AnswersAreAdmissions(cfg: Config, st: Limiter, calls: seq<Call>, key: string)
    ensures |Run(cfg, st, calls).1| == |calls|
    ensures TimesAnswered(calls, Run(cfg, st, calls).1, key) == AdmittedTimes(cfg, st, calls, key)
    decreases |calls|
  {
    if calls != [] {
      var (st1, v) := Allow(cfg, st, calls[0]);
      AnswersAreAdmissions(cfg, st1, calls[1..], key);
      assert Run(cfg, st, calls).1[1..] == Run(cfg, st1, calls[1..]).1;
    }
  }

  // ----- cooldowns

  /** A key's deadline never moves back, under any clock. */
  lemma DeadlineNeverFalls(cfg: Config, st: Limiter, c: Call, key: string)
    ensures DeadlineOf(st.cooldown, key) <= DeadlineOf(Allow(cfg, st, c).0.cooldown, key)
  {
  }

  lemma {:induction false} DeadlineNeverFallsInRun(cfg: Config, st: Limiter, calls: seq<Call>, key: string)
    ensures DeadlineOf(st.cooldown, key) <= DeadlineOf(Run(cfg, st, calls).0.cooldown, key)
    decreases |calls|
  {
    if calls != [] {
      DeadlineNeverFalls(cfg, st, calls[0], key);
      DeadlineNeverFallsInRun(cfg, Allow(cfg, st, calls[0]).0, calls[1..], key);
    }
  }

  /** A call at time t with three attempts or more, outside a cooldown, is refused as an
      aggressive attacker's; then, whatever calls come between, every call for the same
      key before t + 3600 is refused as still cooling down. */
  lemma CooldownLasts(cfg: Config, st: Limiter, first: Call, between: seq<Call>, later: Call)
    requires first.attempts >= 3 && DeadlineOf(st.cooldown, first.key) <= first.now
    requires later.key == first.key && later.now < first.now + 3600.0
    ensures Allow(cfg, st, first).1 == AggressiveAttacker
    ensures Allow(cfg, Run(cfg, Allow(cfg, st, first).0, between).0, later).1 == CooldownActive
  {
    DeadlineNeverFallsInRun(cfg, Allow(cfg, st, first).0, between, first.key);
  }
}
