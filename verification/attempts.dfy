/** The bound on a session's recorded attempts is met: for every number of requests that
    may wait together, a run of the gateway machine that reaches it. */
module Attempts {
  import opened Records
  import opened Policy
  import opened Pipeline
  import opened RiskEngine
  import RateLimit

  const SESSION := "session"

  /** The n-th request: its own client, no permission at all, always the same session. */
  function Probe(n: nat): Request {
    Request(SESSION, "", seq(n, i => 'x'), "subject", None, 0, 0, {}, false, Facts(false, false, false), Scan(0, {}),
            Dlp(0, {}))
  }

  lemma ProbeKeysDiffer(m: nat, n: nat)
    requires m != n
    ensures KeyOf(Probe(m)) != KeyOf(Probe(n))
  {
    assert |KeyOf(Probe(m))| == m + 8 && |KeyOf(Probe(n))| == n + 8;
  }

  /** Without the chat permission every guard answer ends in a denial. */
  lemma NoPermissionDenied(e: Envelope)
    requires "llm:chat" !in e.permissions
    ensures Decide(DefaultBundle(), e).action == Deny
  {
    var e' := e.(classification := Some(Classify(e)));
    assert Matches(StrictRules()[0], e');
    EarlyMatchDenies(e', 0);
  }

  // ----- one request

  ghost predicate KeyUnused(g: Gateway, n: nat) {
    KeyOf(Probe(n)) !in g.limiter.hits && KeyOf(Probe(n)) !in g.limiter.cooldown
  }

  /** Numbers and keys from n on are unused, and the session may still be admitted. */
  ghost predicate Ready(g: Gateway, n: nat) {
    && g.now >= 0.0
    && (forall id | id in g.flights :: id < n)
    && (forall m: nat | n <= m :: KeyUnused(g, m))
  }

  ghost predicate Configured(cfg: Config) {
    cfg.bundle == DefaultBundle() && cfg.limit.maxRequests >= 1
  }

  lemma ProbeAllowed(cfg: Config, g: Gateway, n: nat)
    requires Configured(cfg) && Ready(g, n) && AttemptsOf(g, SESSION) <= 2
    ensures VerdictOn(cfg, g, Probe(n)) == RateLimit.Allowed
  {
    assert KeyUnused(g, n);
    var c := LimiterCall(g, Probe(n));
    RateLimit.LimitInRange(cfg.limit.maxRequests, c.severity, c.attempts, c.multiplier);
  }

  lemma LimiterTouchesKey(cfg: Config, g: Gateway, n: nat, m: nat)
    requires KeyUnused(g, m) && m != n
    ensures KeyUnused(BeginStep(cfg, g, n, Probe(n)), m)
  {
    ProbeKeysDiffer(m, n);
  }

  /** Whoever waits in g to be denied still does in g'. */
  ghost predicate StillWaiting(cfg: Config, g: Gateway, g': Gateway) {
    forall id: nat | WillBeDenied(cfg, g, id, None, SESSION) :: WillBeDenied(cfg, g', id, None, SESSION)
  }

  /** From g to g', the m requests from n on have begun and wait. */
  ghost predicate Begun(cfg: Config, g: Gateway, g': Gateway, n: nat, m: nat) {
    && Ready(g', n + m) && AttemptsOf(g', SESSION) == AttemptsOf(g, SESSION)
        && (m > 0 || SESSION in g.sessions ==> SESSION in g'.sessions)
    && Awaiting(g', SESSION) == Awaiting(g, SESSION) + m
    && (forall i | n <= i < n + m :: WillBeDenied(cfg, g', i, None, SESSION))
    && StillWaiting(cfg, g, g')
  }

  lemma BeginProbe(cfg: Config, g: Gateway, n: nat)
    requires Configured(cfg) && Ready(g, n) && AttemptsOf(g, SESSION) <= 2
    ensures Begun(cfg, g, Step(cfg, g, Begin(n, Probe(n))), n, 1)
  {
    ProbeAllowed(cfg, g, n);
    var g1 := Step(cfg, g, Begin(n, Probe(n)));
    assert g1 == BeginStep(cfg, g, n, Probe(n));
    ProbeKeepsReady(cfg, g, n);
    ProbeWaits(cfg, g, n);
  }

  lemma ProbeKeepsReady(cfg: Config, g: Gateway, n: nat)
    requires Configured(cfg) && Ready(g, n)
    ensures Ready(BeginStep(cfg, g, n, Probe(n)), n + 1)
  {
    var g1 := BeginStep(cfg, g, n, Probe(n));
    forall m: nat | n + 1 <= m
      ensures KeyUnused(g1, m)
    {
      assert KeyUnused(g, m);
      LimiterTouchesKey(cfg, g, n, m);
    }
  }

  lemma ProbeWaits(cfg: Config, g: Gateway, n: nat)
    requires Configured(cfg) && Ready(g, n) && VerdictOn(cfg, g, Probe(n)) == RateLimit.Allowed
    ensures var g1 := BeginStep(cfg, g, n, Probe(n));
            && WillBeDenied(cfg, g1, n, None, SESSION) && Awaiting(g1, SESSION) == Awaiting(g, SESSION) + 1
            && AttemptsOf(g1, SESSION) == AttemptsOf(g, SESSION) && SESSION in g1.sessions && StillWaiting(cfg, g, g1)
  {
    var g1 := BeginStep(cfg, g, n, Probe(n));
    AddFlight(g.flights, n, g1.flights[n], SESSION);
    NoPermissionDenied(g1.flights[n].envelope.(guard := None));
  }

  lemma BegunMore(cfg: Config, g: Gateway, g1: Gateway, g2: Gateway, n: nat, m: nat)
    requires Begun(cfg, g, g1, n, 1) && Begun(cfg, g1, g2, n + 1, m)
    ensures Begun(cfg, g, g2, n, m + 1)
  {
    assert WillBeDenied(cfg, g1, n, None, SESSION);
  }

  // ----- several at once

  function Begins(n: nat, m: nat): seq<Event>
    decreases m
  {
    if m == 0 then [] else [Begin(n, Probe(n))] + Begins(n + 1, m - 1)
  }

  function Ids(n: nat, m: nat): (ids: seq<nat>)
    ensures |ids| == m && forall i | 0 <= i < m :: ids[i] == n + i
  {
    seq(m, i => n + i)
  }

  lemma RunFirst(cfg: Config, g: Gateway, e: Event, rest: seq<Event>, session: string, c: nat)
    ensures Run(cfg, g, [e] + rest) == Run(cfg, Step(cfg, g, e), rest)
    ensures Awaiting(g, session) <= c && AtMostWaiting(cfg, Step(cfg, g, e), rest, session, c)
            ==> AtMostWaiting(cfg, g, [e] + rest, session, c)
  {
    assert ([e] + rest)[1..] == rest;
  }

  lemma {:induction false} BeginMany(cfg: Config, g: Gateway, n: nat, m: nat, c: nat)
    requires Configured(cfg) && Ready(g, n) && AttemptsOf(g, SESSION) <= 2 && Awaiting(g, SESSION) + m <= c
    ensures AtMostWaiting(cfg, g, Begins(n, m), SESSION, c)
    ensures Begun(cfg, g, Run(cfg, g, Begins(n, m)), n, m)
    decreases m, 1
  {
    if m > 0 {
      var e, rest := Begin(n, Probe(n)), Begins(n + 1, m - 1);
      BeginProbe(cfg, g, n);
      BeginRest(cfg, g, Step(cfg, g, e), n, m, c);
      RunFirst(cfg, g, e, rest, SESSION, c);
    }
  }

  lemma {:induction false} BeginRest(cfg: Config, g: Gateway, g1: Gateway, n: nat, m: nat, c: nat)
    requires Configured(cfg) && AttemptsOf(g, SESSION) <= 2 && Awaiting(g, SESSION) + m <= c && m > 0
             && Begun(cfg, g, g1, n, 1)
    ensures AtMostWaiting(cfg, g1, Begins(n + 1, m - 1), SESSION, c)
    ensures Begun(cfg, g, Run(cfg, g1, Begins(n + 1, m - 1)), n, m)
    decreases m - 1, 2
  {
    BeginMany(cfg, g1, n + 1, m - 1, c);
    BegunMore(cfg, g, g1, Run(cfg, g1, Begins(n + 1, m - 1)), n, m - 1);
  }

  lemma DenialStep(cfg: Config, g: Gateway, id: nat, n: nat)
    requires WillBeDenied(cfg, g, id, None, SESSION) && Ready(g, n)
    ensures var g1 := Step(cfg, g, GuardAnswered(id, None));
            Ready(g1, n) && g1.flights == g.flights - {id} && Awaiting(g1, SESSION) == Awaiting(g, SESSION) - 1
  {
    DropFlight(g.flights, id, SESSION);
    var g1 := Step(cfg, g, GuardAnswered(id, None));
    forall m: nat | n <= m
      ensures KeyUnused(g1, m)
    {
      assert KeyUnused(g, m);
    }
  }

  /** Denying requests one after the other only lowers the number that wait. */
  lemma {:induction false} DenyMany(cfg: Config, g: Gateway, ids: seq<nat>, n: nat, c: nat)
    requires Ready(g, n) && Awaiting(g, SESSION) <= c
    requires forall i | 0 <= i < |ids| :: WillBeDenied(cfg, g, ids[i], None, SESSION)
    requires forall i, j | 0 <= i < j < |ids| :: ids[i] != ids[j]
    ensures AtMostWaiting(cfg, g, Answered(ids, None), SESSION, c)
    ensures var g1 := Run(cfg, g, Answered(ids, None));
            Ready(g1, n) && Awaiting(g1, SESSION) == Awaiting(g, SESSION) - |ids|
    decreases |ids|
  {
    if ids != [] {
      assert WillBeDenied(cfg, g, ids[0], None, SESSION);
      DenialStep(cfg, g, ids[0], n);
      var g1 := Step(cfg, g, GuardAnswered(ids[0], None));
      forall i | 0 <= i < |ids[1..]|
        ensures WillBeDenied(cfg, g1, ids[1..][i], None, SESSION)
      {
        assert WillBeDenied(cfg, g, ids[i + 1], None, SESSION) && ids[0] != ids[i + 1];
      }
      DenyMany(cfg, g1, ids[1..], n, c);
      assert Answered(ids, None)[1..] == Answered(ids[1..], None);
    }
  }

  lemma {:induction false} RunBoth(cfg: Config, g: Gateway, a: seq<Event>, b: seq<Event>, session: string, c: nat)
    requires AtMostWaiting(cfg, g, a, session, c) && AtMostWaiting(cfg, Run(cfg, g, a), b, session, c)
    ensures AtMostWaiting(cfg, g, a + b, session, c) && Run(cfg, g, a + b) == Run(cfg, Run(cfg, g, a), b)
    decreases |a|
  {
    if a == [] {
      assert a + b == b;
    } else {
      assert (a + b)[1..] == a[1..] + b;
      RunBoth(cfg, Step(cfg, g, a[0]), a[1..], b, session, c);
    }
  }

  /** m requests begin and wait together, and then all of them are denied. */
  function Wave(n: nat, m: nat): seq<Event> {
    Begins(n, m) + Answered(Ids(n, m), None)
  }

  lemma WaveCounts(cfg: Config, g: Gateway, n: nat, m: nat, c: nat)
    requires Configured(cfg) && Ready(g, n) && AttemptsOf(g, SESSION) <= 2 && Awaiting(g, SESSION) == 0 && 1 <= m <= c
    ensures AtMostWaiting(cfg, g, Wave(n, m), SESSION, c)
    ensures var g2 := Run(cfg, g, Wave(n, m));
            Ready(g2, n + m) && AttemptsOf(g2, SESSION) == AttemptsOf(g, SESSION) + m && Awaiting(g2, SESSION) == 0
  {
    var ids, g1 := Ids(n, m), Run(cfg, g, Begins(n, m));
    BeginMany(cfg, g, n, m, c);
    forall i | 0 <= i < |ids|
      ensures WillBeDenied(cfg, g1, ids[i], None, SESSION)
    {
    }
    DenyMany(cfg, g1, ids, n + m, c);
    DenialsAllCount(cfg, g1, ids, None, SESSION);
    RunBoth(cfg, g, Begins(n, m), Answered(ids, None), SESSION, c);
  }

  /** The bound of 2 + c is met: two requests are denied one after the other, and then c
      that were admitted together. */
  lemma BoundIsMet(cfg: Config, now: real, c: nat) returns (es: seq<Event>)
    requires Configured(cfg) && now >= 0.0 && c >= 1
    ensures AtMostWaiting(cfg, Start(now), es, SESSION, c)
    ensures AttemptsOf(Run(cfg, Start(now), es), SESSION) == 2 + c
  {
    var g0 := Start(now);
    assert AwaitingSet(g0.flights, SESSION) == {};
    WaveCounts(cfg, g0, 0, 1, c);
    var g1 := Run(cfg, g0, Wave(0, 1));
    WaveCounts(cfg, g1, 1, 1, c);
    var g2 := Run(cfg, g1, Wave(1, 1));
    WaveCounts(cfg, g2, 2, c, c);
    RunBoth(cfg, g1, Wave(1, 1), Wave(2, c), SESSION, c);
    RunBoth(cfg, g0, Wave(0, 1), Wave(1, 1) + Wave(2, c), SESSION, c);
    es := Wave(0, 1) + (Wave(1, 1) + Wave(2, c));
  }
}
