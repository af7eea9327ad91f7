/** The pressure is real: a run of the gateway after which a client's limit is strictly lower
    than it was at the start. */
module PressureRun {
  import opened Records
  import opened Policy
  import opened Pipeline
  import opened RiskEngine
  import DefaultPolicy
  import Pressure
  import Profiles
  import RateLimit
  import Window

  const PAIR: Profiles.Pair := ("client", "subject")

  const KEY := "client:subject"

  /** The n-th request: a jailbreak that the scan has seen, each in a session of its own. */
  function Jailbreak(n: nat): Request {
    Request(seq(n + 1, i => 's'), "", "client", "subject", None, 0, 0, {"llm:chat"}, false, Facts(false, false, false),
            Scan(0, {JailbreakSeen}), Dlp(0, {}))
  }

  lemma KeyOfAll(n: nat)
    ensures KeyOf(Jailbreak(n)) == KEY
  {
  }

  /** Between the requests: n of them have been denied. */
  ghost predicate Calm(g: Gateway, n: nat) {
    && g.now >= 0.0 && g.flights == map[] && KEY !in g.limiter.cooldown
    && |RateLimit.HitsOf(g.limiter.hits, KEY)| <= n
    && (forall id | id in g.sessions :: |id| <= n)
    && match Found(g, PAIR)
       case None => n == 0
       case Some(p) => p.jailbreaks == n && p.injections == n && p.escalations == 0
  }

  lemma {:induction false} SinceShorter(s: seq<real>, lo: real)
    ensures |Window.Since(s, lo)| <= |s|
  {
    if s != [] {
      SinceShorter(s[1..], lo);
    }
  }

  lemma JailbreakAdmitted(cfg: Config, g: Gateway, n: nat)
    requires cfg.limit.maxRequests >= 3 && Calm(g, n) && n < 3
    ensures MayBegin(g, n, Jailbreak(n)) && VerdictOn(cfg, g, Jailbreak(n)) == RateLimit.Allowed
    ensures var g1 := BeginStep(cfg, g, n, Jailbreak(n));
            KEY !in g1.limiter.cooldown && |RateLimit.HitsOf(g1.limiter.hits, KEY)| <= n + 1
  {
    KeyOfAll(n);
    var c := LimiterCall(g, Jailbreak(n));
    assert SessionOf(Jailbreak(n)) !in g.sessions;
    SinceShorter(RateLimit.HitsOf(g.limiter.hits, KEY), c.now - cfg.limit.window);
    assert RateLimit.EffectiveLimit(cfg.limit.maxRequests, c.severity, c.attempts, c.multiplier) >= 3;
  }

  lemma JailbreakDenied(e: Envelope)
    requires e.permissions == {"llm:chat"} && ScanLabels(e) == {JailbreakSeen} && DlpLabels(e) == {} && e.guard == None
    ensures Decide(DefaultBundle(), e).action == Deny
    ensures CodeTexts(Decide(DefaultBundle(), e).reasons) == ["JAILBREAK_ATTEMPT_DETECTED"]
  {
    DefaultPolicy.DeniedExactly(e);
    DefaultPolicy.CountedDenialsExactly(e);
    assert Decide(DefaultBundle(), e).reasons == [JailbreakAttemptDetected];
    assert [JailbreakAttemptDetected][1..] == [];
  }

  lemma JailbreakRecorded(p: ProfileRecord, now: real)
    ensures var q := Profiles.Recorded(p, ["JAILBREAK_ATTEMPT_DETECTED"], now);
            q.jailbreaks == p.jailbreaks + 1 && q.injections == p.injections + 1 && q.escalations == p.escalations
  {
    var code := "JAILBREAK_ATTEMPT_DETECTED";
    assert code == CodeText(JailbreakAttemptDetected);
    Pressure.CountedReasons(JailbreakAttemptDetected);
    Profiles.CodesAdd(p.(refusals := p.refusals + 1, lastSeen := now), [code]);
    assert [code][..0] == [];
    assert Profiles.CountOf(Profiles.Jailbreak, [code]) == 1 && Profiles.CountOf(Profiles.Injection, [code]) == 1;
    assert Profiles.CountOf(Profiles.Escalation, [code]) == 0;
  }

  function Round(n: nat): seq<Event> {
    [Begin(n, Jailbreak(n)), GuardAnswered(n, None)]
  }

  /** The n-th request waits for the guard, and n before it have been denied. */
  ghost predicate Waiting(g: Gateway, n: nat) {
    && n in g.flights && Calm(g.(flights := map[], sessions := map[], limiter := RateLimit.EMPTY), n)
    && KEY !in g.limiter.cooldown && |RateLimit.HitsOf(g.limiter.hits, KEY)| <= n + 1
    && (forall id | id in g.sessions :: |id| <= n + 1)
    && var f := g.flights[n];
    && g.flights == map[n := f] && f.phase.AwaitingGuard? && (f.client, f.subject) == PAIR
    && f.envelope.permissions == {"llm:chat"} && ScanLabels(f.envelope) == {JailbreakSeen}
    && DlpLabels(f.envelope) == {}
  }

  lemma BeginWaits(cfg: Config, g: Gateway, n: nat)
    requires cfg.limit.maxRequests >= 3 && Calm(g, n) && n < 3
    ensures Waiting(Step(cfg, g, Begin(n, Jailbreak(n))), n)
  {
    JailbreakAdmitted(cfg, g, n);
    var g1 := Step(cfg, g, Begin(n, Jailbreak(n)));
    assert g1 == BeginStep(cfg, g, n, Jailbreak(n));
    BeginParts(cfg, g, n, Jailbreak(n));
    assert g1.flights == map[n := g1.flights[n]];
    assert Found(g1, PAIR) == Found(g, PAIR);
  }

  lemma DenialKeeps(g: Gateway, n: nat, d: Decision, score: int)
    requires Waiting(g, n)
    ensures var g1 := DenyStep(g, n, g.flights[n], d, score);
            && g1.flights == map[] && g1.limiter == g.limiter && g1.now == g.now && g1.sessions.Keys == g.sessions.Keys
            && Found(g1, PAIR) == Some(ProfileWith(g.profiles, PAIR, CodeTexts(d.reasons), g.now))
  {
  }

  lemma DenialCounts(g: Gateway, n: nat)
    requires Waiting(g, n)
    ensures var p := ProfileWith(g.profiles, PAIR, ["JAILBREAK_ATTEMPT_DETECTED"], g.now);
            p.jailbreaks == n + 1 && p.injections == n + 1 && p.escalations == 0
  {
    JailbreakRecorded(if PAIR in g.profiles then g.profiles[PAIR] else Profiles.NewProfile(PAIR.0, PAIR.1, g.now),
                      g.now);
  }

  lemma DenialCalms(g: Gateway, n: nat, d: Decision, score: int)
    requires Waiting(g, n) && CodeTexts(d.reasons) == ["JAILBREAK_ATTEMPT_DETECTED"]
    ensures Calm(DenyStep(g, n, g.flights[n], d, score), n + 1)
  {
    DenialKeeps(g, n, d, score);
    DenialCounts(g, n);
    var g1 := DenyStep(g, n, g.flights[n], d, score);
    assert forall id | id in g1.sessions :: id in g.sessions;
  }

  lemma AnswerCalms(cfg: Config, g: Gateway, n: nat)
    requires cfg.bundle == DefaultBundle() && Waiting(g, n)
    ensures Calm(Step(cfg, g, GuardAnswered(n, None)), n + 1)
  {
    var f := g.flights[n];
    var d := Decide(DefaultBundle(), f.envelope.(guard := None));
    JailbreakDenied(f.envelope.(guard := None));
    DenialCalms(g, n, d, ScanScore(f.envelope));
    GuardParts(cfg, g, n, f, None);
    assert Step(cfg, g, GuardAnswered(n, None)) == DenyStep(g, n, f, d, ScanScore(f.envelope));
  }

  lemma RoundCalms(cfg: Config, g: Gateway, n: nat)
    requires cfg.bundle == DefaultBundle() && cfg.limit.maxRequests >= 3 && Calm(g, n) && n < 3
    ensures Calm(Run(cfg, g, Round(n)), n + 1)
  {
    var begin, answer := Begin(n, Jailbreak(n)), GuardAnswered(n, None);
    BeginWaits(cfg, g, n);
    AnswerCalms(cfg, Step(cfg, g, begin), n);
    assert Round(n)[1..] == [answer] && [answer][1..] == [];
    assert Run(cfg, Step(cfg, g, begin), [answer]) == Step(cfg, Step(cfg, g, begin), answer);
  }

  lemma {:induction false} RunTwice(cfg: Config, g: Gateway, a: seq<Event>, b: seq<Event>)
    ensures Run(cfg, g, a + b) == Run(cfg, Run(cfg, g, a), b)
    decreases |a|
  {
    if a == [] {
      assert a + b == b;
    } else {
      assert (a + b)[1..] == a[1..] + b;
      RunTwice(cfg, Step(cfg, g, a[0]), a[1..], b);
    }
  }

  lemma ThreeRounds(cfg: Config, now: real) returns (es: seq<Event>)
    requires cfg.bundle == DefaultBundle() && cfg.limit.maxRequests >= 3 && now >= 0.0
    ensures Calm(Run(cfg, Start(now), es), 3)
  {
    var g0 := Start(now);
    assert Calm(g0, 0);
    RoundCalms(cfg, g0, 0);
    es := Round(0);
    RoundCalms(cfg, Run(cfg, g0, es), 1);
    RunTwice(cfg, g0, es, Round(1));
    es := es + Round(1);
    RoundCalms(cfg, Run(cfg, g0, es), 2);
    RunTwice(cfg, g0, es, Round(2));
    es := es + Round(2);
  }

  /** Under the default bundle and any maximum of at least 3, three denied jailbreaks bring
      the client's multiplier from 1 to 5 and its limit strictly down, for a request of
      no severity in a session of its own. */
  lemma PressureBites(cfg: Config, now: real) returns (es: seq<Event>)
    requires cfg.bundle == DefaultBundle() && cfg.limit.maxRequests >= 3 && now >= 0.0
    ensures Profiles.Multiplier(Found(Start(now), PAIR)) == 1.0
    ensures Profiles.Multiplier(Found(Run(cfg, Start(now), es), PAIR)) == 5.0
    ensures RateLimit.EffectiveLimit(cfg.limit.maxRequests, 0, 0, 5.0)
            < RateLimit.EffectiveLimit(cfg.limit.maxRequests, 0, 0, 1.0)
  {
    es := ThreeRounds(cfg, now);
    RateLimit.LimitIsOneQuotient(cfg.limit.maxRequests, 0, 0, 1, 1, 1);
    RateLimit.LimitIsOneQuotient(cfg.limit.maxRequests, 0, 0, 5, 1, 1);
  }
}
