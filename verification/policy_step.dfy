/** SessionPolicyStep and the tool record of RetrievalAndPromptStep, run by the real
    objects, over a store or in memory: each stretch between awaits takes the objects from
    one state of the pipeline machine to the next, and a restart takes them to the
    restarted one. */
module PolicyStep {
  import opened Records
  import opened Policy
  import opened RiskEngine
  import opened SqliteStore
  import opened RateLimiterService
  import RateLimit
  import Sessions
  import Profiles
  import Pipeline
  import Tools
  import WriteThrough

  // ----- profiles in two levels

  type ProfileMap = map<Profiles.Pair, ProfileRecord>

  ghost predicate OwnProfiles(m: ProfileMap) {
    forall pair | pair in m :: Profiles.OwnerOf(m[pair]) == pair
  }

  /** The two levels show a map of profiles: with a store on the pairs in use, and without
      one as the cache itself. */
  ghost predicate ViewShows(v: Profiles.View, dom: iset<Profiles.Pair>, m: ProfileMap) {
    if v.persistent then WriteThrough.Represents(v, Profiles.RowName, dom, m) else v.cache == m
  }

  lemma ViewFinds(v: Profiles.View, dom: iset<Profiles.Pair>, m: ProfileMap, pair: Profiles.Pair)
    requires WriteThrough.InjectiveOn(Profiles.RowName, dom) && ViewShows(v, dom, m) && (v.persistent ==> pair in dom)
    ensures Profiles.Lookup(v, pair) == WriteThrough.Find(m, pair)
    ensures ViewShows(WriteThrough.Load(v, Profiles.RowName, pair), dom, m)
  {
    if v.persistent {
      WriteThrough.LoadRepresents(v, Profiles.RowName, dom, m, pair);
    } else if pair in v.cache {
      Profiles.CachedLoad(v, pair);
    }
  }

  /** Under keys in use everything cached, and the row, is the pair's own. */
  lemma ViewOwns(v: Profiles.View, dom: iset<Profiles.Pair>, m: ProfileMap, pair: Profiles.Pair)
    requires ViewShows(v, dom, m) && OwnProfiles(m) && (v.persistent ==> pair in dom)
    ensures forall k | k in v.cache :: Profiles.OwnerOf(v.cache[k]) == k
    ensures v.persistent && Profiles.RowName(pair) in v.docs
            ==> Profiles.OwnerOf(v.docs[Profiles.RowName(pair)]) == pair
  {
  }

  /** The profiles that an eviction leaves to be found. */
  function Left(m: ProfileMap, persistent: bool, evicted: set<Profiles.Pair>): ProfileMap {
    if persistent then m else m - evicted
  }

  /** Recording a refusal after an eviction, on the map that the view shows. */
  lemma RefusalShows(v: Profiles.View, dom: iset<Profiles.Pair>, m: ProfileMap, pair: Profiles.Pair, codes: seq<string>,
                     now: real, evicted: set<Profiles.Pair>)
    requires WriteThrough.InjectiveOn(Profiles.RowName, dom) && ViewShows(v, dom, m) && (v.persistent ==> pair in dom)
    requires pair in m ==> evicted == {}
    ensures var refuse := Profiles.Refuse(pair, codes, now);
            var left := Left(m, v.persistent, evicted);
            ViewShows(WriteThrough.Access(WriteThrough.Forget(v, evicted), Profiles.RowName, pair, refuse), dom,
                      left[pair := Pipeline.ProfileWith(left, pair, codes, now)])
  {
    ViewFinds(v, dom, m, pair);
    if v.persistent {
      WriteThrough.ForgetRepresents(v, Profiles.RowName, dom, m, evicted);
      WriteThrough.AccessRepresents(WriteThrough.Forget(v, evicted), Profiles.RowName, dom, m, pair,
                                    Profiles.Refuse(pair, codes, now));
    } else {
      Profiles.AccessIs(v, pair, evicted, Profiles.Refuse(pair, codes, now));
    }
  }

  lemma RefusalKeepsOwners(m: ProfileMap, pair: Profiles.Pair, codes: seq<string>, now: real)
    requires OwnProfiles(m)
    ensures OwnProfiles(m[pair := Pipeline.ProfileWith(m, pair, codes, now)])
  {
    var p := if pair in m then m[pair] else Profiles.NewProfile(pair.0, pair.1, now);
    Profiles.CodesAdd(p.(refusals := p.refusals + 1, lastSeen := now), codes);
  }

  // ----- the store

  lemma OverwrittenOnce<K, V>(m: map<K, V>, k: K, first: V, second: V)
    ensures m[k := first][k := second] == m[k := second]
  {
  }

  /** What the store holds, as the machine's maps, for the pairs in use. */
  ghost predicate StoreHolds(store: StateStore, g: Pipeline.Gateway, dom: iset<Profiles.Pair>)
    reads store
  {
    && store.sessionDocs == g.sessions
    && (forall id | id in g.sessions :: g.sessions[id].id == id)
    && WriteThrough.Represents(WriteThrough.TwoLevel(map[], store.profileDocs, true), Profiles.RowName, dom, g.profiles)
    && OwnProfiles(g.profiles) && Profiles.SoundDocs(store.profileDocs)
    && RateLimit.SqlMatches(RateLimit.Tables(store.rows, store.cooldowns), g.limiter)
  }

  /** `dom` is the set of pairs in use; no two of them share a profile row. */
  class PolicyServices {
    const cfg: Pipeline.Config
    const store: StateStore?
    const sessions: Sessions.SessionManager
    const limiter: RateLimiter
    const profiler: Profiles.AttackerProfiler
    ghost const dom: iset<Profiles.Pair>

    ghost function Stores(): set<StateStore> {
      if store == null then {} else {store}
    }

    ghost predicate Wired() {
      && cfg.persistent == (store != null)
      && sessions.store == store && limiter.store == store && profiler.store == store
      && limiter.cfg == cfg.limit && profiler.maxProfiles >= 1
      && WriteThrough.InjectiveOn(Profiles.RowName, dom)
    }

    ghost predicate InUse(pair: Profiles.Pair) {
      cfg.persistent ==> pair in dom
    }

    ghost predicate SessionsShow(m: map<string, SessionRecord>)
      reads sessions, sessions.Stores()`sessionDocs
    {
      sessions.Valid() && Sessions.ShowsMap(sessions.View(), m)
    }

    ghost predicate ProfilesShow(m: ProfileMap)
      reads profiler, profiler.Objects(), profiler.Stores()`profileDocs
    {
      profiler.Valid() && ViewShows(profiler.View(), dom, m) && OwnProfiles(m)
    }

    ghost predicate LimiterShows(l: RateLimit.Limiter, now: real)
      reads limiter, Stores()`rows, Stores()`cooldowns
    {
      if store != null then RateLimit.SqlMatches(RateLimit.Tables(store.rows, store.cooldowns), l)
      else limiter.MemView() == l && RateLimit.Orderly(l.hits, now)
    }

    /** The objects and the store, if any, show the shared state of g. */
    ghost predicate Shows(g: Pipeline.Gateway)
      reads sessions, sessions.Stores()`sessionDocs, profiler, profiler.Objects(), profiler.Stores()`profileDocs,
            limiter, Stores()`rows, Stores()`cooldowns
    {
      Wired() && SessionsShow(g.sessions) && ProfilesShow(g.profiles) && LimiterShows(g.limiter, g.now)
    }

    /** A process start, over an existing store or in memory: the new objects show the
        restarted machine, so nothing that a store holds is lost. */
    constructor (cfg: Pipeline.Config, store: StateStore?, maxProfiles: nat, ghost g: Pipeline.Gateway,
                 ghost dom: iset<Profiles.Pair>)
      requires cfg.persistent == (store != null) && maxProfiles >= 1
      requires WriteThrough.InjectiveOn(Profiles.RowName, dom) && (store != null ==> StoreHolds(store, g, dom))
      ensures this.cfg == cfg && this.store == store && this.dom == dom
      ensures fresh(sessions) && fresh(limiter) && fresh(profiler) && profiler.Objects() == {}
      ensures Shows(Pipeline.RestartStep(cfg, g))
    {
      this.cfg, this.store, this.dom := cfg, store, dom;
      sessions := new Sessions.SessionManager(store);
      limiter := new RateLimiter(cfg.limit, store);
      profiler := new Profiles.AttackerProfiler(store, maxProfiles);
    }

    /** With a store, nothing recorded lives only in the objects. */
    lemma ShownIsStored(g: Pipeline.Gateway)
      requires Shows(g) && store != null
      ensures StoreHolds(store, g, dom)
    {
    }

    /** Time may pass while nothing happens. */
    lemma TickShows(g: Pipeline.Gateway, now: real)
      requires Shows(g)
      ensures Shows(Pipeline.Step(cfg, g, Pipeline.Tick(now)))
    {
    }

    // ----- one call on one object

    method FindOrCreate(req: Pipeline.Request, now: real, ghost m: map<string, SessionRecord>)
      returns (r: SessionRecord)
      requires Wired() && SessionsShow(m)
      requires req.sessionId != "" || req.freshId !in m
      modifies sessions, Stores()`sessionDocs
      ensures r == Pipeline.SessionFor(m, req, now) && r.id == Pipeline.SessionOf(req)
      ensures SessionsShow(m[r.id := r])
      ensures profiler.View() == old(profiler.View())
    {
      ghost var id := Pipeline.SessionOf(req);
      ghost var update := Sessions.OrNew(id, req.subject, req.tenant, now);
      ghost var v := sessions.View();
      Sessions.AccessShows(v, m, id, update);
      assert WriteThrough.Put(m, id, update) == m[id := Pipeline.SessionFor(m, req, now)];
      r := sessions.GetOrCreate(req.sessionId, req.freshId, req.subject, req.tenant, now);
      assert sessions.View() == Sessions.Access(v, id, update);
    }

    method CountRequest(s: SessionRecord, req: Pipeline.Request, now: real, ghost m: map<string, SessionRecord>)
      returns (r: SessionRecord)
      requires Wired() && SessionsShow(m) && s.id in m && m[s.id] == s
      modifies sessions, Stores()`sessionDocs
      ensures r == Sessions.Counted(s, req.messages, req.attachments, now)
      ensures SessionsShow(m[s.id := r])
      ensures profiler.View() == old(profiler.View())
    {
      r := sessions.UpdateFromRequest(s, req.messages, req.attachments, now);
    }

    method Attempts(id: string, ghost m: map<string, SessionRecord>) returns (n: nat)
      requires Wired() && SessionsShow(m)
      modifies sessions
      ensures SessionsShow(m) && n == if id in m then m[id].attempts else 0
      ensures profiler.View() == old(profiler.View())
    {
      Sessions.AccessShows(sessions.View(), m, id, Sessions.Nothing);
      n := sessions.GetInjectionAttemptCount(id);
    }

    method AppendRisk(id: string, risk: Risk, ghost m: map<string, SessionRecord>)
      requires Wired() && SessionsShow(m) && id in m
      modifies sessions, Stores()`sessionDocs
      ensures SessionsShow(m[id := Sessions.WithRisk(m[id], risk.score, risk.state)])
      ensures profiler.View() == old(profiler.View())
    {
      Sessions.AccessShows(sessions.View(), m, id,
                           Sessions.Existing(r => Sessions.WithRisk(r, risk.score, risk.state)));
      sessions.AppendRiskScore(id, risk.score, risk.state);
    }

    method Refuse(id: string, ghost m: map<string, SessionRecord>)
      requires Wired() && SessionsShow(m) && id in m
      modifies sessions, Stores()`sessionDocs
      ensures SessionsShow(m[id := Sessions.Refused(m[id])])
      ensures profiler.View() == old(profiler.View())
    {
      Sessions.AccessShows(sessions.View(), m, id, Sessions.Existing(r => Sessions.Refused(r)));
      sessions.RecordRefusal(id);
    }

    method RecordAttempt(id: string, score: int, ghost m: map<string, SessionRecord>)
      requires Wired() && SessionsShow(m) && id in m
      modifies sessions, Stores()`sessionDocs
      ensures SessionsShow(m[id := Sessions.Attempted(m[id], score)])
      ensures profiler.View() == old(profiler.View())
    {
      Sessions.AccessShows(sessions.View(), m, id, Sessions.Existing(r => Sessions.Attempted(r, score)));
      sessions.RecordInjectionAttempt(id, score);
    }

    method RecordToolUse(id: string, ghost m: map<string, SessionRecord>)
      requires Wired() && SessionsShow(m) && id in m
      modifies sessions, Stores()`sessionDocs
      ensures SessionsShow(m[id := Sessions.ToolUsed(m[id])])
      ensures profiler.View() == old(profiler.View())
    {
      Sessions.AccessShows(sessions.View(), m, id, Sessions.Existing(r => Sessions.ToolUsed(r)));
      sessions.RecordToolRequest(id);
    }

    method Pressure(pair: Profiles.Pair, ghost m: ProfileMap) returns (x: real)
      requires Wired() && ProfilesShow(m) && InUse(pair)
      modifies profiler`profiles
      ensures ProfilesShow(m) && x == Profiles.Multiplier(WriteThrough.Find(m, pair))
    {
      ViewFinds(profiler.View(), dom, m, pair);
      x := profiler.GetAdaptiveRateLimitMultiplier(pair);
    }

    lemma OwnsRow(pair: Profiles.Pair, m: ProfileMap)
      requires Wired() && ProfilesShow(m) && InUse(pair)
      ensures profiler.Sharing(pair) <= {pair}
      ensures Profiles.Lookup(profiler.View(), pair).Some?
              ==> Profiles.OwnerOf(Profiles.Lookup(profiler.View(), pair).value) == pair
    {
      ViewOwns(profiler.View(), dom, m, pair);
      assert forall k | k in profiler.profiles :: profiler.Cache()[k] == profiler.profiles[k].ToDict();
      profiler.OwnedIsUnshared(pair);
    }

    /** The profiler's refusal, for a pair that has its profile to itself. */
    method RefuseOwn(pair: Profiles.Pair, codes: seq<string>, now: real) returns (ghost evicted: set<Profiles.Pair>)
      requires Wired() && profiler.Valid() && profiler.Sharing(pair) <= {pair}
      requires Profiles.Lookup(profiler.View(), pair).Some?
               ==> Profiles.OwnerOf(Profiles.Lookup(profiler.View(), pair).value) == pair
      modifies profiler`profiles, profiler.Objects(), Stores()`profileDocs
      ensures profiler.Valid() && (Profiles.Lookup(old(profiler.View()), pair).Some? ==> evicted == {})
      ensures profiler.View() == WriteThrough.Access(WriteThrough.Forget(old(profiler.View()), evicted),
                                                     Profiles.RowName, pair,
                                                     Profiles.Refuse(pair, codes, now))
    {
      ghost var v, sharing := profiler.View(), profiler.Sharing(pair);
      ghost var reached;
      evicted, reached := profiler.RecordRefusal(pair, codes, now);
      Profiles.OwnRefusal(v, pair, evicted, sharing, codes, now);
    }

    /** A refusal on the profile; in memory a full cache may lose another one first. */
    method Profile(pair: Profiles.Pair, codes: seq<string>, now: real, ghost m: ProfileMap)
      returns (ghost evicted: set<Profiles.Pair>)
      requires Wired() && ProfilesShow(m) && InUse(pair)
      modifies profiler`profiles, profiler.Objects(), Stores()`profileDocs
      ensures var left := Left(m, cfg.persistent, evicted);
              ProfilesShow(left[pair := Pipeline.ProfileWith(left, pair, codes, now)])
      ensures sessions.View() == old(sessions.View()) && sessions.Valid() == old(sessions.Valid())
    {
      ghost var v := profiler.View();
      OwnsRow(pair, m);
      ViewFinds(v, dom, m, pair);
      evicted := RefuseOwn(pair, codes, now);
      RefusalShows(v, dom, m, pair, codes, now, evicted);
      RefusalKeepsOwners(Left(m, cfg.persistent, evicted), pair, codes, now);
    }

    method JudgeStored(c: RateLimit.Call, ghost l: RateLimit.Limiter) returns (verdict: RateLimit.Verdict)
      requires Wired() && store != null && RateLimit.SqlMatches(limiter.SqlView(), l)
      modifies limiter, Stores()`rows, Stores()`cooldowns
      ensures RateLimit.SqlMatches(limiter.SqlView(), RateLimit.Allow(cfg.limit, l, c).0)
      ensures verdict == RateLimit.Allow(cfg.limit, l, c).1
    {
      RateLimit.SqlStep(cfg.limit, limiter.SqlView(), l, c);
      verdict := limiter.Allow(c);
    }

    method JudgeInMemory(c: RateLimit.Call, ghost l: RateLimit.Limiter) returns (verdict: RateLimit.Verdict)
      requires Wired() && store == null && limiter.MemView() == l && RateLimit.Orderly(l.hits, c.now)
      modifies limiter
      ensures limiter.MemView() == RateLimit.Allow(cfg.limit, l, c).0 && RateLimit.Orderly(limiter.hits, c.now)
      ensures verdict == RateLimit.Allow(cfg.limit, l, c).1
    {
      RateLimit.MemStep(cfg.limit, l, c.now, c);
      verdict := limiter.Allow(c);
    }

    method Judge(c: RateLimit.Call, ghost l: RateLimit.Limiter) returns (verdict: RateLimit.Verdict)
      requires Wired() && LimiterShows(l, c.now)
      modifies limiter, Stores()`rows, Stores()`cooldowns
      ensures LimiterShows(RateLimit.Allow(cfg.limit, l, c).0, c.now)
      ensures verdict == RateLimit.Allow(cfg.limit, l, c).1
      ensures profiler.View() == old(profiler.View())
    {
      if store != null {
        verdict := JudgeStored(c, l);
      } else {
        verdict := JudgeInMemory(c, l);
      }
    }

    // ----- the stretches between awaits

    method Arrive(req: Pipeline.Request, now: real, ghost m: map<string, SessionRecord>) returns (r: SessionRecord)
      requires Wired() && SessionsShow(m)
      requires req.sessionId != "" || req.freshId !in m
      modifies sessions, Stores()`sessionDocs
      ensures r == Sessions.Counted(Pipeline.SessionFor(m, req, now), req.messages, req.attachments, now)
      ensures r.id == Pipeline.SessionOf(req) && SessionsShow(m[r.id := r])
      ensures profiler.View() == old(profiler.View())
    {
      var s := FindOrCreate(req, now, m);
      r := CountRequest(s, req, now, m[s.id := s]);
      OverwrittenOnce(m, s.id, s, r);
    }

    /** The attempt count, the multiplier and the limiter's verdict on them. */
    method CheckLimit(req: Pipeline.Request, now: real, id: string, ghost m: map<string, SessionRecord>,
                      ghost profiles: ProfileMap, ghost l: RateLimit.Limiter, ghost c: RateLimit.Call)
      returns (verdict: RateLimit.Verdict)
      requires Wired() && SessionsShow(m) && ProfilesShow(profiles) && LimiterShows(l, now) && id in m
      requires InUse((req.client, req.subject))
      requires c == RateLimit.Call(Pipeline.KeyOf(req), now, req.scan.score, m[id].attempts,
                                   Profiles.Multiplier(WriteThrough.Find(profiles, (req.client, req.subject))))
      modifies sessions, limiter, profiler`profiles, Stores()`rows, Stores()`cooldowns
      ensures SessionsShow(m) && ProfilesShow(profiles) && LimiterShows(RateLimit.Allow(cfg.limit, l, c).0, now)
      ensures verdict == RateLimit.Allow(cfg.limit, l, c).1
    {
      var attempts := Attempts(id, m);
      var multiplier := Pressure((req.client, req.subject), profiles);
      verdict := Judge(RateLimit.Call(req.client + ":" + req.subject, now, req.scan.score, attempts, multiplier), l);
    }

    /** The risk of a session that has arrived, appended to its history. */
    method AssessAndAppend(r: SessionRecord, req: Pipeline.Request, ghost m: map<string, SessionRecord>)
      returns (risk: Risk)
      requires Wired() && SessionsShow(m[r.id := r])
      modifies sessions, Stores()`sessionDocs
      ensures risk == Assess(r, Some(req.scan), req.facts)
      ensures SessionsShow(m[r.id := Sessions.WithRisk(r, risk.score, risk.state)])
      ensures profiler.View() == old(profiler.View())
    {
      var reasons;
      risk, reasons := AssessSession(r, Some(req.scan), req.facts);
      AppendRisk(r.id, risk, m[r.id := r]);
      OverwrittenOnce(m, r.id, r, Sessions.WithRisk(r, risk.score, risk.state));
    }

    /** The limiter's verdict on an arrived session and, if it admits, the risk. */
    method LimitAndAssess(r: SessionRecord, req: Pipeline.Request, now: real, ghost m: map<string, SessionRecord>,
                          ghost profiles: ProfileMap, ghost l: RateLimit.Limiter, ghost c: RateLimit.Call)
      returns (verdict: RateLimit.Verdict, risk: Option<Risk>)
      requires Wired() && SessionsShow(m[r.id := r]) && ProfilesShow(profiles) && LimiterShows(l, now)
      requires InUse((req.client, req.subject))
      requires c == RateLimit.Call(Pipeline.KeyOf(req), now, req.scan.score, r.attempts,
                                   Profiles.Multiplier(WriteThrough.Find(profiles, (req.client, req.subject))))
      modifies sessions, limiter, profiler`profiles, Stores()
      ensures ProfilesShow(profiles) && LimiterShows(RateLimit.Allow(cfg.limit, l, c).0, now)
      ensures verdict == RateLimit.Allow(cfg.limit, l, c).1
      ensures var a := Assess(r, Some(req.scan), req.facts);
              && risk == (if verdict.Allowed? then Some(a) else None)
              && SessionsShow(m[r.id := if verdict.Allowed? then Sessions.WithRisk(r, a.score, a.state) else r])
    {
      verdict := CheckLimit(req, now, r.id, m[r.id := r], profiles, l, c);
      risk := None;
      if verdict == RateLimit.Allowed {
        var assessed := AssessAndAppend(r, req, m);
        risk := Some(assessed);
      }
    }

    /** Up to the call of the guard: the session is counted before its attempts are
        read, and the risk is assessed only for what the limiter admits. */
    method UntilGuard(req: Pipeline.Request, now: real, ghost g: Pipeline.Gateway, ghost flight: nat)
      returns (verdict: RateLimit.Verdict, risk: Option<Risk>)
      requires Shows(g) && now == g.now && Pipeline.MayBegin(g, flight, req)
      requires InUse((req.client, req.subject))
      modifies sessions, limiter, profiler`profiles, Stores()
      ensures Shows(Pipeline.BeginStep(cfg, g, flight, req))
      ensures verdict == Pipeline.VerdictOn(cfg, g, req)
      ensures risk == if verdict.Allowed? then Some(Pipeline.RiskOn(g, req)) else None
    {
      Pipeline.BeginParts(cfg, g, flight, req);
      var r := Arrive(req, now, g.sessions);
      verdict, risk := LimitAndAssess(r, req, now, g.sessions, g.profiles, g.limiter, Pipeline.LimiterCall(g, req));
    }

    method RefuseAndCount(id: string, score: int, ghost m: map<string, SessionRecord>)
      requires Wired() && SessionsShow(m) && id in m
      modifies sessions, Stores()`sessionDocs
      ensures SessionsShow(m[id := Sessions.Attempted(Sessions.Refused(m[id]), score)])
      ensures profiler.View() == old(profiler.View())
    {
      ghost var refused := Sessions.Refused(m[id]);
      Refuse(id, m);
      RecordAttempt(id, score, m[id := refused]);
      OverwrittenOnce(m, id, refused, Sessions.Attempted(refused, score));
    }

    /** An eviction takes nothing but profiles, and an empty one nothing. */
    lemma EvictionParts(g: Pipeline.Gateway, evicted: set<Profiles.Pair>)
      ensures var g1 := Pipeline.Step(cfg, g, Pipeline.EvictProfiles(evicted));
              && g1 == g.(profiles := Left(g.profiles, cfg.persistent, evicted))
              && (evicted == {} ==> g1 == g)
    {
      Profiles.WithoutNone(g.profiles);
    }

    /** States that differ in their flights only are shown alike. */
    lemma FlightsUnseen(g: Pipeline.Gateway, g': Pipeline.Gateway)
      requires Shows(g) && g' == g.(flights := g'.flights)
      ensures Shows(g')
    {
    }

    /** A refusal on the session and on the profile. */
    method RecordRefusals(id: string, pair: Profiles.Pair, score: int, codes: seq<string>, now: real,
                          ghost g: Pipeline.Gateway)
      returns (ghost evicted: set<Profiles.Pair>)
      requires Shows(g) && id in g.sessions && InUse(pair)
      modifies sessions, profiler`profiles, profiler.Objects(), Stores()
      ensures var left := Left(g.profiles, cfg.persistent, evicted);
              Shows(g.(sessions := g.sessions[id := Sessions.Attempted(Sessions.Refused(g.sessions[id]), score)],
                       profiles := left[pair := Pipeline.ProfileWith(left, pair, codes, now)]))
    {
      RefuseAndCount(id, score, g.sessions);
      assert ProfilesShow(g.profiles) && LimiterShows(g.limiter, g.now);
      evicted := Profile(pair, codes, now, g.profiles);
      assert LimiterShows(g.limiter, g.now);
    }

    method RecordDenial(f: Pipeline.Flight, d: Decision, score: int, now: real, ghost g: Pipeline.Gateway,
                        ghost flight: nat)
      returns (ghost evicted: set<Profiles.Pair>)
      requires Shows(g) && now == g.now && f.session in g.sessions && InUse((f.client, f.subject))
      modifies sessions, profiler`profiles, profiler.Objects(), Stores()
      ensures Shows(Pipeline.DenyStep(Pipeline.Step(cfg, g, Pipeline.EvictProfiles(evicted)), flight, f, d, score))
    {
      evicted := RecordRefusals(f.session, (f.client, f.subject), score, Pipeline.CodeTexts(d.reasons), now, g);
      EvictionParts(g, evicted);
      ghost var denied := Pipeline.DenyStep(Pipeline.Step(cfg, g, Pipeline.EvictProfiles(evicted)), flight, f, d,
                                            score);
      FlightsUnseen(denied.(flights := g.flights), denied);
    }

    method ClassifyAndEvaluate(e: Envelope) returns (decision: Decision)
      ensures decision == Decide(cfg.bundle, e)
    {
      decision := EvaluateBundle(cfg.bundle, e.(classification := Some(Classify(e))));
    }

    lemma UndeniedShows(g: Pipeline.Gateway, flight: nat, f: Pipeline.Flight, guard: Option<Guard>)
      requires Shows(g) && Decide(cfg.bundle, f.envelope.(guard := guard)).action != Deny
      ensures Shows(Pipeline.GuardStep(cfg, Pipeline.Step(cfg, g, Pipeline.EvictProfiles({})), flight, f, guard))
    {
      Pipeline.GuardParts(cfg, g, flight, f, guard);
      EvictionParts(g, {});
      FlightsUnseen(g, Pipeline.GuardStep(cfg, g, flight, f, guard));
    }

    /** From the guard's answer to the next await: classify, evaluate and, on a denial,
        record the refusal, the attempt and the profile. */
    method AfterGuard(f: Pipeline.Flight, guard: Option<Guard>, now: real, ghost g: Pipeline.Gateway, ghost flight: nat)
      returns (decision: Decision, ghost evicted: set<Profiles.Pair>)
      requires Shows(g) && now == g.now && f.session in g.sessions && InUse((f.client, f.subject))
      modifies sessions, profiler`profiles, profiler.Objects(), Stores()
      ensures decision == Decide(cfg.bundle, f.envelope.(guard := guard))
      ensures Shows(Pipeline.GuardStep(cfg, Pipeline.Step(cfg, g, Pipeline.EvictProfiles(evicted)), flight, f, guard))
    {
      decision := ClassifyAndEvaluate(f.envelope.(guard := guard));
      evicted := {};
      if decision.action == Deny {
        evicted := RecordDenial(f, decision, ScanScore(f.envelope), now, g, flight);
        Pipeline.GuardParts(cfg, Pipeline.Step(cfg, g, Pipeline.EvictProfiles(evicted)), flight, f, guard);
      } else {
        UndeniedShows(g, flight, f, guard);
      }
    }

    method RequestTools(items: seq<Tools.Item>, c: Tools.ToolContext) returns (records: Option<seq<Tools.ToolRecord>>)
      ensures records == Tools.RunTools(items, c)
    {
      var decisions := Tools.EvaluateRequestedTools(items, c);
      if decisions.None? {
        return None;
      }
      records := Tools.ExecuteAllowedTools(items, decisions.value, c.matchers.output);
    }

    method RecordToolsUsed(id: string, used: bool, ghost g: Pipeline.Gateway)
      requires Shows(g) && id in g.sessions
      modifies sessions, Stores()`sessionDocs
      ensures Shows(g.(sessions := if used then g.sessions[id := Sessions.ToolUsed(g.sessions[id])] else g.sessions))
    {
      if used {
        RecordToolUse(id, g.sessions);
      }
    }

    /** The tool record, once the tools have run. */
    method AfterTools(f: Pipeline.Flight, items: seq<Tools.Item>, ghost g: Pipeline.Gateway, ghost flight: nat)
      returns (records: Option<seq<Tools.ToolRecord>>)
      requires Shows(g) && f.session in g.sessions && f.phase.Proceeding?
      modifies sessions, Stores()`sessionDocs
      ensures records == Tools.RunTools(items, Pipeline.ToolContextOf(cfg, f))
      ensures Shows(Pipeline.ToolsStep(cfg, g, flight, f, items))
    {
      records := RequestTools(items, Pipeline.ToolContextOf(cfg, f));
      RecordToolsUsed(f.session, Pipeline.AnyAllowed(records), g);
      ghost var done := Pipeline.ToolsStep(cfg, g, flight, f, items);
      FlightsUnseen(done.(flights := g.flights), done);
    }
  }
}
