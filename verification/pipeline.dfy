/** The request pipeline of app/chat_pipeline.py as a state machine. Code between two
    awaits is one step; requests interleave only at the awaits. The shared state is the
    limiter, the sessions and the profiles; every request that is past the limiter and
    not yet finished is in flight. */
module Pipeline {
  import opened Records
  import opened Policy
  import opened RiskEngine
  import RateLimit
  import Window
  import Sessions
  import Profiles
  import Tools

  datatype Config = Config(
    limit: RateLimit.Config, bundle: Bundle, persistent: bool,
    registry: map<string, Tools.ToolDefinition>, matchers: Tools.Matchers)

  /** A normalised request with the results of its scanners. `freshId` is the identifier
      that would be generated for it if it names no session. */
  datatype Request = Request(
    sessionId: string, freshId: string, client: string, subject: string, tenant: Option<string>,
    messages: nat, attachments: nat, permissions: set<string>, stepUp: bool, facts: Facts, scan: Scan, dlp: Dlp)

  /** AwaitingGuard: between the limiter and the policy decision. Proceeding: decided,
      tools not yet run. */
  datatype Phase = AwaitingGuard | Proceeding(decision: Decision, classification: Classification)

  datatype Flight = Flight(session: string, client: string, subject: string, envelope: Envelope, phase: Phase)

  datatype Gateway = Gateway(
    now: real, limiter: RateLimit.Limiter, sessions: map<string, SessionRecord>,
    profiles: map<Profiles.Pair, ProfileRecord>, flights: map<nat, Flight>)

  datatype Event =
    | Tick(now: real)
    | Begin(id: nat, request: Request)
    | GuardAnswered(id: nat, guard: Option<Guard>)
    | ToolsRun(id: nat, items: seq<Tools.Item>)
    | Abandon(id: nat)
    | EvictProfiles(pairs: set<Profiles.Pair>)
    | Restart

  // ----- the first stretch: session, scan, limiter, risk

  function SessionOf(req: Request): string {
    if req.sessionId != "" then req.sessionId else req.freshId
  }

  function KeyOf(req: Request): string {
    req.client + ":" + req.subject
  }

  /** The session that a request joins or starts. */
  function SessionFor(sessions: map<string, SessionRecord>, req: Request, now: real): SessionRecord {
    var id := SessionOf(req);
    if id in sessions then Sessions.Touched(sessions[id], now)
    else Sessions.NewSession(id, req.subject, req.tenant, now)
  }

  /** The session record once the request has been counted. */
  function Arrived(g: Gateway, req: Request): SessionRecord {
    Sessions.Counted(SessionFor(g.sessions, req, g.now), req.messages, req.attachments, g.now)
  }

  function Found(g: Gateway, pair: Profiles.Pair): Option<ProfileRecord> {
    if pair in g.profiles then Some(g.profiles[pair]) else None
  }

  /** The call to the limiter that a request makes. */
  function LimiterCall(g: Gateway, req: Request): RateLimit.Call {
    RateLimit.Call(KeyOf(req), g.now, req.scan.score, Arrived(g, req).attempts,
                   Profiles.Multiplier(Found(g, (req.client, req.subject))))
  }

  function VerdictOn(cfg: Config, g: Gateway, req: Request): RateLimit.Verdict {
    RateLimit.Allow(cfg.limit, g.limiter, LimiterCall(g, req)).1
  }

  function RiskOn(g: Gateway, req: Request): Risk {
    Assess(Arrived(g, req), Some(req.scan), req.facts)
  }

  function Admit(g: Gateway, id: nat, req: Request): Gateway {
    var risk := RiskOn(g, req);
    var envelope := Envelope(req.permissions, req.stepUp, Some(req.scan), Some(req.dlp), Some(risk), None, None);
    g.(sessions := g.sessions[SessionOf(req) := Sessions.WithRisk(Arrived(g, req), risk.score, risk.state)],
       flights := g.flights[id := Flight(SessionOf(req), req.client, req.subject, envelope, AwaitingGuard)])
  }

  function Reject(g: Gateway, req: Request): Gateway {
    g.(sessions := g.sessions[SessionOf(req) := Arrived(g, req)])
  }

  /** A request may begin if its number is unused and a generated session id is new. */
  predicate MayBegin(g: Gateway, id: nat, req: Request) {
    id !in g.flights && (req.sessionId != "" || (req.freshId != "" && req.freshId !in g.sessions))
  }

  function BeginStep(cfg: Config, g: Gateway, id: nat, req: Request): Gateway {
    var (limiter, verdict) := RateLimit.Allow(cfg.limit, g.limiter, LimiterCall(g, req));
    var g1 := if verdict.Allowed? then Admit(g, id, req) else Reject(g, req);
    g1.(limiter := limiter)
  }

  lemma BeginParts(cfg: Config, g: Gateway, id: nat, req: Request)
    ensures var g', v := BeginStep(cfg, g, id, req), VerdictOn(cfg, g, req);
            && g'.profiles == g.profiles && g'.now == g.now
            && g'.limiter == RateLimit.Allow(cfg.limit, g.limiter, LimiterCall(g, req)).0
            && g'.sessions == g.sessions[SessionOf(req) :=
                 if v.Allowed? then Sessions.WithRisk(Arrived(g, req), RiskOn(g, req).score, RiskOn(g, req).state)
                 else Arrived(g, req)]
  {
  }

  // ----- the second stretch: classification, policy, refusal

  /** The strings of the reason codes, as recorded in the profile. */
  function CodeText(r: ReasonCode): string {
    match r
    case MissingPermissionLlmChat => "MISSING_PERMISSION_LLM_CHAT"
    case MetadataInjectionDetected => "METADATA_INJECTION_DETECTED"
    case SecretExfiltrationAttempt => "SECRET_EXFILTRATION_ATTEMPT"
    case PromptLeakageAttempt => "PROMPT_LEAKAGE_ATTEMPT"
    case PromptInjectionDetected => "PROMPT_INJECTION_DETECTED"
    case JailbreakAttemptDetected => "JAILBREAK_ATTEMPT_DETECTED"
    case ModerationBypassAttemptDetected => "MODERATION_BYPASS_ATTEMPT_DETECTED"
    case PromptInjectionWithObfuscation => "PROMPT_INJECTION_WITH_OBFUSCATION"
    case JailbreakWithObfuscation => "JAILBREAK_WITH_OBFUSCATION"
    case SecretExfiltrationHighConfidence => "SECRET_EXFILTRATION_HIGH_CONFIDENCE"
    case ExploitOrMalwareHighConfidence => "EXPLOIT_OR_MALWARE_HIGH_CONFIDENCE"
    case SensitiveDataHighDlpRisk => "SENSITIVE_DATA_HIGH_DLP_RISK"
    case HateContentRestrictedSession => "HATE_CONTENT_RESTRICTED_SESSION"
    case DiscriminatoryContentRestrictedSession => "DISCRIMINATORY_CONTENT_RESTRICTED_SESSION"
    case HateContentElevatedSession => "HATE_CONTENT_ELEVATED_SESSION"
    case DiscriminatoryContentElevatedSession => "DISCRIMINATORY_CONTENT_ELEVATED_SESSION"
    case SensitiveSubmissionRequiresStepUp => "SENSITIVE_SUBMISSION_REQUIRES_STEP_UP"
    case HighConfidenceSuspiciousInput => "HIGH_CONFIDENCE_SUSPICIOUS_INPUT"
    case HatefulContentDetected => "HATEFUL_CONTENT_DETECTED"
    case DiscriminatoryContentDetected => "DISCRIMINATORY_CONTENT_DETECTED"
    case InsultingContentDetected => "INSULTING_CONTENT_DETECTED"
    case SecretExfiltrationIntentDetected => "SECRET_EXFILTRATION_INTENT_DETECTED"
    case ExploitOrMalwareIntentDetected => "EXPLOIT_OR_MALWARE_INTENT"
    case DlpSecretDetected => "DLP_SECRET_DETECTED"
    case SensitiveDataSubmitted => "SENSITIVE_DATA_SUBMISSION"
    case DlpHighRiskContent => "DLP_HIGH_RISK_CONTENT"
    case SessionRiskBlocked => "SESSION_RISK_BLOCKED"
    case RestrictedRiskMode => "RESTRICTED_RISK_MODE"
    case ElevatedRiskMode => "ELEVATED_RISK_MODE"
    case NoStepUpAuth => "NO_STEP_UP_AUTH"
    case AllowDefault => "ALLOW_DEFAULT"
    case OtherReason(text) => text
  }

  function CodeTexts(rs: seq<ReasonCode>): seq<string> {
    if rs == [] then [] else [CodeText(rs[0])] + CodeTexts(rs[1..])
  }

  function ProfileWith(profiles: map<Profiles.Pair, ProfileRecord>, pair: Profiles.Pair, codes: seq<string>,
                       now: real): ProfileRecord {
    Profiles.Recorded(if pair in profiles then profiles[pair] else Profiles.NewProfile(pair.0, pair.1, now), codes, now)
  }

  /** A denial: refusal and attempt on the session, codes on the profile. */
  function DenyStep(g: Gateway, id: nat, f: Flight, d: Decision, score: int): Gateway {
    var sessions :=
      if f.session in g.sessions
      then g.sessions[f.session := Sessions.Attempted(Sessions.Refused(g.sessions[f.session]), score)]
      else g.sessions;
    var pair := (f.client, f.subject);
    g.(sessions := sessions,
       profiles := g.profiles[pair := ProfileWith(g.profiles, pair, CodeTexts(d.reasons), g.now)],
       flights := g.flights - {id})
  }

  function GuardStep(cfg: Config, g: Gateway, id: nat, f: Flight, guard: Option<Guard>): Gateway {
    var e := f.envelope.(guard := guard);
    var d := Decide(cfg.bundle, e);
    match d.action
    case Deny => DenyStep(g, id, f, d, ScanScore(e))
    case Challenge => g.(flights := g.flights - {id})
    case _ => g.(flights := g.flights[id := f.(envelope := e, phase := Proceeding(d, Classify(e)))])
  }

  lemma GuardParts(cfg: Config, g: Gateway, id: nat, f: Flight, guard: Option<Guard>)
    ensures var g', d := GuardStep(cfg, g, id, f, guard), Decide(cfg.bundle, f.envelope.(guard := guard));
            g' == if d.action == Deny then DenyStep(g, id, f, d, ScanScore(f.envelope)) else g.(flights := g'.flights)
  {
  }

  // ----- the third stretch: tools

  function ToolContextOf(cfg: Config, f: Flight): Tools.ToolContext
    requires f.phase.Proceeding?
  {
    Tools.ToolContext(f.envelope.permissions, Some(f.phase.decision), Some(f.phase.classification), cfg.registry,
                      cfg.matchers)
  }

  predicate AnyAllowed(records: Option<seq<Tools.ToolRecord>>) {
    records.Some? && exists i | 0 <= i < |records.value| :: records.value[i].allowed
  }

  function ToolsStep(cfg: Config, g: Gateway, id: nat, f: Flight, items: seq<Tools.Item>): Gateway
    requires f.phase.Proceeding?
  {
    var used := AnyAllowed(Tools.RunTools(items, ToolContextOf(cfg, f)));
    g.(sessions := if used && f.session in g.sessions
                   then g.sessions[f.session := Sessions.ToolUsed(g.sessions[f.session])]
                   else g.sessions,
       flights := g.flights - {id})
  }

  // ----- the machine

  /** A process start: requests in flight die with the process; without a store the
      state dies too. */
  function RestartStep(cfg: Config, g: Gateway): Gateway {
    if cfg.persistent then g.(flights := map[])
    else Gateway(g.now, RateLimit.EMPTY, map[], map[], map[])
  }

  /** One event; an event that cannot happen in g changes nothing. */
  function Step(cfg: Config, g: Gateway, e: Event): Gateway {
    match e
    case Tick(now) => if g.now <= now then g.(now := now) else g
    case Begin(id, req) => if MayBegin(g, id, req) then BeginStep(cfg, g, id, req) else g
    case GuardAnswered(id, guard) =>
      if id in g.flights && g.flights[id].phase.AwaitingGuard? then GuardStep(cfg, g, id, g.flights[id], guard) else g
    case ToolsRun(id, items) =>
      if id in g.flights && g.flights[id].phase.Proceeding? then ToolsStep(cfg, g, id, g.flights[id], items) else g
    case Abandon(id) => g.(flights := g.flights - {id})
    case EvictProfiles(pairs) => if cfg.persistent then g else g.(profiles := g.profiles - pairs)
    case Restart => RestartStep(cfg, g)
  }

  function Start(now: real): Gateway {
    Gateway(now, RateLimit.EMPTY, map[], map[], map[])
  }

  function Run(cfg: Config, g: Gateway, es: seq<Event>): Gateway
    decreases |es|
  {
    if es == [] then g else Run(cfg, Step(cfg, g, es[0]), es[1..])
  }

  // ----- requests in flight

  /** The requests of one session that are in flight. */
  function OpenSet(flights: map<nat, Flight>, session: string): set<nat> {
    set id | id in flights && flights[id].session == session
  }

  /** Those of them still between the limiter and the policy decision. */
  function AwaitingSet(flights: map<nat, Flight>, session: string): set<nat> {
    set id | id in flights && flights[id].session == session && flights[id].phase.AwaitingGuard?
  }

  function Open(g: Gateway, session: string): nat { |OpenSet(g.flights, session)| }

  function Awaiting(g: Gateway, session: string): nat { |AwaitingSet(g.flights, session)| }

  lemma AddOpen(flights: map<nat, Flight>, id: nat, f: Flight, session: string)
    requires id !in flights
    ensures OpenSet(flights[id := f], session) == OpenSet(flights, session) + if f.session == session then {id} else {}
  {
  }

  lemma AddAwaiting(flights: map<nat, Flight>, id: nat, f: Flight, session: string)
    requires id !in flights && f.phase.AwaitingGuard?
    ensures AwaitingSet(flights[id := f], session)
            == AwaitingSet(flights, session) + if f.session == session then {id} else {}
  {
  }

  lemma AddFlight(flights: map<nat, Flight>, id: nat, f: Flight, session: string)
    requires id !in flights && f.phase.AwaitingGuard?
    ensures |OpenSet(flights[id := f], session)| == |OpenSet(flights, session)| + if f.session == session then 1 else 0
    ensures |AwaitingSet(flights[id := f], session)|
            == |AwaitingSet(flights, session)| + if f.session == session then 1 else 0
  {
    AddOpen(flights, id, f, session);
    AddAwaiting(flights, id, f, session);
  }

  lemma DropFlight(flights: map<nat, Flight>, id: nat, session: string)
    ensures var mine := id in flights && flights[id].session == session;
            && |OpenSet(flights - {id}, session)| == |OpenSet(flights, session)| - (if mine then 1 else 0)
            && |AwaitingSet(flights - {id}, session)|
               == |AwaitingSet(flights, session)| - (if mine && flights[id].phase.AwaitingGuard? then 1 else 0)
  {
    var after := flights - {id};
    if id in flights && flights[id].session == session {
      assert OpenSet(after, session) == OpenSet(flights, session) - {id};
      if flights[id].phase.AwaitingGuard? {
        assert AwaitingSet(after, session) == AwaitingSet(flights, session) - {id};
      } else {
        assert AwaitingSet(after, session) == AwaitingSet(flights, session);
      }
    } else {
      assert OpenSet(after, session) == OpenSet(flights, session);
      assert AwaitingSet(after, session) == AwaitingSet(flights, session);
    }
  }

  lemma DecideFlight(flights: map<nat, Flight>, id: nat, f: Flight, session: string)
    requires id in flights && flights[id].phase.AwaitingGuard?
    requires f.phase.Proceeding? && f.session == flights[id].session
    ensures |OpenSet(flights[id := f], session)| == |OpenSet(flights, session)|
    ensures |AwaitingSet(flights[id := f], session)| <= |AwaitingSet(flights, session)|
  {
    var after := flights[id := f];
    assert OpenSet(after, session) == OpenSet(flights, session);
    if f.session == session {
      assert AwaitingSet(after, session) == AwaitingSet(flights, session) - {id};
    } else {
      assert AwaitingSet(after, session) == AwaitingSet(flights, session);
    }
  }

  // ----- counters of every reachable session

  predicate ScoresInRange(history: seq<int>) {
    forall i | 0 <= i < |history| :: 0 <= history[i] <= 100
  }

  /** What every session satisfies with `open` requests in flight. */
  predicate SessionOk(r: SessionRecord, open: nat) {
    && r.refusals == r.attempts
    && r.escalations <= (if r.attempts == 0 then 0 else r.attempts - 1)
    && r.refusals + r.toolRequests + open <= |r.riskHistory| <= r.requests
    && ScoresInRange(r.riskHistory)
    && r.state == (if r.riskHistory == [] then Normal else Band(r.riskHistory[|r.riskHistory| - 1]))
  }

  ghost predicate Inv(g: Gateway) {
    && (forall id | id in g.sessions :: SessionOk(g.sessions[id], Open(g, id)))
    && (forall id | id in g.flights :: g.flights[id].session in g.sessions)
  }

  lemma UnknownSessionNotOpen(g: Gateway, session: string)
    requires Inv(g) && session !in g.sessions
    ensures Open(g, session) == 0
  {
    assert OpenSet(g.flights, session) == {};
  }

  lemma ArrivedOk(g: Gateway, req: Request)
    requires Inv(g)
    ensures var r := Arrived(g, req);
            && SessionOk(r, Open(g, SessionOf(req))) && |r.riskHistory| < r.requests
            && r.attempts == if SessionOf(req) in g.sessions then g.sessions[SessionOf(req)].attempts else 0
  {
    var id := SessionOf(req);
    if id !in g.sessions {
      UnknownSessionNotOpen(g, id);
    } else {
      assert SessionOk(g.sessions[id], Open(g, id));
    }
  }

  lemma BeginKeepsInv(cfg: Config, g: Gateway, id: nat, req: Request)
    requires Inv(g) && MayBegin(g, id, req)
    ensures Inv(BeginStep(cfg, g, id, req))
  {
    var g' := BeginStep(cfg, g, id, req);
    if VerdictOn(cfg, g, req).Allowed? {
      AdmitKeepsInv(g, id, req);
      SameSessionsInv(Admit(g, id, req), g');
    } else {
      RejectKeepsInv(g, req);
      SameSessionsInv(Reject(g, req), g');
    }
  }

  lemma AdmitKeepsInv(g: Gateway, id: nat, req: Request)
    requires Inv(g) && MayBegin(g, id, req)
    ensures Inv(Admit(g, id, req))
  {
    var g', r := Admit(g, id, req), Arrived(g, req);
    ArrivedOk(g, req);
    StoredScoreKeepsBand(r, Some(req.scan), req.facts);
    forall k | k in g'.sessions
      ensures SessionOk(g'.sessions[k], Open(g', k))
    {
      AddFlight(g.flights, id, g'.flights[id], k);
      if k != SessionOf(req) {
        assert SessionOk(g.sessions[k], Open(g, k));
      }
    }
  }

  lemma RejectKeepsInv(g: Gateway, req: Request)
    requires Inv(g)
    ensures Inv(Reject(g, req))
  {
    var g' := Reject(g, req);
    ArrivedOk(g, req);
    forall k | k in g'.sessions
      ensures SessionOk(g'.sessions[k], Open(g', k))
    {
      if k != SessionOf(req) {
        assert SessionOk(g.sessions[k], Open(g, k));
      }
    }
  }

  /** Removing a flight of a session makes room for one refusal or tool use. */
  lemma DropKeepsOthers(g: Gateway, id: nat, sessions: map<string, SessionRecord>, s: string)
    requires Inv(g) && id in g.flights && g.flights[id].session == s
    requires sessions.Keys == g.sessions.Keys
    requires forall k | k in sessions && k != s :: sessions[k] == g.sessions[k]
    requires s in sessions ==> Open(g, s) >= 1 && SessionOk(sessions[s], Open(g, s) - 1)
    ensures Inv(g.(sessions := sessions, flights := g.flights - {id}))
  {
    var g' := g.(sessions := sessions, flights := g.flights - {id});
    forall k | k in g'.sessions
      ensures SessionOk(g'.sessions[k], Open(g', k))
    {
      DropFlight(g.flights, id, k);
      if k != s {
        assert SessionOk(g.sessions[k], Open(g, k));
      }
    }
  }

  lemma OpenPositive(g: Gateway, id: nat)
    requires id in g.flights
    ensures Open(g, g.flights[id].session) >= 1
  {
    assert id in OpenSet(g.flights, g.flights[id].session);
  }

  lemma SameSessionsInv(g: Gateway, g': Gateway)
    requires Inv(g) && g'.sessions == g.sessions && g'.flights == g.flights
    ensures Inv(g')
  {
    forall k | k in g'.sessions
      ensures SessionOk(g'.sessions[k], Open(g', k))
    {
      assert SessionOk(g.sessions[k], Open(g, k));
    }
  }

  lemma DenyKeepsInv(g: Gateway, id: nat, d: Decision, score: int)
    requires Inv(g) && id in g.flights
    ensures Inv(DenyStep(g, id, g.flights[id], d, score))
  {
    var s := g.flights[id].session;
    OpenPositive(g, id);
    assert SessionOk(g.sessions[s], Open(g, s));
    var g' := DenyStep(g, id, g.flights[id], d, score);
    DropKeepsOthers(g, id, g'.sessions, s);
    SameSessionsInv(g.(sessions := g'.sessions, flights := g.flights - {id}), g');
  }

  lemma DecidedKeepsInv(g: Gateway, id: nat, f: Flight)
    requires Inv(g) && id in g.flights && g.flights[id].phase.AwaitingGuard?
    requires f.phase.Proceeding? && f.session == g.flights[id].session
    ensures Inv(g.(flights := g.flights[id := f]))
  {
    var g' := g.(flights := g.flights[id := f]);
    forall k | k in g'.sessions
      ensures SessionOk(g'.sessions[k], Open(g', k))
    {
      DecideFlight(g.flights, id, f, k);
      assert SessionOk(g.sessions[k], Open(g, k));
    }
  }

  lemma FinishedKeepsInv(g: Gateway, id: nat)
    requires Inv(g) && id in g.flights
    ensures Inv(g.(flights := g.flights - {id}))
  {
    var s := g.flights[id].session;
    OpenPositive(g, id);
    assert SessionOk(g.sessions[s], Open(g, s));
    DropKeepsOthers(g, id, g.sessions, s);
  }

  lemma GuardKeepsInv(cfg: Config, g: Gateway, id: nat, guard: Option<Guard>)
    requires Inv(g) && id in g.flights && g.flights[id].phase.AwaitingGuard?
    ensures Inv(GuardStep(cfg, g, id, g.flights[id], guard))
  {
    var f := g.flights[id];
    var e := f.envelope.(guard := guard);
    var d := Decide(cfg.bundle, e);
    match d.action {
      case Deny => DenyKeepsInv(g, id, d, ScanScore(e));
      case Challenge => FinishedKeepsInv(g, id);
      case _ => DecidedKeepsInv(g, id, f.(envelope := e, phase := Proceeding(d, Classify(e))));
    }
  }

  lemma ToolsKeepInv(cfg: Config, g: Gateway, id: nat, items: seq<Tools.Item>)
    requires Inv(g) && id in g.flights && g.flights[id].phase.Proceeding?
    ensures Inv(ToolsStep(cfg, g, id, g.flights[id], items))
  {
    var s := g.flights[id].session;
    OpenPositive(g, id);
    assert SessionOk(g.sessions[s], Open(g, s));
    DropKeepsOthers(g, id, ToolsStep(cfg, g, id, g.flights[id], items).sessions, s);
  }

  /** Time, evictions, abandoned requests and restarts. */
  lemma QuietStepKeepsInv(cfg: Config, g: Gateway, e: Event)
    requires Inv(g) && !e.Begin? && !e.GuardAnswered? && !e.ToolsRun?
    ensures Inv(Step(cfg, g, e))
  {
    match e {
      case Abandon(id) =>
        if id in g.flights {
          FinishedKeepsInv(g, id);
        } else {
          assert g.flights - {id} == g.flights;
        }
      case Restart => RestartKeepsInv(cfg, g);
      case _ => SameSessionsInv(g, Step(cfg, g, e));
    }
  }

  lemma StepKeepsInv(cfg: Config, g: Gateway, e: Event)
    requires Inv(g)
    ensures Inv(Step(cfg, g, e))
  {
    match e {
      case Begin(id, req) =>
        if MayBegin(g, id, req) {
          BeginKeepsInv(cfg, g, id, req);
        }
      case GuardAnswered(id, guard) =>
        if id in g.flights && g.flights[id].phase.AwaitingGuard? {
          GuardKeepsInv(cfg, g, id, guard);
        }
      case ToolsRun(id, items) =>
        if id in g.flights && g.flights[id].phase.Proceeding? {
          ToolsKeepInv(cfg, g, id, items);
        }
      case _ => QuietStepKeepsInv(cfg, g, e);
    }
  }

  lemma RestartKeepsInv(cfg: Config, g: Gateway)
    requires Inv(g)
    ensures Inv(RestartStep(cfg, g))
  {
    var g' := RestartStep(cfg, g);
    forall k | k in g'.sessions
      ensures SessionOk(g'.sessions[k], Open(g', k))
    {
      assert OpenSet(g'.flights, k) == {};
      assert SessionOk(g.sessions[k], Open(g, k));
    }
  }

  lemma {:induction false} RunKeepsInv(cfg: Config, g: Gateway, es: seq<Event>)
    requires Inv(g)
    ensures Inv(Run(cfg, g, es))
    decreases |es|
  {
    if es != [] {
      StepKeepsInv(cfg, g, es[0]);
      RunKeepsInv(cfg, Step(cfg, g, es[0]), es[1..]);
    }
  }

  /** Every session of every reachable state, under any interleaving, clock advances,
      abandoned requests and restarts, satisfies the counter invariants. */
  lemma ReachableSessionsOk(cfg: Config, now: real, es: seq<Event>, session: string)
    requires session in Run(cfg, Start(now), es).sessions
    ensures var g := Run(cfg, Start(now), es); SessionOk(g.sessions[session], Open(g, session))
  {
    RunKeepsInv(cfg, Start(now), es);
  }

  /** The risk engine only ever assesses sessions with at most two refusals, so its 40
      points for three or more are never given. */
  lemma AssessedSessionsAreLow(cfg: Config, now: real, es: seq<Event>, req: Request)
    requires var g := Run(cfg, Start(now), es); VerdictOn(cfg, g, req).Allowed?
    ensures var r := Arrived(Run(cfg, Start(now), es), req);
            r.refusals <= 2 && HistoryPoints(r) <= 80
  {
    RunKeepsInv(cfg, Start(now), es);
    ArrivedOk(Run(cfg, Start(now), es), req);
  }

  // ----- the denial bound under interleaving

  /** Along the run at most c requests of the session wait for the guard at once. */
  predicate AtMostWaiting(cfg: Config, g: Gateway, es: seq<Event>, session: string, c: nat)
    decreases |es|
  {
    Awaiting(g, session) <= c && (es != [] ==> AtMostWaiting(cfg, Step(cfg, g, es[0]), es[1..], session, c))
  }

  function AttemptsOf(g: Gateway, session: string): nat {
    if session in g.sessions then g.sessions[session].attempts else 0
  }

  /** Recorded attempts plus requests that may still add one stay within 2 + c. */
  predicate Budgeted(g: Gateway, session: string, c: nat) {
    AttemptsOf(g, session) + Awaiting(g, session) <= 2 + c
  }

  lemma AwaitingPositive(g: Gateway, id: nat)
    requires id in g.flights && g.flights[id].phase.AwaitingGuard?
    ensures Awaiting(g, g.flights[id].session) >= 1
  {
    assert id in AwaitingSet(g.flights, g.flights[id].session);
  }

  lemma GuardKeepsBudget(cfg: Config, g: Gateway, id: nat, guard: Option<Guard>, session: string, c: nat)
    requires Budgeted(g, session, c) && id in g.flights && g.flights[id].phase.AwaitingGuard?
    ensures Budgeted(GuardStep(cfg, g, id, g.flights[id], guard), session, c)
  {
    var f := g.flights[id];
    AwaitingPositive(g, id);
    DropFlight(g.flights, id, session);
    var e := f.envelope.(guard := guard);
    var d := Decide(cfg.bundle, e);
    if d.action != Deny && d.action != Challenge {
      DecideFlight(g.flights, id, f.(envelope := e, phase := Proceeding(d, Classify(e))), session);
    }
  }

  lemma BeginKeepsBudget(cfg: Config, g: Gateway, id: nat, req: Request, session: string, c: nat)
    requires Budgeted(g, session, c) && MayBegin(g, id, req) && Awaiting(BeginStep(cfg, g, id, req), session) <= c
    ensures Budgeted(BeginStep(cfg, g, id, req), session, c)
  {
    if VerdictOn(cfg, g, req).Allowed? {
      AddFlight(g.flights, id, BeginStep(cfg, g, id, req).flights[id], session);
    }
  }

  lemma StepKeepsBudget(cfg: Config, g: Gateway, e: Event, session: string, c: nat)
    requires Budgeted(g, session, c) && Awaiting(Step(cfg, g, e), session) <= c
    ensures Budgeted(Step(cfg, g, e), session, c)
  {
    match e {
      case Begin(id, req) =>
        if MayBegin(g, id, req) {
          BeginKeepsBudget(cfg, g, id, req, session, c);
        }
      case GuardAnswered(id, guard) =>
        if id in g.flights && g.flights[id].phase.AwaitingGuard? {
          GuardKeepsBudget(cfg, g, id, guard, session, c);
        }
      case ToolsRun(id, items) =>
        DropFlight(g.flights, id, session);
      case Abandon(id) =>
        DropFlight(g.flights, id, session);
      case Restart =>
        assert AwaitingSet(map[], session) == {};
      case _ =>
    }
  }

  lemma {:induction false} RunKeepsBudget(cfg: Config, g: Gateway, es: seq<Event>, session: string, c: nat)
    requires Budgeted(g, session, c) && AtMostWaiting(cfg, g, es, session, c)
    ensures Budgeted(Run(cfg, g, es), session, c)
    decreases |es|
  {
    if es != [] {
      StepKeepsBudget(cfg, g, es[0], session, c);
      RunKeepsBudget(cfg, Step(cfg, g, es[0]), es[1..], session, c);
    }
  }

  /** With at most c requests of a session between the attempt check and the decision,
      the session never records more than 2 + c attempts: three when requests come one
      at a time. */
  lemma AttemptsBounded(cfg: Config, now: real, es: seq<Event>, session: string, c: nat)
    requires AtMostWaiting(cfg, Start(now), es, session, c)
    ensures AttemptsOf(Run(cfg, Start(now), es), session) <= 2 + c
  {
    assert AwaitingSet(Start(now).flights, session) == {};
    RunKeepsBudget(cfg, Start(now), es, session, c);
  }

  /** The guard's answer reaches these requests one after the other. */
  function Answered(ids: seq<nat>, guard: Option<Guard>): seq<Event> {
    if ids == [] then [] else [GuardAnswered(ids[0], guard)] + Answered(ids[1..], guard)
  }

  /** The request waits for the guard, in this session, and this answer has it denied. */
  predicate WillBeDenied(cfg: Config, g: Gateway, id: nat, guard: Option<Guard>, session: string) {
    && id in g.flights && g.flights[id].session == session && g.flights[id].phase.AwaitingGuard?
    && Decide(cfg.bundle, g.flights[id].envelope.(guard := guard)).action == Deny
  }

  /** Of the requests that wait together every one that is denied is counted, however many
      attempts the session has by then. */
  lemma {:induction false} DenialsAllCount(cfg: Config, g: Gateway, ids: seq<nat>, guard: Option<Guard>,
                                           session: string)
    requires session in g.sessions
    requires forall i | 0 <= i < |ids| :: WillBeDenied(cfg, g, ids[i], guard, session)
    requires forall i, j | 0 <= i < j < |ids| :: ids[i] != ids[j]
    ensures AttemptsOf(Run(cfg, g, Answered(ids, guard)), session) == AttemptsOf(g, session) + |ids|
    decreases |ids|
  {
    if ids != [] {
      assert WillBeDenied(cfg, g, ids[0], guard, session);
      var g1 := Step(cfg, g, GuardAnswered(ids[0], guard));
      forall i | 0 <= i < |ids[1..]|
        ensures WillBeDenied(cfg, g1, ids[1..][i], guard, session)
      {
        assert WillBeDenied(cfg, g, ids[i + 1], guard, session) && ids[0] != ids[i + 1];
      }
      DenialsAllCount(cfg, g1, ids[1..], guard, session);
      assert Answered(ids, guard)[1..] == Answered(ids[1..], guard);
    }
  }

  // ----- lockout

  predicate NoRestart(es: seq<Event>) {
    forall i | 0 <= i < |es| :: !es[i].Restart?
  }

  lemma StepKeepsAttempts(cfg: Config, g: Gateway, e: Event, session: string)
    requires session in g.sessions && (cfg.persistent || !e.Restart?)
    ensures var g' := Step(cfg, g, e);
            session in g'.sessions && g.sessions[session].attempts <= g'.sessions[session].attempts
  {
  }

  lemma {:induction false} RunKeepsAttempts(cfg: Config, g: Gateway, es: seq<Event>, session: string)
    requires session in g.sessions && (cfg.persistent || NoRestart(es))
    ensures var g' := Run(cfg, g, es);
            session in g'.sessions && g.sessions[session].attempts <= g'.sessions[session].attempts
    decreases |es|
  {
    if es != [] {
      assert !cfg.persistent ==> !es[0].Restart? && NoRestart(es[1..]);
      StepKeepsAttempts(cfg, g, es[0], session);
      RunKeepsAttempts(cfg, Step(cfg, g, es[0]), es[1..], session);
    }
  }

  /** Once a session has three recorded attempts, no request in it is ever admitted
      again: under any key, at any later time and, with the store, across restarts. */
  lemma SessionLockout(cfg: Config, g: Gateway, es: seq<Event>, session: string, req: Request)
    requires session in g.sessions && g.sessions[session].attempts >= 3
    requires cfg.persistent || NoRestart(es)
    requires SessionOf(req) == session
    ensures !VerdictOn(cfg, Run(cfg, g, es), req).Allowed?
  {
    RunKeepsAttempts(cfg, g, es, session);
  }

  // ----- the limiter inside the pipeline

  /** The limiter calls that a run makes, in order. */
  function CallsOf(cfg: Config, g: Gateway, es: seq<Event>): seq<RateLimit.Call>
    decreases |es|
  {
    if es == [] then []
    else
      CallAt(cfg, g, es[0]) + CallsOf(cfg, Step(cfg, g, es[0]), es[1..])
  }

  /** When a run admits requests under a key. */
  function AdmissionTimes(cfg: Config, g: Gateway, es: seq<Event>, key: string): seq<real>
    decreases |es|
  {
    if es == [] then []
    else
      AdmissionAt(cfg, g, es[0], key) + AdmissionTimes(cfg, Step(cfg, g, es[0]), es[1..], key)
  }

  /** The admission that one event makes under a key, if it makes one. */
  function AdmissionAt(cfg: Config, g: Gateway, e: Event, key: string): seq<real> {
    if e.Begin? && MayBegin(g, e.id, e.request) && KeyOf(e.request) == key && VerdictOn(cfg, g, e.request).Allowed?
    then [g.now] else []
  }

  lemma ClockLater(now: real, later: real, calls: seq<RateLimit.Call>)
    requires now <= later && RateLimit.ClockFrom(later, calls)
    ensures RateLimit.ClockFrom(now, calls)
  {
  }

  /** The call that one event makes, if it makes one. */
  function CallAt(cfg: Config, g: Gateway, e: Event): seq<RateLimit.Call> {
    if e.Begin? && MayBegin(g, e.id, e.request) then [LimiterCall(g, e.request)] else []
  }

  lemma LimiterStep(cfg: Config, g: Gateway, e: Event)
    requires cfg.persistent || !e.Restart?
    ensures var g1 := Step(cfg, g, e);
            && g.now <= g1.now
            && g1.limiter == if CallAt(cfg, g, e) == [] then g.limiter
                             else RateLimit.Allow(cfg.limit, g.limiter, CallAt(cfg, g, e)[0]).0
  {
  }

  lemma CallsPrepend(cfg: RateLimit.Config, st: RateLimit.Limiter, c: RateLimit.Call, rest: seq<RateLimit.Call>,
                     key: string)
    ensures var (st1, v) := RateLimit.Allow(cfg, st, c);
            && RateLimit.AdmittedTimes(cfg, st, [c] + rest, key)
               == (if v.Allowed? && c.key == key then [c.now] else []) + RateLimit.AdmittedTimes(cfg, st1, rest, key)
            && RateLimit.Run(cfg, st, [c] + rest).0 == RateLimit.Run(cfg, st1, rest).0
    ensures RateLimit.ClockFrom(c.now, rest) ==> RateLimit.ClockFrom(c.now, [c] + rest)
  {
    assert ([c] + rest)[1..] == rest;
  }

  /** The limiter sees exactly these calls, under a clock that never runs back. */
  lemma {:induction false} LimiterSeesCalls(cfg: Config, g: Gateway, es: seq<Event>, key: string)
    requires cfg.persistent || NoRestart(es)
    ensures RateLimit.ClockFrom(g.now, CallsOf(cfg, g, es))
    ensures AdmissionTimes(cfg, g, es, key) == RateLimit.AdmittedTimes(cfg.limit, g.limiter, CallsOf(cfg, g, es), key)
    ensures Run(cfg, g, es).limiter == RateLimit.Run(cfg.limit, g.limiter, CallsOf(cfg, g, es)).0
    decreases |es|
  {
    if es != [] {
      var e, rest := es[0], es[1..];
      var g1 := Step(cfg, g, e);
      assert !cfg.persistent ==> !e.Restart? && NoRestart(rest);
      LimiterSeesCalls(cfg, g1, rest, key);
      LimiterStep(cfg, g, e);
      var later := CallsOf(cfg, g1, rest);
      ClockLater(g.now, g1.now, later);
      assert CallsOf(cfg, g, es) == CallAt(cfg, g, e) + later;
      if CallAt(cfg, g, e) != [] {
        CallsPrepend(cfg.limit, g.limiter, CallAt(cfg, g, e)[0], later, key);
      } else {
        assert [] + later == later;
      }
    }
  }

  /** Sliding-window safety of the whole gateway: whatever clients, sessions, attacks and
      interleavings, and with the store across restarts, no closed interval of one
      window admits more requests of one key than the configured maximum. */
  lemma AdmissionsBounded(cfg: Config, now: real, es: seq<Event>, key: string, a: real)
    requires cfg.persistent || NoRestart(es)
    ensures Window.CountIn(AdmissionTimes(cfg, Start(now), es, key), a, a + cfg.limit.window)
            <= RateLimit.Max(1, cfg.limit.maxRequests)
  {
    LimiterSeesCalls(cfg, Start(now), es, key);
    RateLimit.SlidingWindowBound(cfg.limit, now, CallsOf(cfg, Start(now), es), key, a);
  }

  /** The hour of cooldown holds for the whole gateway: when a session with three recorded
      attempts makes a request outside a cooldown, that request is refused as an aggressive
      attacker's, and every request of the same client and subject within the next hour is
      refused as cooling down, in whatever session, whatever happens in between and, with
      the store, across restarts. */
  lemma CooldownHolds(cfg: Config, g: Gateway, id: nat, req: Request, es: seq<Event>, later: Request)
    requires MayBegin(g, id, req)
    requires req.sessionId in g.sessions && req.sessionId != "" && g.sessions[req.sessionId].attempts >= 3
    requires RateLimit.DeadlineOf(g.limiter.cooldown, KeyOf(req)) <= g.now
    requires cfg.persistent || NoRestart(es)
    requires later.client == req.client && later.subject == req.subject
    requires Run(cfg, Step(cfg, g, Begin(id, req)), es).now < g.now + 3600.0
    ensures VerdictOn(cfg, g, req) == RateLimit.AggressiveAttacker
    ensures VerdictOn(cfg, Run(cfg, Step(cfg, g, Begin(id, req)), es), later) == RateLimit.CooldownActive
  {
    var g1 := Step(cfg, g, Begin(id, req));
    LimiterSeesCalls(cfg, g1, es, KeyOf(req));
    RateLimit.CooldownLasts(cfg.limit, g.limiter, LimiterCall(g, req), CallsOf(cfg, g1, es),
                            LimiterCall(Run(cfg, g1, es), later));
  }

  // ----- pressure

  lemma StepKeepsPressure(cfg: Config, g: Gateway, e: Event, pair: Profiles.Pair)
    requires cfg.persistent
    ensures Profiles.Multiplier(Found(g, pair)) <= Profiles.Multiplier(Found(Step(cfg, g, e), pair))
  {
    if e.GuardAnswered? && e.id in g.flights && g.flights[e.id].phase.AwaitingGuard? {
      var f := g.flights[e.id];
      var d := Decide(cfg.bundle, f.envelope.(guard := e.guard));
      if d.action == Deny && pair == (f.client, f.subject) {
        Profiles.PressureNeverFalls(Found(g, pair), pair.0, pair.1, CodeTexts(d.reasons), g.now, 1, 0, 0);
      }
    }
  }

  /** With the store, nothing that happens lowers a client's multiplier; so for the same
      severity and attempts its limit never rises. */
  lemma {:induction false} PressureNeverFallsInRun(cfg: Config, g: Gateway, es: seq<Event>, pair: Profiles.Pair,
                                                   severity: int, attempts: int)
    requires cfg.persistent && cfg.limit.maxRequests >= 1
    ensures var m, m' := Profiles.Multiplier(Found(g, pair)), Profiles.Multiplier(Found(Run(cfg, g, es), pair));
            && m <= m'
            && RateLimit.EffectiveLimit(cfg.limit.maxRequests, severity, attempts, m')
               <= RateLimit.EffectiveLimit(cfg.limit.maxRequests, severity, attempts, m)
    decreases |es|
  {
    if es != [] {
      StepKeepsPressure(cfg, g, es[0], pair);
      PressureNeverFallsInRun(cfg, Step(cfg, g, es[0]), es[1..], pair, severity, attempts);
    }
    var m, m' := Profiles.Multiplier(Found(g, pair)), Profiles.Multiplier(Found(Run(cfg, g, es), pair));
    RateLimit.LimitAntitone(cfg.limit.maxRequests, severity, severity, attempts, attempts, m, m');
  }

  // ----- profiles of reachable states

  /** The refusal that one event records against a pair, if it records one. */
  function RefusalAt(cfg: Config, g: Gateway, e: Event, pair: Profiles.Pair): seq<Profiles.Refusal> {
    if e.GuardAnswered? && e.id in g.flights && g.flights[e.id].phase.AwaitingGuard?
       && (g.flights[e.id].client, g.flights[e.id].subject) == pair
       && Decide(cfg.bundle, g.flights[e.id].envelope.(guard := e.guard)).action == Deny
    then [Profiles.Refusal(CodeTexts(Decide(cfg.bundle, g.flights[e.id].envelope.(guard := e.guard)).reasons), g.now)]
    else []
  }

  /** Without a store an eviction or a restart loses the profile. */
  predicate Forgets(cfg: Config, e: Event, pair: Profiles.Pair) {
    !cfg.persistent && (e.Restart? || (e.EvictProfiles? && pair in e.pairs))
  }

  predicate Forgotten(cfg: Config, es: seq<Event>, pair: Profiles.Pair) {
    exists i | 0 <= i < |es| :: Forgets(cfg, es[i], pair)
  }

  /** The refusals that a run records against a pair, oldest first, since the last event
      that lost its profile. */
  function RefusalsOf(cfg: Config, g: Gateway, es: seq<Event>, pair: Profiles.Pair): seq<Profiles.Refusal>
    decreases |es|
  {
    if es == [] then []
    else
      (if Forgotten(cfg, es[1..], pair) then [] else RefusalAt(cfg, g, es[0], pair))
      + RefusalsOf(cfg, Step(cfg, g, es[0]), es[1..], pair)
  }

  /** The profile that a refusal history amounts to. */
  function ProfileOf(pair: Profiles.Pair, history: seq<Profiles.Refusal>): Option<ProfileRecord> {
    if history == [] then None
    else Some(Profiles.Replay(Profiles.NewProfile(pair.0, pair.1, history[0].now), history))
  }

  lemma ProfileOfNext(pair: Profiles.Pair, history: seq<Profiles.Refusal>, r: Profiles.Refusal)
    ensures var p := match ProfileOf(pair, history)
                     case None => Profiles.NewProfile(pair.0, pair.1, r.now)
                     case Some(p) => p;
            ProfileOf(pair, history + [r]) == Some(Profiles.Recorded(p, r.codes, r.now))
  {
    assert (history + [r])[..|history|] == history;
    if history == [] {
      assert Profiles.Replay(Profiles.NewProfile(pair.0, pair.1, r.now), [])
             == Profiles.NewProfile(pair.0, pair.1, r.now);
    }
  }

  lemma StepProfile(cfg: Config, g: Gateway, e: Event, pair: Profiles.Pair, history: seq<Profiles.Refusal>)
    requires Found(g, pair) == ProfileOf(pair, history)
    ensures Found(Step(cfg, g, e), pair)
            == ProfileOf(pair, if Forgets(cfg, e, pair) then [] else history + RefusalAt(cfg, g, e, pair))
  {
    var more := RefusalAt(cfg, g, e, pair);
    if more == [] {
      assert history + more == history;
    } else {
      ProfileOfNext(pair, history, more[0]);
      assert history + [more[0]] == history + more;
    }
  }

  lemma ForgottenFirst(cfg: Config, es: seq<Event>, pair: Profiles.Pair)
    requires es != []
    ensures Forgotten(cfg, es, pair) <==> Forgets(cfg, es[0], pair) || Forgotten(cfg, es[1..], pair)
  {
    assert forall i | 0 <= i < |es| - 1 :: es[1..][i] == es[i + 1];
  }

  lemma {:induction false} RunProfile(cfg: Config, g: Gateway, es: seq<Event>, pair: Profiles.Pair,
                                      history: seq<Profiles.Refusal>)
    requires Found(g, pair) == ProfileOf(pair, history)
    ensures Found(Run(cfg, g, es), pair)
            == ProfileOf(pair, (if Forgotten(cfg, es, pair) then [] else history) + RefusalsOf(cfg, g, es, pair))
    decreases |es|
  {
    if es == [] {
      assert history + [] == history;
    } else {
      var step, rest := RefusalAt(cfg, g, es[0], pair), RefusalsOf(cfg, Step(cfg, g, es[0]), es[1..], pair);
      StepProfile(cfg, g, es[0], pair, history);
      RunProfile(cfg, Step(cfg, g, es[0]), es[1..], pair, if Forgets(cfg, es[0], pair) then [] else history + step);
      Window.ConcatAssoc(history, step, rest);
      ForgottenFirst(cfg, es, pair);
      assert [] + rest == rest;
    }
  }

  /** In every reachable state a pair has a profile exactly when the run refused it, without
      a store since its profile was last lost; and then the profile's counters are those of
      that refusal history, its reasons the newest hundred codes, and its injections at
      least its jailbreaks. */
  lemma ReachableProfileIsItsHistory(cfg: Config, now: real, es: seq<Event>, pair: Profiles.Pair)
    ensures var history := RefusalsOf(cfg, Start(now), es, pair);
            var found, codes := Found(Run(cfg, Start(now), es), pair), Profiles.AllCodes(history);
            && (found.Some? <==> history != [])
            && (found.Some? ==>
                  && found.value.refusals == |history| && found.value.firstSeen == history[0].now
                  && found.value.lastSeen == history[|history| - 1].now
                  && found.value.reasons == Profiles.LastN(codes, 100)
                  && found.value.injections == Profiles.CountOf(Profiles.Injection, codes)
                  && found.value.jailbreaks == Profiles.CountOf(Profiles.Jailbreak, codes) <= found.value.injections
                  && found.value.escalations == Profiles.CountOf(Profiles.Escalation, codes)
                  && found.value.toolAbuses == Profiles.CountOf(Profiles.ToolAbuse, codes))
  {
    var history := RefusalsOf(cfg, Start(now), es, pair);
    RunProfile(cfg, Start(now), es, pair, []);
    assert [] + history == history;
    if history != [] {
      Profiles.ProfileIsItsHistory(pair.0, pair.1, history[0].now, history);
      Profiles.InjectionsCoverJailbreaks(Profiles.AllCodes(history));
    }
  }
}
