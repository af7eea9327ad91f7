/** Sessions and limiter calls told from the events of a run: what every session record holds
    in a reachable state, and what a request makes the limiter see. */
module History {
  import opened Records
  import opened Policy
  import opened RiskEngine
  import opened Pipeline
  import Pressure
  import Profiles
  import Provenance
  import RateLimit
  import Sessions
  import Tools
  import Verdicts

  // ----- what happens to a session

  datatype Act =
    | Came(request: Request, time: real)
    | Assessed(risk: Risk)
    | WasDenied(score: int)
    | UsedTool

  predicate Names(req: Request, session: string) {
    if req.sessionId != "" then req.sessionId == session else req.freshId == session
  }

  /** What one event does to a session. */
  function ActsAt(cfg: Config, g: Gateway, e: Event, session: string): seq<Act> {
    match e
    case Begin(id, req) =>
      if !MayBegin(g, id, req) || !Names(req, session) then []
      else if VerdictOn(cfg, g, req).Allowed? then
        [Came(req, g.now), Assessed(Assess(Arrived(g, req), Some(req.scan), req.facts))]
      else [Came(req, g.now)]
    case GuardAnswered(id, guard) =>
      if id in g.flights && g.flights[id].session == session && g.flights[id].phase.AwaitingGuard?
         && Decide(cfg.bundle, g.flights[id].envelope.(guard := guard)).action == Deny
      then [WasDenied(ScanScore(g.flights[id].envelope))] else []
    case ToolsRun(id, items) =>
      if id in g.flights && g.flights[id].session == session && g.flights[id].phase.Proceeding?
         && SomeToolRuns(cfg, g.flights[id], items)
      then [UsedTool] else []
    case _ => []
  }

  predicate SomeToolRuns(cfg: Config, f: Flight, items: seq<Tools.Item>)
    requires f.phase.Proceeding?
  {
    var records := Tools.RunTools(items, ToolContextOf(cfg, f));
    records.Some? && exists r :: r in records.value && r.allowed
  }

  /** All that a run has done to a session, in memory since the last restart. */
  function ActsOf(cfg: Config, now: real, es: seq<Event>, session: string): seq<Act> {
    if es == [] then []
    else
      var n := |es| - 1;
      if es[n].Restart? && !cfg.persistent then []
      else ActsOf(cfg, now, es[..n], session) + ActsAt(cfg, Run(cfg, Start(now), es[..n]), es[n], session)
  }

  // ----- reading a session off its history

  function Comings(acts: seq<Act>): seq<Act> {
    if acts == [] then []
    else Comings(acts[..|acts| - 1]) + if acts[|acts| - 1].Came? then [acts[|acts| - 1]] else []
  }

  function Messages(acts: seq<Act>): nat {
    if acts == [] then 0
    else Messages(acts[..|acts| - 1]) + if acts[|acts| - 1].Came? then acts[|acts| - 1].request.messages else 0
  }

  function Attachments(acts: seq<Act>): nat {
    if acts == [] then 0
    else Attachments(acts[..|acts| - 1]) + if acts[|acts| - 1].Came? then acts[|acts| - 1].request.attachments else 0
  }

  function Risks(acts: seq<Act>): seq<Risk> {
    if acts == [] then []
    else Risks(acts[..|acts| - 1]) + if acts[|acts| - 1].Assessed? then [acts[|acts| - 1].risk] else []
  }

  /** The scan scores of the denied requests. */
  function Denials(acts: seq<Act>): seq<int> {
    if acts == [] then []
    else Denials(acts[..|acts| - 1]) + if acts[|acts| - 1].WasDenied? then [acts[|acts| - 1].score] else []
  }

  function ToolUses(acts: seq<Act>): nat {
    if acts == [] then 0 else ToolUses(acts[..|acts| - 1]) + if acts[|acts| - 1].UsedTool? then 1 else 0
  }

  /** The denials after the first with a scan score of 60 or more. */
  function Escalations(scores: seq<int>): set<nat> {
    set i: nat | 1 <= i < |scores| && scores[i] >= 60
  }

  /** The record says what the history says. */
  predicate Tells(r: SessionRecord, session: string, acts: seq<Act>) {
    var comings, risks, denials := Comings(acts), Risks(acts), Denials(acts);
    && comings != [] && comings[0].Came? && comings[|comings| - 1].Came?
    && r.id == session && r.subject == comings[0].request.subject && r.tenant == comings[0].request.tenant
    && r.createdAt == comings[0].time && r.lastSeenAt == comings[|comings| - 1].time
    && r.requests == |comings| && r.messages == Messages(acts) && r.attachments == Attachments(acts)
    && |r.riskHistory| == |risks| && (forall i | 0 <= i < |risks| :: r.riskHistory[i] == risks[i].score)
    && r.state == (if risks == [] then Normal else risks[|risks| - 1].state)
    && r.refusals == |denials| && r.attempts == |denials| && r.escalations == |Escalations(denials)|
    && r.toolRequests == ToolUses(acts)
  }

  // ----- one act more

  lemma OneMore(acts: seq<Act>, a: Act)
    ensures Comings(acts + [a]) == Comings(acts) + if a.Came? then [a] else []
    ensures Messages(acts + [a]) == Messages(acts) + if a.Came? then a.request.messages else 0
    ensures Attachments(acts + [a]) == Attachments(acts) + if a.Came? then a.request.attachments else 0
    ensures Risks(acts + [a]) == Risks(acts) + if a.Assessed? then [a.risk] else []
    ensures Denials(acts + [a]) == if a.WasDenied? then Denials(acts) + [a.score] else Denials(acts)
    ensures ToolUses(acts + [a]) == ToolUses(acts) + if a.UsedTool? then 1 else 0
  {
    assert (acts + [a])[..|acts|] == acts;
    assert Denials(acts) + [] == Denials(acts);
  }

  lemma EscalationsGrow(scores: seq<int>, score: int)
    ensures |Escalations(scores + [score])| == |Escalations(scores)| + if scores != [] && score >= 60 then 1 else 0
  {
    var n := |scores|;
    assert forall i | 0 <= i < n :: (scores + [score])[i] == scores[i];
    assert Escalations(scores + [score]) == Escalations(scores) + if n >= 1 && score >= 60 then {n} else {};
  }

  lemma ComeTells(r: SessionRecord, session: string, acts: seq<Act>, req: Request, now: real)
    requires Tells(r, session, acts)
    ensures Tells(Sessions.Counted(Sessions.Touched(r, now), req.messages, req.attachments, now), session,
                  acts + [Came(req, now)])
  {
    OneMore(acts, Came(req, now));
  }

  lemma FirstTells(session: string, req: Request, now: real)
    ensures Tells(Sessions.Counted(Sessions.NewSession(session, req.subject, req.tenant, now), req.messages,
                                   req.attachments, now),
                  session, [Came(req, now)])
  {
    OneMore([], Came(req, now));
    assert [] + [Came(req, now)] == [Came(req, now)];
    assert Escalations([]) == {};
  }

  lemma AssessedTells(r: SessionRecord, session: string, acts: seq<Act>, risk: Risk)
    requires Tells(r, session, acts)
    ensures Tells(Sessions.WithRisk(r, risk.score, risk.state), session, acts + [Assessed(risk)])
  {
    OneMore(acts, Assessed(risk));
  }

  lemma DeniedTells(r: SessionRecord, session: string, acts: seq<Act>, score: int)
    requires Tells(r, session, acts)
    ensures Tells(Sessions.Attempted(Sessions.Refused(r), score), session, acts + [WasDenied(score)])
  {
    OneMore(acts, WasDenied(score));
    EscalationsGrow(Denials(acts), score);
  }

  lemma ToolTells(r: SessionRecord, session: string, acts: seq<Act>)
    requires Tells(r, session, acts)
    ensures Tells(Sessions.ToolUsed(r), session, acts + [UsedTool])
  {
    OneMore(acts, UsedTool);
  }

  // ----- one event more

  /** The session as the state has it: absent without a history, and otherwise telling it. */
  predicate Agrees(g: Gateway, session: string, acts: seq<Act>) {
    if session in g.sessions then Tells(g.sessions[session], session, acts) else acts == []
  }

  lemma ArrivedTells(g: Gateway, req: Request, session: string, acts: seq<Act>)
    requires Agrees(g, session, acts) && Names(req, session)
    ensures SessionOf(req) == session && Tells(Arrived(g, req), session, acts + [Came(req, g.now)])
  {
    if session in g.sessions {
      ComeTells(g.sessions[session], session, acts, req, g.now);
    } else {
      FirstTells(session, req, g.now);
      assert acts + [Came(req, g.now)] == [Came(req, g.now)];
    }
  }

  lemma RiskTells(g: Gateway, req: Request, session: string, acts: seq<Act>)
    requires Tells(Arrived(g, req), session, acts + [Came(req, g.now)])
    ensures var risk := RiskOn(g, req);
            Tells(Sessions.WithRisk(Arrived(g, req), risk.score, risk.state), session,
                  acts + [Came(req, g.now), Assessed(risk)])
  {
    var came, risk := acts + [Came(req, g.now)], RiskOn(g, req);
    AssessedTells(Arrived(g, req), session, came, risk);
    assert came + [Assessed(risk)] == acts + [Came(req, g.now), Assessed(risk)];
  }

  lemma BeginAgrees(cfg: Config, g: Gateway, id: nat, req: Request, session: string, acts: seq<Act>)
    requires Agrees(g, session, acts) && MayBegin(g, id, req)
    ensures Agrees(BeginStep(cfg, g, id, req), session, acts + ActsAt(cfg, g, Begin(id, req), session))
  {
    BeginParts(cfg, g, id, req);
    if !Names(req, session) {
      assert SessionOf(req) != session;
      assert acts + [] == acts;
    } else {
      ArrivedTells(g, req, session, acts);
      RiskTells(g, req, session, acts);
    }
  }

  lemma GuardAgrees(cfg: Config, g: Gateway, id: nat, guard: Option<Guard>, session: string, acts: seq<Act>)
    requires Agrees(g, session, acts) && Inv(g) && id in g.flights && g.flights[id].phase.AwaitingGuard?
    ensures Agrees(GuardStep(cfg, g, id, g.flights[id], guard), session,
                   acts + ActsAt(cfg, g, GuardAnswered(id, guard), session))
  {
    var f := g.flights[id];
    GuardParts(cfg, g, id, f, guard);
    if f.session == session && Decide(cfg.bundle, f.envelope.(guard := guard)).action == Deny {
      DeniedTells(g.sessions[session], session, acts, ScanScore(f.envelope));
    } else {
      assert acts + [] == acts;
    }
  }

  lemma ToolsAgree(cfg: Config, g: Gateway, id: nat, items: seq<Tools.Item>, session: string, acts: seq<Act>)
    requires Agrees(g, session, acts) && Inv(g) && id in g.flights && g.flights[id].phase.Proceeding?
    ensures Agrees(ToolsStep(cfg, g, id, g.flights[id], items), session,
                   acts + ActsAt(cfg, g, ToolsRun(id, items), session))
  {
    var f := g.flights[id];
    if f.session == session && SomeToolRuns(cfg, f, items) {
      ToolTells(g.sessions[session], session, acts);
    } else {
      assert acts + [] == acts;
    }
  }

  lemma StepAgrees(cfg: Config, g: Gateway, e: Event, session: string, acts: seq<Act>)
    requires Agrees(g, session, acts) && Inv(g)
    ensures Agrees(Step(cfg, g, e), session,
                   if e.Restart? && !cfg.persistent then [] else acts + ActsAt(cfg, g, e, session))
  {
    assert acts + [] == acts;
    match e {
      case Begin(id, req) =>
        if MayBegin(g, id, req) {
          BeginAgrees(cfg, g, id, req, session, acts);
        }
      case GuardAnswered(id, guard) =>
        if id in g.flights && g.flights[id].phase.AwaitingGuard? {
          GuardAgrees(cfg, g, id, guard, session, acts);
        }
      case ToolsRun(id, items) =>
        if id in g.flights && g.flights[id].phase.Proceeding? {
          ToolsAgree(cfg, g, id, items, session, acts);
        }
      case _ =>
    }
  }

  /** In every reachable state a session exists exactly when the run began a request in it,
      in memory since the last restart; and then every field of its record is what that
      history says: who came first and when, how many requests, messages and attachments,
      the scores of all admitted requests and the state of the last, one refusal and one
      attempt a denial, an escalation for each denial after the first that scored 60 or
      more, and a tool request for each time some tool ran. */
  lemma {:induction false} SessionIsItsHistory(cfg: Config, now: real, es: seq<Event>, session: string)
    ensures Agrees(Run(cfg, Start(now), es), session, ActsOf(cfg, now, es, session))
    decreases |es|
  {
    if es != [] {
      var n := |es| - 1;
      SessionIsItsHistory(cfg, now, es[..n], session);
      Provenance.RunLast(cfg, Start(now), es);
      RunKeepsInv(cfg, Start(now), es[..n]);
      StepAgrees(cfg, Run(cfg, Start(now), es[..n]), es[n], session, ActsOf(cfg, now, es[..n], session));
    }
  }

  // ----- what the limiter sees of a request

  /** The latest time announced. */
  function Latest(now: real, es: seq<Event>): real {
    if es == [] then now
    else
      var before := Latest(now, es[..|es| - 1]);
      if es[|es| - 1].Tick? && before <= es[|es| - 1].now then es[|es| - 1].now else before
  }

  lemma {:induction false} ClockIsLatest(cfg: Config, now: real, es: seq<Event>)
    ensures Run(cfg, Start(now), es).now == Latest(now, es)
    decreases |es|
  {
    if es != [] {
      ClockIsLatest(cfg, now, es[..|es| - 1]);
      Provenance.RunLast(cfg, Start(now), es);
    }
  }

  /** The call that a request makes to the limiter: under its client and subject, at the
      latest time, with its own scan score, the number of denials in its session, and the
      factors that the client's refusals have earned. */
  lemma CallIsItsHistory(cfg: Config, now: real, es: seq<Event>, req: Request, session: string)
    requires Names(req, session) && session != ""
    ensures var c, codes := LimiterCall(Run(cfg, Start(now), es), req),
                            Profiles.AllCodes(RefusalsOf(cfg, Start(now), es, (req.client, req.subject)));
            && c.key == req.client + ":" + req.subject && c.now == Latest(now, es) && c.severity == req.scan.score
            && c.attempts == |Denials(ActsOf(cfg, now, es, session))|
            && c.multiplier == Profiles.Earned(codes)
  {
    SessionIsItsHistory(cfg, now, es, session);
    ClockIsLatest(cfg, now, es);
    Pressure.ReachableMultiplier(cfg, now, es, (req.client, req.subject));
  }

  lemma {:induction false} CallsConcat(cfg: Config, g: Gateway, es: seq<Event>, e: Event)
    ensures CallsOf(cfg, g, es + [e]) == CallsOf(cfg, g, es) + CallAt(cfg, Run(cfg, g, es), e)
    decreases |es|
  {
    if es == [] {
      assert [] + [e] == [e] && [e][1..] == [];
      assert CallsOf(cfg, g, [e]) == CallAt(cfg, g, e) + [];
    } else {
      assert (es + [e])[1..] == es[1..] + [e];
      CallsConcat(cfg, Step(cfg, g, es[0]), es[1..], e);
    }
  }

  /** The last of a run's limiter calls, when the run ends in a request that begins. */
  lemma LastCall(cfg: Config, now: real, es: seq<Event>, id: nat, req: Request)
    requires cfg.persistent || NoRestart(es)
    requires MayBegin(Run(cfg, Start(now), es), id, req)
    ensures var g, calls := Run(cfg, Start(now), es), CallsOf(cfg, Start(now), es + [Begin(id, req)]);
            && calls == CallsOf(cfg, Start(now), es) + [LimiterCall(g, req)]
            && RateLimit.ClockFrom(now, calls)
            && g.limiter == RateLimit.Run(cfg.limit, RateLimit.EMPTY, CallsOf(cfg, Start(now), es)).0
  {
    CallsConcat(cfg, Start(now), es, Begin(id, req));
    LimiterSeesCalls(cfg, Start(now), es, "");
    LimiterSeesCalls(cfg, Start(now), es + [Begin(id, req)], "");
  }

  lemma LastVerdict(cfg: RateLimit.Config, calls: seq<RateLimit.Call>, c: RateLimit.Call)
    ensures var vs := RateLimit.Run(cfg, RateLimit.EMPTY, calls + [c]).1;
            && |vs| == |calls| + 1
            && vs[|calls|] == RateLimit.Allow(cfg, RateLimit.Run(cfg, RateLimit.EMPTY, calls).0, c).1
  {
    Verdicts.RunUpTo(cfg, RateLimit.EMPTY, calls + [c], |calls|);
    assert (calls + [c])[..|calls|] == calls;
  }

  /** The verdict on a request that begins is the one that the earlier calls and answers of
      the run call for: every interleaving of requests gets the answers of the log. */
  lemma BeginIsExplained(cfg: Config, now: real, es: seq<Event>, id: nat, req: Request)
    requires cfg.persistent || NoRestart(es)
    requires MayBegin(Run(cfg, Start(now), es), id, req)
    ensures var g, earlier := Run(cfg, Start(now), es), CallsOf(cfg, Start(now), es);
            var calls := earlier + [LimiterCall(g, req)];
            var vs := RateLimit.Run(cfg.limit, RateLimit.EMPTY, calls).1;
            Verdicts.AllExplained(cfg.limit, calls, vs) && vs[|earlier|] == VerdictOn(cfg, g, req)
  {
    LastCall(cfg, now, es, id, req);
    var g, earlier := Run(cfg, Start(now), es), CallsOf(cfg, Start(now), es);
    LastVerdict(cfg.limit, earlier, LimiterCall(g, req));
    Verdicts.RunIsExplained(cfg.limit, now, earlier + [LimiterCall(g, req)]);
  }
}
