/** Where a request in flight comes from: every envelope that is decided on holds what its
    own request brought, and the decision on it is the bundle's. */
module Provenance {
  import opened Records
  import opened Policy
  import opened RiskEngine
  import opened Pipeline
  import Profiles
  import RateLimit
  import Sessions
  import Tools

  lemma {:induction false} RunLast(cfg: Config, g: Gateway, es: seq<Event>)
    requires es != []
    ensures Run(cfg, g, es) == Step(cfg, Run(cfg, g, es[..|es| - 1]), es[|es| - 1])
    decreases |es|
  {
    if |es| > 1 {
      RunLast(cfg, Step(cfg, g, es[0]), es[1..]);
      assert es[1..][..|es| - 2] == es[..|es| - 1][1..];
    } else {
      assert es[1..] == [] && es[..0] == [];
    }
  }

  /** The state in front of event i. */
  function Before(cfg: Config, now: real, es: seq<Event>, i: nat): Gateway
    requires i <= |es|
  {
    Run(cfg, Start(now), es[..i])
  }

  // ----- one step

  /** What a request brings to its decision, with the risk assessed when it came and the
      guard's answer, if there is one yet. */
  function Brought(req: Request, risk: Risk, guard: Option<Guard>): Envelope {
    Envelope(req.permissions, req.stepUp, Some(req.scan), Some(req.dlp), Some(risk), guard, None)
  }

  /** A flight as an admitted request starts it. */
  predicate Started(cfg: Config, g: Gateway, id: nat, req: Request, f: Flight) {
    && id !in g.flights && VerdictOn(cfg, g, req) == RateLimit.Allowed
    && f == Flight(if req.sessionId != "" then req.sessionId else req.freshId, req.client, req.subject,
                   Brought(req, Assess(Arrived(g, req), Some(req.scan), req.facts), None), AwaitingGuard)
  }

  /** A flight that the guard's answer has let pass. */
  predicate Passed(cfg: Config, f: Flight, guard: Option<Guard>, f': Flight) {
    var e := f.envelope.(guard := guard);
    && f.phase.AwaitingGuard? && Decide(cfg.bundle, e).action in {Allow, AllowWithRestrictions}
    && f' == f.(envelope := e, phase := Proceeding(Decide(cfg.bundle, e), Classify(e)))
  }

  /** An event that leaves a flight alone. */
  predicate Spares(e: Event, id: nat, f: Flight) {
    && !e.Restart? && e != Abandon(id)
    && (e.GuardAnswered? && e.id == id ==> f.phase.Proceeding?)
    && (e.ToolsRun? && e.id == id ==> f.phase.AwaitingGuard?)
  }

  /** A request is in flight after an event exactly because it was and the event leaves it
      alone or lets it pass, or because the event starts it. */
  lemma StepFlight(cfg: Config, g: Gateway, e: Event, id: nat)
    ensures var g' := Step(cfg, g, e);
            && (id in g.flights ==>
                  (id in g'.flights <==>
                     || Spares(e, id, g.flights[id])
                     || exists f' :: e.GuardAnswered? && e.id == id && Passed(cfg, g.flights[id], e.guard, f')))
            && (id in g.flights && id in g'.flights ==>
                  if Spares(e, id, g.flights[id]) then g'.flights[id] == g.flights[id]
                  else e.GuardAnswered? && Passed(cfg, g.flights[id], e.guard, g'.flights[id]))
            && (id !in g.flights ==>
                  (id in g'.flights <==> e.Begin? && e.id == id && MayBegin(g, id, e.request)
                                         && VerdictOn(cfg, g, e.request) == RateLimit.Allowed))
            && (id !in g.flights && id in g'.flights ==> Started(cfg, g, id, e.request, g'.flights[id]))
  {
    if id in g.flights && e.GuardAnswered? && e.id == id && g.flights[id].phase.AwaitingGuard? {
      var f := g.flights[id];
      var d := Decide(cfg.bundle, f.envelope.(guard := e.guard));
      if d.action in {Allow, AllowWithRestrictions} {
        assert Passed(cfg, f, e.guard, Step(cfg, g, e).flights[id]);
      }
    }
  }

  // ----- whole runs

  /** Event i of the run began the request, and nothing has ended it since; its guard's
      answer, once it has one, is that of event j. */
  ghost predicate ComesFrom(cfg: Config, now: real, es: seq<Event>, id: nat, f: Flight, i: nat, j: nat) {
    && i < |es| && es[i].Begin? && es[i].id == id
    && (forall k | i < k < |es| :: !es[k].Restart? && es[k] != Abandon(id))
    && exists f0 :: Started(cfg, Before(cfg, now, es, i), id, es[i].request, f0) && SinceStart(cfg, es, id, f0, f, i, j)
  }

  ghost predicate SinceStart(cfg: Config, es: seq<Event>, id: nat, f0: Flight, f: Flight, i: nat, j: nat)
    requires i < |es|
  {
    if f.phase.AwaitingGuard? then f == f0 && forall k | i < k < |es| && es[k].GuardAnswered? :: es[k].id != id
    else
      && i < j < |es| && es[j].GuardAnswered? && es[j].id == id && Passed(cfg, f0, es[j].guard, f)
      && (forall k | i < k < j && es[k].GuardAnswered? :: es[k].id != id)
      && (forall k | j < k < |es| && es[k].ToolsRun? :: es[k].id != id)
  }

  lemma LaterComesFrom(cfg: Config, now: real, es: seq<Event>, e: Event, id: nat, f: Flight, i: nat, j: nat)
    requires ComesFrom(cfg, now, es, id, f, i, j) && Spares(e, id, f)
    ensures ComesFrom(cfg, now, es + [e], id, f, i, j)
  {
    var all := es + [e];
    var f0 :| Started(cfg, Before(cfg, now, es, i), id, es[i].request, f0) && SinceStart(cfg, es, id, f0, f, i, j);
    assert all[..i] == es[..i] && forall k | 0 <= k < |es| :: all[k] == es[k];
    assert SinceStart(cfg, all, id, f0, f, i, j);
  }

  lemma PassedComesFrom(cfg: Config, now: real, es: seq<Event>, e: Event, id: nat, f: Flight, f': Flight, i: nat,
                        j: nat)
    requires ComesFrom(cfg, now, es, id, f, i, j) && e.GuardAnswered? && e.id == id && Passed(cfg, f, e.guard, f')
    ensures ComesFrom(cfg, now, es + [e], id, f', i, |es|)
  {
    var all := es + [e];
    var f0 :| Started(cfg, Before(cfg, now, es, i), id, es[i].request, f0) && SinceStart(cfg, es, id, f0, f, i, j);
    assert all[..i] == es[..i] && forall k | 0 <= k < |es| :: all[k] == es[k];
    assert SinceStart(cfg, all, id, f0, f', i, |es|);
  }

  lemma StartedComesFrom(cfg: Config, now: real, es: seq<Event>, e: Event, id: nat, f: Flight)
    requires e.Begin? && e.id == id && Started(cfg, Run(cfg, Start(now), es), id, e.request, f)
    ensures ComesFrom(cfg, now, es + [e], id, f, |es|, 0)
  {
    var all := es + [e];
    assert all[..|es|] == es;
    assert SinceStart(cfg, all, id, f, f, |es|, 0);
  }

  /** Every request in flight in a reachable state comes from an event of the run that began
      it: it holds that request's scan, data findings, permissions, step-up, client, subject
      and session, and the risk assessed at that moment; and if it proceeds, the bundle let
      it pass on these and its guard's answer. */
  lemma {:induction false} FlightComesFrom(cfg: Config, now: real, es: seq<Event>, id: nat) returns (i: nat, j: nat)
    requires id in Run(cfg, Start(now), es).flights
    ensures ComesFrom(cfg, now, es, id, Run(cfg, Start(now), es).flights[id], i, j)
    decreases |es|
  {
    var n := |es| - 1;
    var init, e := es[..n], es[n];
    var g := Run(cfg, Start(now), init);
    RunLast(cfg, Start(now), es);
    StepFlight(cfg, g, e, id);
    assert es == init + [e];
    if id in g.flights {
      i, j := FlightComesFrom(cfg, now, init, id);
      if Spares(e, id, g.flights[id]) {
        LaterComesFrom(cfg, now, init, e, id, g.flights[id], i, j);
      } else {
        PassedComesFrom(cfg, now, init, e, id, g.flights[id], Step(cfg, g, e).flights[id], i, j);
        j := n;
      }
    } else {
      StartedComesFrom(cfg, now, init, e, id, Step(cfg, g, e).flights[id]);
      i, j := n, 0;
    }
  }

  // ----- the guard's answer decides on what the request brought

  /** What the guard's answer does to a waiting flight. */
  lemma AnsweredFlight(cfg: Config, g: Gateway, id: nat, guard: Option<Guard>)
    requires id in g.flights && g.flights[id].phase.AwaitingGuard?
    ensures var g', f := Step(cfg, g, GuardAnswered(id, guard)), g.flights[id];
            var e, pair := f.envelope.(guard := guard), (f.client, f.subject);
            var d := Decide(cfg.bundle, e);
            && (id in g'.flights <==> d.action in {Allow, AllowWithRestrictions})
            && (id in g'.flights ==> g'.flights[id].envelope == e && g'.flights[id].phase == Proceeding(d, Classify(e)))
            && (d.action != Deny ==> g'.sessions == g.sessions && g'.profiles == g.profiles)
            && (d.action == Deny ==>
                  Found(g', pair) == Some(Profiles.Recorded(Profiles.ProfileToRefuse(Found(g, pair), pair, g.now),
                                                            CodeTexts(d.reasons), g.now)))
  {
    GuardParts(cfg, g, id, g.flights[id], guard);
  }

  /** The guard's answer takes a waiting request to the decision that the bundle makes on
      what the request brought and that answer: it goes on under it, or ends, and only a
      denial is recorded, with its codes, against the request's client and subject. */
  lemma AnswerDecides(cfg: Config, now: real, es: seq<Event>, id: nat, guard: Option<Guard>) returns (i: nat)
    requires id in Run(cfg, Start(now), es).flights && Run(cfg, Start(now), es).flights[id].phase.AwaitingGuard?
    ensures i < |es| && es[i].Begin? && es[i].id == id
    ensures var g, at, req := Run(cfg, Start(now), es), Before(cfg, now, es, i), es[i].request;
            var e := Brought(req, Assess(Arrived(at, req), Some(req.scan), req.facts), guard);
            var d, g', pair := Decide(cfg.bundle, e), Step(cfg, g, GuardAnswered(id, guard)), (req.client, req.subject);
            && (id in g'.flights <==> d.action in {Allow, AllowWithRestrictions})
            && (id in g'.flights ==> g'.flights[id].envelope == e && g'.flights[id].phase == Proceeding(d, Classify(e)))
            && (d.action != Deny ==> g'.sessions == g.sessions && g'.profiles == g.profiles)
            && (d.action == Deny ==>
                  Found(g', pair) == Some(Profiles.Recorded(Profiles.ProfileToRefuse(Found(g, pair), pair, g.now),
                                                            CodeTexts(d.reasons), g.now)))
  {
    var g, j := Run(cfg, Start(now), es), 0;
    i, j := FlightComesFrom(cfg, now, es, id);
    AnsweredFlight(cfg, g, id, guard);
    var at, req := Before(cfg, now, es, i), es[i].request;
    assert g.flights[id].envelope.(guard := guard)
           == Brought(req, Assess(Arrived(at, req), Some(req.scan), req.facts), guard);
  }

  // ----- attack-labelled requests

  /** One of the six attack labels, on the request's own scan. */
  predicate BringsAttack(req: Request) {
    || PromptInjectionSeen in req.scan.labels || PromptLeakage in req.scan.labels || JailbreakSeen in req.scan.labels
    || SecretExfiltration in req.scan.labels || ExploitIntent in req.scan.labels || ModerationBypass in req.scan.labels
  }

  /** Under the default bundle a request whose own scan has an attack label never uses a
      tool, whatever the guard answered and whatever tools it asks for: running tools under
      its number changes no session. */
  lemma AttacksNeverUseTools(cfg: Config, now: real, es: seq<Event>, id: nat, items: seq<Tools.Item>)
    requires cfg.bundle == DefaultBundle()
    requires forall k | 0 <= k < |es| && es[k].Begin? && es[k].id == id :: BringsAttack(es[k].request)
    ensures var g := Run(cfg, Start(now), es); Step(cfg, g, ToolsRun(id, items)).sessions == g.sessions
  {
    var g := Run(cfg, Start(now), es);
    if id in g.flights && g.flights[id].phase.Proceeding? {
      var i, j := FlightComesFrom(cfg, now, es, id);
      assert BringsAttack(es[i].request);
      LabelledRunsNothing(cfg, g.flights[id], items);
    }
  }

  /** A flight that proceeds under the default bundle with an attack label runs no tool. */
  lemma LabelledRunsNothing(cfg: Config, f: Flight, items: seq<Tools.Item>)
    requires f.phase.Proceeding? && f.phase.decision == Decide(DefaultBundle(), f.envelope)
    requires AttackLabelled(f.envelope)
    ensures !AnyAllowed(Tools.RunTools(items, ToolContextOf(cfg, f)))
  {
    NoGuardAnswerLiftsAttackLabel(f.envelope);
    Tools.DisabledToolsNeverRun(items, ToolContextOf(cfg, f));
  }
}
