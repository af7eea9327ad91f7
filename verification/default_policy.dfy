/** What the classifier and the default bundle answer, for every envelope, in terms of what
    the envelope holds: no rule, condition or first match is mentioned in the results. */
module DefaultPolicy {
  import opened Records
  import opened Policy

  // ----- classification by its evidence

  predicate AttackSeen(e: Envelope) {
    || PromptInjectionSeen in ScanLabels(e) || JailbreakSeen in ScanLabels(e)
    || SecretExfiltration in ScanLabels(e) || ExploitIntent in ScanLabels(e)
  }

  predicate SensitiveData(e: Envelope) {
    Secret in DlpLabels(e) || Pii in DlpLabels(e) || Financial in DlpLabels(e)
  }

  /** One of the four attacks, by the guard's account. */
  predicate Accuses(g: Guard) {
    || g.kind == Content(PromptInjection) || g.kind == Content(JailbreakAttempt)
    || g.kind == Content(SecretExfiltrationIntent) || g.kind == Content(ExploitOrMalwareIntent)
  }

  /** An exfiltration by the guard's account that the scan takes for mere data. */
  predicate MereSubmission(e: Envelope) {
    e.guard.Some? && e.guard.value.kind == Content(SecretExfiltrationIntent) && !AttackSeen(e) && SensitiveData(e)
  }

  /** A confident accusation that nothing in the scan bears out. */
  predicate Unconfirmed(e: Envelope) {
    && e.guard.Some? && Accuses(e.guard.value) && e.guard.value.confidence >= 0.75
    && !AttackSeen(e) && ScanScore(e) < 50 && !MereSubmission(e)
  }

  /** A lenient answer, short of near certainty, against strong deterministic signals. */
  predicate Contradicted(e: Envelope) {
    && e.guard.Some? && e.guard.value.action in {GuardAllow, GuardRestrict} && e.guard.value.confidence < 0.95
    && (|| ScanScore(e) >= 50 || DlpScore(e) >= 40 || PromptInjectionSeen in ScanLabels(e)
        || JailbreakSeen in ScanLabels(e) || SecretExfiltration in ScanLabels(e))
  }

  /** The guard's label is taken over. */
  predicate Trusted(e: Envelope) {
    && e.guard.Some? && (Accuses(e.guard.value) || e.guard.value.kind == Content(SensitiveDataSubmission))
    && e.guard.value.confidence >= 0.75
    && !MereSubmission(e) && !Unconfirmed(e) && !Contradicted(e)
  }

  predicate GuardSays(e: Envelope, kind: ContentLabel) {
    Trusted(e) && e.guard.value.kind == Content(kind)
  }

  /** The guard has no say: the deterministic signals decide. */
  predicate GuardSilent(e: Envelope) {
    !MereSubmission(e) && !Unconfirmed(e) && !Trusted(e)
  }

  /** For each label the evidence for it, whatever the order of the checks. */
  predicate ClassedAs(e: Envelope, kind: ContentLabel) {
    var labels, data := ScanLabels(e), DlpLabels(e);
    var injection := PromptLeakage in labels || PromptInjectionSeen in labels;
    var submission := Secret in data || Financial in data;
    var nothing := !AttackSeen(e) && PromptLeakage !in labels && !submission;
    var raised := ScanScore(e) >= 20 || DlpScore(e) >= 20 || SessionRisk(e) == Elevated || SessionRisk(e) == Restricted;
    match kind
    case PromptInjection => GuardSays(e, PromptInjection) || (GuardSilent(e) && injection)
    case JailbreakAttempt =>
      || GuardSays(e, JailbreakAttempt)
      || (GuardSilent(e) && !injection && (JailbreakSeen in labels || (nothing && ScanScore(e) >= 50)))
    case SecretExfiltrationIntent =>
      || GuardSays(e, SecretExfiltrationIntent)
      || (GuardSilent(e) && !injection && JailbreakSeen !in labels && SecretExfiltration in labels)
    case ExploitOrMalwareIntent =>
      || GuardSays(e, ExploitOrMalwareIntent)
      || (GuardSilent(e) && !injection && JailbreakSeen !in labels && SecretExfiltration !in labels
          && ExploitIntent in labels)
    case SensitiveDataSubmission =>
      || GuardSays(e, SensitiveDataSubmission)
      || MereSubmission(e)
      || (Unconfirmed(e) && SensitiveData(e))
      || (GuardSilent(e) && !AttackSeen(e) && PromptLeakage !in labels && submission)
    case Suspicious =>
      || (Unconfirmed(e) && !SensitiveData(e))
      || (GuardSilent(e) && nothing && ScanScore(e) < 50 && raised)
    case Benign => GuardSilent(e) && nothing && ScanScore(e) < 50 && !raised
  }

  /** The classifier gives a label if and only if there is the evidence for it. */
  lemma ClassifiedExactly(e: Envelope, kind: ContentLabel)
    ensures Classify(e).kind == kind <==> ClassedAs(e, kind)
  {
  }

  /** And with which confidence. */
  lemma ConfidenceExactly(e: Envelope)
    ensures Trusted(e) ==> Classify(e).confidence == e.guard.value.confidence
    ensures MereSubmission(e) ==>
              Classify(e).confidence == if e.guard.value.confidence < 0.9 then e.guard.value.confidence else 0.9
    ensures Unconfirmed(e) ==> Classify(e).confidence == if SensitiveData(e) then 0.8 else 0.7
    ensures GuardSilent(e) ==>
              Classify(e).confidence == match Classify(e).kind
                case PromptInjection => if PromptLeakage in ScanLabels(e) then 0.95 else 0.9
                case JailbreakAttempt => if JailbreakSeen in ScanLabels(e) then 0.9 else 0.8
                case SecretExfiltrationIntent => 0.95
                case ExploitOrMalwareIntent => 0.9
                case SensitiveDataSubmission => 0.88
                case Suspicious => 0.65
                case Benign => 0.9
  {
  }

  // ----- the rules, one by one

  predicate Hateful(e: Envelope) { HateContent in ScanLabels(e) || DiscriminatoryContent in ScanLabels(e) }

  /** When the rule at each place in the bundle matches a classified envelope. */
  predicate RuleMeans(i: nat, e: Envelope, c: Classification) {
    match i
    case 0 => "llm:chat" !in e.permissions
    case 1 => MetadataInjection in DlpLabels(e)
    case 2 => SecretExfiltration in ScanLabels(e)
    case 3 => PromptLeakage in ScanLabels(e)
    case 4 => c.kind == PromptInjection
    case 5 => c.kind == JailbreakAttempt
    case 6 => ModerationBypass in ScanLabels(e)
    case 7 => c.kind == PromptInjection && Obfuscation in ScanLabels(e)
    case 8 => c.kind == JailbreakAttempt && Obfuscation in ScanLabels(e)
    case 9 => c.kind == SecretExfiltrationIntent && c.confidence >= 0.9
    case 10 => c.kind == ExploitOrMalwareIntent && c.confidence >= 0.85
    case 11 => c.kind == SensitiveDataSubmission && DlpScore(e) >= 60
    case 12 => HateContent in ScanLabels(e) && SessionRisk(e) == Restricted
    case 13 => DiscriminatoryContent in ScanLabels(e) && SessionRisk(e) == Restricted
    case 14 => HateContent in ScanLabels(e) && SessionRisk(e) == Elevated
    case 15 => DiscriminatoryContent in ScanLabels(e) && SessionRisk(e) == Elevated
    case 16 => false
    case 17 => c.kind == Suspicious && c.confidence >= 0.9 && ScanScore(e) >= 50
    case 18 => HateContent in ScanLabels(e)
    case 19 => DiscriminatoryContent in ScanLabels(e)
    case 20 => InsultContent in ScanLabels(e)
    case 21 => c.kind == SecretExfiltrationIntent
    case 22 => c.kind == ExploitOrMalwareIntent
    case 23 => Secret in DlpLabels(e)
    case 24 => c.kind == SensitiveDataSubmission
    case 25 => DlpScore(e) >= 40
    case _ => SessionRisk(e) == Blocked
  }

  lemma ByConditions(r: Rule, e: Envelope)
    requires 1 <= |r.condition| <= 3
    ensures Matches(r, e) <==>
              && r.enabled && Holds(r.condition[0], e)
              && (|r.condition| > 1 ==> Holds(r.condition[1], e)) && (|r.condition| > 2 ==> Holds(r.condition[2], e))
  {
    assert forall c | c in r.condition :: exists k | 0 <= k < |r.condition| :: r.condition[k] == c;
  }

  lemma EarlyRule(i: nat, e: Envelope)
    requires i < 9 && e.classification.Some?
    ensures Matches(StrictRules()[i], e) <==> RuleMeans(i, e, e.classification.value)
  {
    ByConditions(StrictRules()[i], e);
  }

  lemma ConfidenceRule(i: nat, e: Envelope)
    requires 9 <= i < 13 && e.classification.Some?
    ensures Matches(StrictRules()[i], e) <==> RuleMeans(i, e, e.classification.value)
  {
    ByConditions(StrictRules()[i], e);
  }

  lemma SessionRule(i: nat, e: Envelope)
    requires 13 <= i < 18 && e.classification.Some?
    ensures Matches(StrictRules()[i], e) <==> RuleMeans(i, e, e.classification.value)
  {
    ByConditions(StrictRules()[i], e);
  }

  lemma LateRule(i: nat, e: Envelope)
    requires 18 <= i < 27 && e.classification.Some?
    ensures Matches(StrictRules()[i], e) <==> RuleMeans(i, e, e.classification.value)
  {
    ByConditions(StrictRules()[i], e);
  }

  lemma RuleMatches(i: nat, e: Envelope)
    requires i < 27 && e.classification.Some?
    ensures |StrictRules()| == 27 && (Matches(StrictRules()[i], e) <==> RuleMeans(i, e, e.classification.value))
  {
    if i < 9 {
      EarlyRule(i, e);
    } else if i < 13 {
      ConfidenceRule(i, e);
    } else if i < 18 {
      SessionRule(i, e);
    } else {
      LateRule(i, e);
    }
  }

  // ----- the first rule that matches

  function Classified(e: Envelope): Envelope {
    e.(classification := Some(Classify(e)))
  }

  /** The rule at this place matches once the envelope is classified. */
  predicate Hits(i: nat, e: Envelope) {
    RuleMeans(i, e, Classify(e))
  }

  lemma RuleHits(i: nat, e: Envelope)
    requires i < 27
    ensures |StrictRules()| == 27 && (Matches(StrictRules()[i], Classified(e)) <==> Hits(i, e))
  {
    RuleMatches(i, Classified(e));
  }

  function ActionAt(i: nat): Action {
    if i < 14 || i >= 26 then Deny else if i < 18 then Challenge else AllowWithRestrictions
  }

  lemma StrictAt(i: nat)
    requires i < 27
    ensures |StrictRules()| == 27
    ensures StrictRules()[i].decision == Strict(ActionAt(i), StrictRules()[i].decision.reasons[0])
  {
  }

  /** When a strict rule hits, the first one that does decides. */
  lemma FirstStrict(e: Envelope, k: nat) returns (i: nat)
    requires k < 27 && Hits(k, e)
    ensures i <= k && Hits(i, e) && (forall j: nat | j < i :: !Hits(j, e))
    ensures |StrictRules()| == 27 && Decide(DefaultBundle(), e) == StrictRules()[i].decision
    ensures Decide(DefaultBundle(), e) == Strict(ActionAt(i), StrictRules()[i].decision.reasons[0])
  {
    var e' := Classified(e);
    RuleHits(k, e);
    StrictMatchContained(e', k);
    i := FirstMatchFound(StrictRules(), e');
    RuleHits(i, e);
    forall j: nat | j < i
      ensures !Hits(j, e)
    {
      RuleHits(j, e);
    }
    StrictAt(i);
  }

  lemma NoStrict(e: Envelope)
    requires forall k: nat | k < 27 :: !Hits(k, e)
    ensures Decide(DefaultBundle(), e) == match FirstMatch(OpenRules(), Classified(e))
                                          case Some(d) => d
                                          case None => DefaultBundle().defaultDecision
  {
    var e' := Classified(e);
    if FirstMatch(StrictRules(), e').Some? {
      var i := FirstMatchFound(StrictRules(), e');
      RuleHits(i, e);
    }
    FirstMatchConcat(StrictRules(), OpenRules(), e');
  }

  lemma OpenOutcome(e: Envelope)
    requires ScanScore(e) < 50
    ensures FirstMatch(OpenRules(), e) ==
              if SessionRisk(e) == Elevated then
                Some(Decision(AllowWithRestrictions, [ElevatedRiskMode], true, true, InternalData, GuardedMode, false))
              else if !e.stepUp then
                Some(Decision(AllowWithRestrictions, [NoStepUpAuth], true, true, PublicData, GuardedMode, false))
              else None
  {
    var rules := OpenRules();
    ByConditions(rules[0], e);
    ByConditions(rules[1], e);
    ByConditions(rules[2], e);
    assert rules[1..] == [rules[1], rules[2]] && [rules[1], rules[2]][1..] == [rules[2]] && [rules[2]][1..] == [];
    assert FirstMatch([rules[2]], e) == if e.stepUp then None else Some(rules[2].decision);
    assert FirstMatch(rules, e) == FirstMatch(rules[1..], e);
  }

  // ----- what is answered

  /** The guard changes nothing about a request without grounds against it: it does not find
      sensitive data, nor an attack where there is personal data. */
  predicate GuardHarmless(g: Guard, personal: bool) {
    && !(g.kind == Content(SensitiveDataSubmission) && g.confidence >= 0.75)
    && (personal ==> g.kind != Content(SecretExfiltrationIntent) && !(Accuses(g) && g.confidence >= 0.75))
  }

  /** Nothing in the request speaks against it. */
  predicate Harmless(e: Envelope) {
    && "llm:chat" in e.permissions
    && !AttackSeen(e) && PromptLeakage !in ScanLabels(e) && ModerationBypass !in ScanLabels(e)
    && !Hateful(e) && InsultContent !in ScanLabels(e) && ScanScore(e) < 50
    && MetadataInjection !in DlpLabels(e) && Secret !in DlpLabels(e) && Financial !in DlpLabels(e) && DlpScore(e) < 40
    && SessionRisk(e) != Blocked
    && (e.guard.Some? ==> GuardHarmless(e.guard.value, Pii in DlpLabels(e)))
  }

  lemma HarmlessClass(e: Envelope)
    requires !AttackSeen(e) && PromptLeakage !in ScanLabels(e) && ScanScore(e) < 50 && DlpScore(e) < 40
    requires Secret !in DlpLabels(e)
    ensures Classify(e).kind in {Benign, Suspicious} <==>
              Financial !in DlpLabels(e) && (e.guard.Some? ==> GuardHarmless(e.guard.value, Pii in DlpLabels(e)))
  {
  }

  lemma HarmlessExactly(e: Envelope)
    ensures Harmless(e) <==> forall k: nat | k < 27 :: !Hits(k, e)
  {
    var c := Classify(e);
    if Harmless(e) {
      HarmlessClass(e);
      forall k: nat | k < 27
        ensures !Hits(k, e)
      {
      }
    } else if forall k: nat | k < 27 :: !Hits(k, e) {
      NoHits(e);
      HarmlessClass(e);
      assert false;
    }
  }

  lemma NoHits(e: Envelope)
    requires forall k: nat | k < 27 :: !Hits(k, e)
    ensures "llm:chat" in e.permissions && !Hateful(e) && SessionRisk(e) != Blocked
    ensures PromptLeakage !in ScanLabels(e) && ModerationBypass !in ScanLabels(e) && InsultContent !in ScanLabels(e)
    ensures MetadataInjection !in DlpLabels(e) && Secret !in DlpLabels(e) && DlpScore(e) < 40
    ensures Classify(e).kind in {Benign, Suspicious}
    ensures !AttackSeen(e) && ScanScore(e) < 50
  {
    assert !Hits(0, e) && !Hits(1, e) && !Hits(3, e) && !Hits(6, e) && !Hits(18, e) && !Hits(19, e) && !Hits(20, e);
    assert !Hits(23, e) && !Hits(25, e) && !Hits(26, e);
    NoHitClass(e);
    if AttackSeen(e) || ScanScore(e) >= 50 {
      CorroboratedIsAttackClass(e);
    }
  }

  lemma NoHitClass(e: Envelope)
    requires forall k: nat | k < 27 :: !Hits(k, e)
    ensures Classify(e).kind in {Benign, Suspicious}
  {
    var c := Classify(e);
    assert !RuleMeans(4, e, c) && !RuleMeans(5, e, c) && !RuleMeans(21, e, c) && !RuleMeans(22, e, c)
           && !RuleMeans(24, e, c) by {
      assert !Hits(4, e) && !Hits(5, e) && !Hits(21, e) && !Hits(22, e) && !Hits(24, e);
    }
  }

  /** The whole decision on a request that nothing speaks against. */
  lemma HarmlessDecision(e: Envelope)
    requires Harmless(e)
    ensures Decide(DefaultBundle(), e) ==
              if SessionRisk(e) == Elevated then
                Decision(AllowWithRestrictions, [ElevatedRiskMode], true, true, InternalData, GuardedMode, false)
              else if !e.stepUp then
                Decision(AllowWithRestrictions, [NoStepUpAuth], true, true, PublicData, GuardedMode, false)
              else
                Decision(Allow, [AllowDefault], false, true, InternalData, NormalMode, false)
  {
    HarmlessExactly(e);
    NoStrict(e);
    OpenOutcome(Classified(e));
  }

  /** And on any other: tools and retrieval off, public data only, restricted answers. */
  lemma HarmfulDecision(e: Envelope)
    requires !Harmless(e)
    ensures var d := Decide(DefaultBundle(), e);
            && |d.reasons| == 1 && d == Decision(d.action, d.reasons, true, false, PublicData, RestrictedMode, false)
            && d.action != Allow
  {
    HarmlessExactly(e);
    var k: nat :| k < 27 && Hits(k, e);
    var i := FirstStrict(e, k);
  }

  /** A request is allowed outright if and only if nothing speaks against it, the caller has
      stepped up, and the session is not in the elevated state. */
  lemma AllowedExactly(e: Envelope)
    ensures Decide(DefaultBundle(), e).action == Allow <==> Harmless(e) && e.stepUp && SessionRisk(e) != Elevated
  {
    if Harmless(e) {
      HarmlessDecision(e);
    } else {
      HarmfulDecision(e);
    }
  }

  /** Tools are on exactly for such requests, retrieval for all that nothing speaks
      against. */
  lemma ToolsAndRetrievalExactly(e: Envelope)
    ensures Decide(DefaultBundle(), e).disableTools <==> Decide(DefaultBundle(), e).action != Allow
    ensures Decide(DefaultBundle(), e).allowRetrieval <==> Harmless(e)
  {
    if Harmless(e) {
      HarmlessDecision(e);
    } else {
      HarmfulDecision(e);
    }
  }

  /** The grounds on which a request is denied in any session. */
  predicate DenyGrounds(e: Envelope) {
    || "llm:chat" !in e.permissions
    || MetadataInjection in DlpLabels(e)
    || SecretExfiltration in ScanLabels(e) || PromptLeakage in ScanLabels(e) || ModerationBypass in ScanLabels(e)
    || ClassedAs(e, PromptInjection) || ClassedAs(e, JailbreakAttempt)
    || (GuardSays(e, SecretExfiltrationIntent) && e.guard.value.confidence >= 0.9)
    || (GuardSays(e, ExploitOrMalwareIntent) && e.guard.value.confidence >= 0.85)
    || (ClassedAs(e, ExploitOrMalwareIntent) && GuardSilent(e))
    || (ClassedAs(e, SensitiveDataSubmission) && DlpScore(e) >= 60)
    || (Hateful(e) && SessionRisk(e) == Restricted)
  }

  /** What is answered with restrictions before the state of the session is looked at. */
  predicate AnsweredFirst(e: Envelope) {
    || Hateful(e) || InsultContent in ScanLabels(e) || Secret in DlpLabels(e) || DlpScore(e) >= 40
    || ClassedAs(e, SecretExfiltrationIntent) || ClassedAs(e, ExploitOrMalwareIntent)
    || ClassedAs(e, SensitiveDataSubmission)
  }

  /** The place of a rule that denies on one of the grounds. */
  lemma GroundHit(e: Envelope) returns (k: nat)
    requires DenyGrounds(e)
    ensures k < 14 && Hits(k, e)
  {
    forall kind {
      ClassifiedExactly(e, kind);
    }
    ConfidenceExactly(e);
    if "llm:chat" !in e.permissions { k := 0; }
    else if MetadataInjection in DlpLabels(e) { k := 1; }
    else if SecretExfiltration in ScanLabels(e) { k := 2; }
    else if PromptLeakage in ScanLabels(e) { k := 3; }
    else if ClassedAs(e, PromptInjection) { k := 4; }
    else if ClassedAs(e, JailbreakAttempt) { k := 5; }
    else if ModerationBypass in ScanLabels(e) { k := 6; }
    else if GuardSays(e, SecretExfiltrationIntent) && e.guard.value.confidence >= 0.9 { k := 9; }
    else if ClassedAs(e, ExploitOrMalwareIntent) && (Trusted(e) ==> e.guard.value.confidence >= 0.85) { k := 10; }
    else if ClassedAs(e, SensitiveDataSubmission) && DlpScore(e) >= 60 { k := 11; }
    else if HateContent in ScanLabels(e) { k := 12; }
    else { k := 13; }
  }

  lemma EarlyHitIsGround(e: Envelope, k: nat)
    requires k < 14 && Hits(k, e)
    ensures DenyGrounds(e)
  {
    forall kind {
      ClassifiedExactly(e, kind);
    }
    ConfidenceExactly(e);
  }

  lemma LateHitAnswersFirst(e: Envelope)
    ensures AnsweredFirst(e) <==> exists k: nat :: 18 <= k < 26 && Hits(k, e)
  {
    forall kind {
      ClassifiedExactly(e, kind);
    }
    if Hateful(e) {
      assert Hits(18, e) || Hits(19, e);
    }
    assert InsultContent in ScanLabels(e) <==> Hits(20, e);
    assert ClassedAs(e, SecretExfiltrationIntent) <==> Hits(21, e);
    assert ClassedAs(e, ExploitOrMalwareIntent) <==> Hits(22, e);
    assert Secret in DlpLabels(e) <==> Hits(23, e);
    assert ClassedAs(e, SensitiveDataSubmission) <==> Hits(24, e);
    assert DlpScore(e) >= 40 <==> Hits(25, e);
  }

  lemma SuspicionNeverHits(e: Envelope)
    ensures !Hits(16, e) && !Hits(17, e)
  {
    if Hits(17, e) {
      HighScoreIsAttackClass(e);
    }
  }

  /** A request is denied if and only if there are grounds to deny it in any session, or
      the session is blocked and nothing in the request is answered first. */
  lemma DeniedExactly(e: Envelope)
    ensures Decide(DefaultBundle(), e).action == Deny <==>
              DenyGrounds(e) || (SessionRisk(e) == Blocked && !AnsweredFirst(e))
  {
    LateHitAnswersFirst(e);
    SuspicionNeverHits(e);
    if DenyGrounds(e) {
      var k := GroundHit(e);
      var i := FirstStrict(e, k);
    } else if SessionRisk(e) == Blocked && !AnsweredFirst(e) {
      var i := FirstStrict(e, 26);
      if i < 14 {
        EarlyHitIsGround(e, i);
      }
    } else if Harmless(e) {
      HarmlessDecision(e);
    } else {
      HarmlessExactly(e);
      var k: nat :| k < 27 && Hits(k, e);
      var i := FirstStrict(e, k);
      if i < 14 {
        EarlyHitIsGround(e, i);
      }
    }
  }

  /** A request is challenged if and only if there are no such grounds and it brings hateful
      or discriminatory content in an elevated session. */
  lemma ChallengedExactly(e: Envelope)
    ensures Decide(DefaultBundle(), e).action == Challenge <==>
              !DenyGrounds(e) && Hateful(e) && SessionRisk(e) == Elevated
  {
    SuspicionNeverHits(e);
    if DenyGrounds(e) {
      var k := GroundHit(e);
      var i := FirstStrict(e, k);
    } else if Hateful(e) && SessionRisk(e) == Elevated {
      var i := FirstStrict(e, if HateContent in ScanLabels(e) then 14 else 15);
      if i < 14 {
        EarlyHitIsGround(e, i);
      }
    } else if Harmless(e) {
      HarmlessDecision(e);
    } else {
      HarmlessExactly(e);
      var k: nat :| k < 27 && Hits(k, e);
      var i := FirstStrict(e, k);
    }
  }

  // ----- two consequences

  function InState(e: Envelope, score: int, state: RiskState): Envelope {
    e.(risk := Some(Risk(score, state)))
  }

  /** The graver state can get the more lenient answer: a request that an elevated session
      has restricted is allowed outright in a restricted session, if and only if nothing
      speaks against it and the caller has stepped up. */
  lemma RestrictedStateIsMoreLenient(e: Envelope, score: int)
    ensures Decide(DefaultBundle(), InState(e, score, Elevated)).action != Allow
    ensures Decide(DefaultBundle(), InState(e, score, Restricted)).action == Allow <==>
              Harmless(InState(e, score, Restricted)) && e.stepUp
  {
    AllowedExactly(InState(e, score, Elevated));
    AllowedExactly(InState(e, score, Restricted));
  }

  /** A blocked session is not always denied: content that is merely insulting is answered
      with restrictions, where content that nothing speaks against is denied. */
  lemma InsultEscapesBlock(e: Envelope)
    requires Harmless(InState(e, 0, Normal)) && e.scan.Some?
    ensures Decide(DefaultBundle(), InState(e, 90, Blocked)).action == Deny
    ensures var rude := e.(scan := Some(Scan(e.scan.value.score, e.scan.value.labels + {InsultContent})));
            Decide(DefaultBundle(), InState(rude, 90, Blocked)).action == AllowWithRestrictions
  {
    var rude := e.(scan := Some(Scan(e.scan.value.score, e.scan.value.labels + {InsultContent})));
    BlockedOnly(InState(e, 90, Blocked));
    BlockedOnly(InState(rude, 90, Blocked));
  }

  lemma BlockedOnly(e: Envelope)
    requires SessionRisk(e) == Blocked && ScanScore(e) < 50
    requires var mild := e.(scan := Some(Scan(ScanScore(e), ScanLabels(e) - {InsultContent})));
             Harmless(InState(mild, 0, Normal))
    ensures Decide(DefaultBundle(), e).action
            == if InsultContent in ScanLabels(e) then AllowWithRestrictions else Deny
  {
    HarmlessClass(e);
    forall kind {
      ClassifiedExactly(e, kind);
    }
    DeniedExactly(e);
    ChallengedExactly(e);
    AllowedExactly(e);
  }

  lemma {:induction false} GuardUnread(rules: seq<Rule>, e: Envelope, guard: Option<Guard>)
    ensures FirstMatch(rules, e.(guard := guard)) == FirstMatch(rules, e)
  {
    if rules != [] {
      GuardUnread(rules[1..], e, guard);
      assert forall c | c in rules[0].condition :: Holds(c, e.(guard := guard)) <==> Holds(c, e);
    }
  }

  /** An answer that neither accuses nor finds sensitive data, as the one that stands in for
      an answer that raised, leaves every bundle's decision to the other signals. */
  lemma UnheededGuard(b: Bundle, e: Envelope)
    requires e.guard.Some? && !Accuses(e.guard.value) && e.guard.value.kind != Content(SensitiveDataSubmission)
    ensures Decide(b, e) == Decide(b, e.(guard := None))
  {
    assert Classify(e) == Classify(e.(guard := None));
    GuardUnread(b.rules, e.(classification := Some(Classify(e))), None);
  }

  // ----- the denials that a profile counts

  const COUNTED: set<ReasonCode> :=
    { MetadataInjectionDetected, PromptInjectionDetected, JailbreakAttemptDetected, PromptInjectionWithObfuscation,
      JailbreakWithObfuscation }

  lemma EarlyReason(i: nat)
    requires i < 9
    ensures |StrictRules()| == 27
    ensures var r := StrictRules()[i].decision.reasons[0];
            && (r == MetadataInjectionDetected <==> i == 1) && (r == PromptInjectionDetected <==> i == 4)
            && (r == JailbreakAttemptDetected <==> i == 5) && (r == PromptInjectionWithObfuscation <==> i == 7)
            && (r == JailbreakWithObfuscation <==> i == 8)
  {
  }

  lemma LaterReason(i: nat)
    requires 9 <= i < 27
    ensures |StrictRules()| == 27 && StrictRules()[i].decision.reasons[0] !in COUNTED
  {
  }

  /** Past the four checks that come before the classification is looked at. */
  predicate ReachesClass(e: Envelope) {
    && "llm:chat" in e.permissions && MetadataInjection !in DlpLabels(e)
    && SecretExfiltration !in ScanLabels(e) && PromptLeakage !in ScanLabels(e)
  }

  lemma FirstHitNames(e: Envelope, i: nat)
    requires i < 27 && Hits(i, e) && forall j: nat | j < i :: !Hits(j, e)
    ensures i == 1 <==> "llm:chat" in e.permissions && MetadataInjection in DlpLabels(e)
    ensures i == 4 <==> ReachesClass(e) && Classify(e).kind == PromptInjection
    ensures i == 5 <==> ReachesClass(e) && Classify(e).kind == JailbreakAttempt
    ensures i != 7 && i != 8
  {
    assert i > 0 ==> !Hits(0, e);
    assert i > 1 ==> !Hits(1, e);
    assert i > 2 ==> !Hits(2, e);
    assert i > 3 ==> !Hits(3, e);
    assert i > 4 ==> !Hits(4, e);
    assert i > 5 ==> !Hits(5, e);
  }

  /** Which requests are denied for an injection or a jailbreak by name. */
  lemma CountedDenialsExactly(e: Envelope)
    ensures var r := Decide(DefaultBundle(), e).reasons;
            && (r == [MetadataInjectionDetected] <==>
                  "llm:chat" in e.permissions && MetadataInjection in DlpLabels(e))
            && (r == [PromptInjectionDetected] <==> ReachesClass(e) && ClassedAs(e, PromptInjection))
            && (r == [JailbreakAttemptDetected] <==> ReachesClass(e) && ClassedAs(e, JailbreakAttempt))
            && r != [PromptInjectionWithObfuscation] && r != [JailbreakWithObfuscation]
  {
    ClassifiedExactly(e, PromptInjection);
    ClassifiedExactly(e, JailbreakAttempt);
    if Harmless(e) {
      HarmlessDecision(e);
      HarmlessExactly(e);
      assert !Hits(1, e) && !Hits(4, e) && !Hits(5, e);
    } else {
      HarmlessExactly(e);
      var k: nat :| k < 27 && Hits(k, e);
      var i := FirstStrict(e, k);
      if i < 9 {
        EarlyReason(i);
      } else {
        LaterReason(i);
      }
      FirstHitNames(e, i);
    }
  }
}
