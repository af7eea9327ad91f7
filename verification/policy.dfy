/** The decision chain: the content classifier of app/content_classifier.py, the
    conditions and first-match evaluation of app/policy_conditions.py and
    app/policy_service.py, and the bundle app/policies/default_policy.json. */
module Policy {
  import opened Records

  // ----- what the decision sees

  datatype ScanLabel =
    | PromptInjectionSeen | PromptLeakage | JailbreakSeen | SecretExfiltration | ExploitIntent
    | ModerationBypass | Obfuscation | HateContent | DiscriminatoryContent | InsultContent
    | OtherScanLabel(name: string)

  datatype DlpLabel = Secret | Pii | Financial | MetadataInjection | OtherDlpLabel(name: string)

  datatype ContentLabel =
    | Benign | Suspicious | PromptInjection | JailbreakAttempt | SecretExfiltrationIntent
    | ExploitOrMalwareIntent | SensitiveDataSubmission

  /** The guard shares the classifier's labels and has eight of its own. */
  datatype GuardLabel =
    | Content(kind: ContentLabel)
    | PolicyLeakage | UnsafeOutput | IndirectInjection | EncodingObfuscation
    | EscalationAttempt | DenialOfServiceAttempt | ToolAbuseAttempt | ModelTheftProbe

  datatype GuardAction = GuardAllow | GuardRestrict | GuardDeny | GuardRedact | GuardBlock

  datatype Scan = Scan(score: int, labels: set<ScanLabel>)
  datatype Dlp = Dlp(score: int, labels: set<DlpLabel>)
  datatype Risk = Risk(score: int, state: RiskState)
  datatype Guard = Guard(kind: GuardLabel, confidence: real, action: GuardAction)
  datatype Classification = Classification(kind: ContentLabel, confidence: real)

  datatype Envelope = Envelope(
    permissions: set<string>, stepUp: bool,
    scan: Option<Scan>, dlp: Option<Dlp>, risk: Option<Risk>, guard: Option<Guard>,
    classification: Option<Classification>)

  function ScanScore(e: Envelope): int { if e.scan.Some? then e.scan.value.score else 0 }
  function ScanLabels(e: Envelope): set<ScanLabel> { if e.scan.Some? then e.scan.value.labels else {} }
  function DlpScore(e: Envelope): int { if e.dlp.Some? then e.dlp.value.score else 0 }
  function DlpLabels(e: Envelope): set<DlpLabel> { if e.dlp.Some? then e.dlp.value.labels else {} }
  function SessionRisk(e: Envelope): RiskState { if e.risk.Some? then e.risk.value.state else Normal }

  // ----- classification

  const HARD_ATTACKS: set<GuardLabel> :=
    {Content(PromptInjection), Content(JailbreakAttempt), Content(SecretExfiltrationIntent),
     Content(ExploitOrMalwareIntent)}

  predicate CarriesSensitiveData(e: Envelope) {
    Secret in DlpLabels(e) || Pii in DlpLabels(e) || Financial in DlpLabels(e)
  }

  predicate Corroborated(e: Envelope) {
    || PromptInjectionSeen in ScanLabels(e)
    || JailbreakSeen in ScanLabels(e)
    || SecretExfiltration in ScanLabels(e)
    || ExploitIntent in ScanLabels(e)
    || ScanScore(e) >= 50
  }

  predicate DeterministicHighRisk(e: Envelope) {
    || ScanScore(e) >= 50
    || DlpScore(e) >= 40
    || PromptInjectionSeen in ScanLabels(e)
    || JailbreakSeen in ScanLabels(e)
    || SecretExfiltration in ScanLabels(e)
  }

  /** The classification from the guard's answer, or None when it falls through. */
  function FromGuard(e: Envelope, g: Guard): Option<Classification> {
    if && g.kind == Content(SecretExfiltrationIntent)
       && SecretExfiltration !in ScanLabels(e)
       && PromptInjectionSeen !in ScanLabels(e)
       && JailbreakSeen !in ScanLabels(e)
       && ExploitIntent !in ScanLabels(e)
       && CarriesSensitiveData(e)
    then
      Some(Classification(SensitiveDataSubmission, if g.confidence < 0.90 then g.confidence else 0.90))
    else if g.kind in HARD_ATTACKS && g.confidence >= 0.75 && !Corroborated(e) then
      if CarriesSensitiveData(e) then Some(Classification(SensitiveDataSubmission, 0.80))
      else Some(Classification(Suspicious, 0.70))
    else if && (g.action == GuardAllow || g.action == GuardRestrict)
            && DeterministicHighRisk(e)
            && g.confidence < 0.95
    then None
    else if (g.kind in HARD_ATTACKS || g.kind == Content(SensitiveDataSubmission)) && g.confidence >= 0.75 then
      Some(Classification(g.kind.kind, g.confidence))
    else None
  }

  function FromSignals(e: Envelope): Classification {
    if PromptLeakage in ScanLabels(e) then Classification(PromptInjection, 0.95)
    else if PromptInjectionSeen in ScanLabels(e) then Classification(PromptInjection, 0.90)
    else if JailbreakSeen in ScanLabels(e) then Classification(JailbreakAttempt, 0.90)
    else if SecretExfiltration in ScanLabels(e) then Classification(SecretExfiltrationIntent, 0.95)
    else if ExploitIntent in ScanLabels(e) then Classification(ExploitOrMalwareIntent, 0.90)
    else if Secret in DlpLabels(e) || Financial in DlpLabels(e) then Classification(SensitiveDataSubmission, 0.88)
    else if ScanScore(e) >= 50 then Classification(JailbreakAttempt, 0.80)
    else if ScanScore(e) >= 20 || DlpScore(e) >= 20 || SessionRisk(e) == Elevated || SessionRisk(e) == Restricted then
      Classification(Suspicious, 0.65)
    else Classification(Benign, 0.90)
  }

  function Classify(e: Envelope): Classification {
    match e.guard
    case None => FromSignals(e)
    case Some(g) =>
      match FromGuard(e, g)
      case Some(c) => c
      case None => FromSignals(e)
  }

  // ----- rules

  datatype Condition =
    | MissingPermission(permission: string)
    | ScanHasLabel(scanLabel: ScanLabel)
    | ScanScoreGte(minScan: int)
    | RiskStateIs(state: RiskState)
    | StepUpIs(expected: bool)
    | DlpHasLabel(dlpLabel: DlpLabel)
    | DlpScoreGte(minDlp: int)
    | ClassIs(classLabel: ContentLabel)
    | ConfidenceGte(minConfidence: real)
    | UnknownKey(key: string)

  predicate Holds(c: Condition, e: Envelope) {
    match c
    case MissingPermission(p) => p !in e.permissions
    case ScanHasLabel(l) => e.scan.Some? && l in e.scan.value.labels
    case ScanScoreGte(n) => e.scan.Some? && e.scan.value.score >= n
    case RiskStateIs(s) => e.risk.Some? && e.risk.value.state == s
    case StepUpIs(b) => e.stepUp == b
    case DlpHasLabel(l) => e.dlp.Some? && l in e.dlp.value.labels
    case DlpScoreGte(n) => e.dlp.Some? && e.dlp.value.score >= n
    case ClassIs(l) => e.classification.Some? && e.classification.value.kind == l
    case ConfidenceGte(x) => e.classification.Some? && e.classification.value.confidence >= x
    case UnknownKey(_) => false
  }

  datatype Action = Allow | AllowWithRestrictions | Deny | Challenge

  datatype Sensitivity = PublicData | InternalData | ConfidentialData | RestrictedData

  datatype ResponseMode = NormalMode | GuardedMode | RestrictedMode

  datatype ReasonCode =
    | MissingPermissionLlmChat | MetadataInjectionDetected | SecretExfiltrationAttempt | PromptLeakageAttempt
    | PromptInjectionDetected | JailbreakAttemptDetected | ModerationBypassAttemptDetected
    | PromptInjectionWithObfuscation | JailbreakWithObfuscation | SecretExfiltrationHighConfidence
    | ExploitOrMalwareHighConfidence | SensitiveDataHighDlpRisk | HateContentRestrictedSession
    | DiscriminatoryContentRestrictedSession | HateContentElevatedSession | DiscriminatoryContentElevatedSession
    | SensitiveSubmissionRequiresStepUp | HighConfidenceSuspiciousInput | HatefulContentDetected
    | DiscriminatoryContentDetected | InsultingContentDetected | SecretExfiltrationIntentDetected
    | ExploitOrMalwareIntentDetected | DlpSecretDetected | SensitiveDataSubmitted | DlpHighRiskContent
    | SessionRiskBlocked | RestrictedRiskMode | ElevatedRiskMode | NoStepUpAuth | AllowDefault
    | OtherReason(text: string)

  datatype Decision = Decision(
    action: Action, reasons: seq<ReasonCode>, disableTools: bool, allowRetrieval: bool,
    maxSensitivity: Sensitivity, mode: ResponseMode, enforceBudget: bool)

  datatype Rule = Rule(enabled: bool, condition: seq<Condition>, decision: Decision)

  datatype Bundle = Bundle(rules: seq<Rule>, defaultDecision: Decision)

  predicate Matches(r: Rule, e: Envelope) {
    r.enabled && forall c | c in r.condition :: Holds(c, e)
  }

  function FirstMatch(rules: seq<Rule>, e: Envelope): Option<Decision> {
    if rules == [] then None
    else if Matches(rules[0], e) then Some(rules[0].decision)
    else FirstMatch(rules[1..], e)
  }

  function Evaluate(b: Bundle, e: Envelope): Decision {
    match FirstMatch(b.rules, e)
    case Some(d) => d
    case None => b.defaultDecision
  }

  /** The loop that looks for the first enabled rule whose conditions all hold. */
  method EvaluateBundle(b: Bundle, e: Envelope) returns (d: Decision)
    ensures d == Evaluate(b, e)
    ensures (exists i :: 0 <= i < |b.rules| && Matches(b.rules[i], e) && d == b.rules[i].decision
                         && forall j :: 0 <= j < i ==> !Matches(b.rules[j], e))
            || (d == b.defaultDecision && forall j :: 0 <= j < |b.rules| ==> !Matches(b.rules[j], e))
  {
    for i := 0 to |b.rules|
      invariant forall j :: 0 <= j < i ==> !Matches(b.rules[j], e)
      invariant FirstMatch(b.rules, e) == FirstMatch(b.rules[i..], e)
    {
      if Matches(b.rules[i], e) {
        return b.rules[i].decision;
      }
    }
    d := b.defaultDecision;
  }

  // ----- first match, in general

  /** A first match is a matching rule with no matching rule before it. */
  lemma {:induction false} FirstMatchFound(rules: seq<Rule>, e: Envelope) returns (i: nat)
    requires FirstMatch(rules, e).Some?
    ensures i < |rules| && Matches(rules[i], e) && FirstMatch(rules, e) == Some(rules[i].decision)
    ensures forall j :: 0 <= j < i ==> !Matches(rules[j], e)
  {
    if Matches(rules[0], e) {
      i := 0;
    } else {
      var k := FirstMatchFound(rules[1..], e);
      i := k + 1;
      forall j | 0 <= j < i
        ensures !Matches(rules[j], e)
      {
        if j > 0 {
          assert rules[j] == rules[1..][j - 1];
        }
      }
    }
  }

  lemma {:induction false} SomeMatches(rules: seq<Rule>, e: Envelope, k: nat)
    requires k < |rules| && Matches(rules[k], e)
    ensures FirstMatch(rules, e).Some?
  {
    if k > 0 {
      assert rules[1..][k - 1] == rules[k];
      SomeMatches(rules[1..], e, k - 1);
    }
  }

  lemma {:induction false} FirstMatchConcat(a: seq<Rule>, b: seq<Rule>, e: Envelope)
    ensures FirstMatch(a + b, e) == if FirstMatch(a, e).Some? then FirstMatch(a, e) else FirstMatch(b, e)
  {
    if a == [] {
      assert a + b == b;
    } else {
      assert (a + b)[1..] == a[1..] + b;
      FirstMatchConcat(a[1..], b, e);
    }
  }

  /** A rule that does not match, or that comes after a matching one, can go. */
  lemma {:induction false} DropUnreached(rules: seq<Rule>, j: nat, e: Envelope)
    requires j < |rules|
    requires Matches(rules[j], e) ==> exists i :: 0 <= i < j && Matches(rules[i], e)
    ensures FirstMatch(rules[..j] + rules[j + 1..], e) == FirstMatch(rules, e)
  {
    assert rules == rules[..j] + ([rules[j]] + rules[j + 1..]);
    FirstMatchConcat(rules[..j], [rules[j]] + rules[j + 1..], e);
    FirstMatchConcat(rules[..j], rules[j + 1..], e);
    FirstMatchConcat([rules[j]], rules[j + 1..], e);
    assert [rules[j]][1..] == [];
    if Matches(rules[j], e) {
      var i :| 0 <= i < j && Matches(rules[i], e);
      SomeMatches(rules[..j], e, i);
    }
  }

  /** Removing a rule whose conditions include all those of an earlier enabled rule
      leaves every decision of the bundle unchanged. */
  lemma RemoveSubsumedRule(b: Bundle, i: nat, j: nat, e: Envelope)
    requires i < j < |b.rules| && b.rules[i].enabled
    requires forall c | c in b.rules[i].condition :: c in b.rules[j].condition
    ensures Evaluate(b.(rules := b.rules[..j] + b.rules[j + 1..]), e) == Evaluate(b, e)
  {
    if Matches(b.rules[j], e) {
      assert Matches(b.rules[i], e);
    }
    DropUnreached(b.rules, j, e);
  }

  /** A rule that is disabled or has a condition of unknown key never decides. */
  lemma UnreadableRuleNeverDecides(b: Bundle, j: nat, e: Envelope)
    requires j < |b.rules|
    requires !b.rules[j].enabled || exists key :: UnknownKey(key) in b.rules[j].condition
    ensures Evaluate(b.(rules := b.rules[..j] + b.rules[j + 1..]), e) == Evaluate(b, e)
  {
    if b.rules[j].enabled {
      var key :| UnknownKey(key) in b.rules[j].condition;
      assert !Holds(UnknownKey(key), e);
    }
    DropUnreached(b.rules, j, e);
  }

  /** An enabled rule without conditions leaves nothing to the rules behind it or to the
      default. */
  lemma UnconditionalRuleEnds(b: Bundle, j: nat, e: Envelope, rest: seq<Rule>, default: Decision)
    requires j < |b.rules| && b.rules[j].enabled && b.rules[j].condition == []
    ensures Evaluate(Bundle(b.rules[..j + 1] + rest, default), e) == Evaluate(b, e)
  {
    var front := b.rules[..j + 1];
    assert b.rules == front + b.rules[j + 1..] && Matches(front[j], e);
    SomeMatches(front, e, j);
    FirstMatchConcat(front, rest, e);
    FirstMatchConcat(front, b.rules[j + 1..], e);
  }

  // ----- the default bundle

  /** Tools off, retrieval off, public data only, restricted answer. */
  function Strict(action: Action, reason: ReasonCode): Decision {
    Decision(action, [reason], true, false, PublicData, RestrictedMode, false)
  }

  /** Rules 1 to 27 of the bundle: whatever the action, tools and retrieval are off. */
  function StrictRules(): seq<Rule> {
    [ Rule(true, [MissingPermission("llm:chat")], Strict(Deny, MissingPermissionLlmChat)),
      Rule(true, [DlpHasLabel(MetadataInjection)], Strict(Deny, MetadataInjectionDetected)),
      Rule(true, [ScanHasLabel(SecretExfiltration)], Strict(Deny, SecretExfiltrationAttempt)),
      Rule(true, [ScanHasLabel(PromptLeakage)], Strict(Deny, PromptLeakageAttempt)),
      Rule(true, [ClassIs(PromptInjection)], Strict(Deny, PromptInjectionDetected)),
      Rule(true, [ClassIs(JailbreakAttempt)], Strict(Deny, JailbreakAttemptDetected)),
      Rule(true, [ScanHasLabel(ModerationBypass)], Strict(Deny, ModerationBypassAttemptDetected)),
      Rule(true, [ClassIs(PromptInjection), ScanHasLabel(Obfuscation)], Strict(Deny, PromptInjectionWithObfuscation)),
      Rule(true, [ClassIs(JailbreakAttempt), ScanHasLabel(Obfuscation)], Strict(Deny, JailbreakWithObfuscation)),
      Rule(true, [ClassIs(SecretExfiltrationIntent), ConfidenceGte(0.9)],
           Strict(Deny, SecretExfiltrationHighConfidence)),
      Rule(true, [ClassIs(ExploitOrMalwareIntent), ConfidenceGte(0.85)], Strict(Deny, ExploitOrMalwareHighConfidence)),
      Rule(true, [ClassIs(SensitiveDataSubmission), DlpScoreGte(60)], Strict(Deny, SensitiveDataHighDlpRisk)),
      Rule(true, [ScanHasLabel(HateContent), RiskStateIs(Restricted)], Strict(Deny, HateContentRestrictedSession)),
      Rule(true, [ScanHasLabel(DiscriminatoryContent), RiskStateIs(Restricted)],
           Strict(Deny, DiscriminatoryContentRestrictedSession)),
      Rule(true, [ScanHasLabel(HateContent), RiskStateIs(Elevated)], Strict(Challenge, HateContentElevatedSession)),
      Rule(true, [ScanHasLabel(DiscriminatoryContent), RiskStateIs(Elevated)],
           Strict(Challenge, DiscriminatoryContentElevatedSession)),
      Rule(false, [ClassIs(SensitiveDataSubmission), StepUpIs(false)],
           Strict(Challenge, SensitiveSubmissionRequiresStepUp)),
      Rule(true, [ClassIs(Suspicious), ConfidenceGte(0.9), ScanScoreGte(50)],
           Strict(Challenge, HighConfidenceSuspiciousInput)),
      Rule(true, [ScanHasLabel(HateContent)], Strict(AllowWithRestrictions, HatefulContentDetected)),
      Rule(true, [ScanHasLabel(DiscriminatoryContent)], Strict(AllowWithRestrictions, DiscriminatoryContentDetected)),
      Rule(true, [ScanHasLabel(InsultContent)], Strict(AllowWithRestrictions, InsultingContentDetected)),
      Rule(true, [ClassIs(SecretExfiltrationIntent)], Strict(AllowWithRestrictions, SecretExfiltrationIntentDetected)),
      Rule(true, [ClassIs(ExploitOrMalwareIntent)], Strict(AllowWithRestrictions, ExploitOrMalwareIntentDetected)),
      Rule(true, [DlpHasLabel(Secret)], Strict(AllowWithRestrictions, DlpSecretDetected)),
      Rule(true, [ClassIs(SensitiveDataSubmission)], Strict(AllowWithRestrictions, SensitiveDataSubmitted)),
      Rule(true, [DlpScoreGte(40)], Strict(AllowWithRestrictions, DlpHighRiskContent)),
      Rule(true, [RiskStateIs(Blocked)], Strict(Deny, SessionRiskBlocked)) ]
  }

  /** Rules 28 to 30: tools off, retrieval allowed. */
  function OpenRules(): seq<Rule> {
    [ Rule(true, [ScanScoreGte(50)],
           Decision(AllowWithRestrictions, [RestrictedRiskMode], true, true, InternalData, RestrictedMode, false)),
      Rule(true, [RiskStateIs(Elevated)],
           Decision(AllowWithRestrictions, [ElevatedRiskMode], true, true, InternalData, GuardedMode, false)),
      Rule(true, [StepUpIs(false)],
           Decision(AllowWithRestrictions, [NoStepUpAuth], true, true, PublicData, GuardedMode, false)) ]
  }

  function DefaultBundle(): Bundle {
    Bundle(StrictRules() + OpenRules(),
           Decision(Allow, [AllowDefault], false, true, InternalData, NormalMode, false))
  }

  /** The decision the pipeline takes: classify, then evaluate. */
  function Decide(b: Bundle, e: Envelope): Decision {
    Evaluate(b, e.(classification := Some(Classify(e))))
  }

  predicate Contained(d: Decision) {
    d.action != Allow && d.disableTools && !d.allowRetrieval
  }

  lemma StrictRuleContained(i: nat)
    requires i < |StrictRules()|
    ensures Contained(StrictRules()[i].decision)
  {
    var d := StrictRules()[i].decision;
    assert d == Strict(d.action, d.reasons[0]);
  }

  /** When any of the first 27 rules matches, the answer is contained. */
  lemma StrictMatchContained(e: Envelope, k: nat)
    requires k < |StrictRules()| && Matches(StrictRules()[k], e)
    ensures FirstMatch(StrictRules(), e).Some? && Evaluate(DefaultBundle(), e) == FirstMatch(StrictRules(), e).value
    ensures Contained(Evaluate(DefaultBundle(), e))
  {
    SomeMatches(StrictRules(), e, k);
    FirstMatchConcat(StrictRules(), OpenRules(), e);
    var i := FirstMatchFound(StrictRules(), e);
    StrictRuleContained(i);
  }

  predicate AttackLabelled(e: Envelope) {
    || PromptInjectionSeen in ScanLabels(e) || PromptLeakage in ScanLabels(e) || JailbreakSeen in ScanLabels(e)
    || SecretExfiltration in ScanLabels(e) || ExploitIntent in ScanLabels(e) || ModerationBypass in ScanLabels(e)
  }

  /** A rule of the bundle that restricts each classification other than benign and
      suspicious. */
  function RuleFor(kind: ContentLabel): nat {
    match kind
    case PromptInjection => 4
    case JailbreakAttempt => 5
    case SecretExfiltrationIntent => 21
    case ExploitOrMalwareIntent => 22
    case SensitiveDataSubmission => 24
    case _ => 0
  }

  lemma AttackClassMatches(e: Envelope)
    requires e.classification.Some? && !e.classification.value.kind.Benign? && !e.classification.value.kind.Suspicious?
    ensures Matches(StrictRules()[RuleFor(e.classification.value.kind)], e)
  {
  }

  /** Corroborating labels rule out the two harmless classifications. */
  lemma CorroboratedIsAttackClass(e: Envelope)
    requires Corroborated(e)
    ensures var l := Classify(e).kind; !l.Benign? && !l.Suspicious?
  {
  }

  /** No guard answer lifts an attack label: with any of the six labels on the scan,
      whatever the guard says or if it says nothing, the default bundle does not allow
      the request outright, disables tools and turns retrieval off. */
  lemma NoGuardAnswerLiftsAttackLabel(e: Envelope)
    requires AttackLabelled(e)
    ensures Contained(Decide(DefaultBundle(), e))
  {
    var e' := e.(classification := Some(Classify(e)));
    if SecretExfiltration in ScanLabels(e) || PromptLeakage in ScanLabels(e) || ModerationBypass in ScanLabels(e) {
      var k := DeniedAnywayMatches(e');
      StrictMatchContained(e', k);
    } else {
      CorroboratedIsAttackClass(e);
      AttackClassMatches(e');
      StrictMatchContained(e', RuleFor(Classify(e).kind));
    }
  }

  // ----- when an injection or jailbreak label is denied outright

  /** The guard's own label replaces the signals'. */
  predicate GuardOverrides(e: Envelope) {
    && e.guard.Some?
    && (|| e.guard.value.kind == Content(SecretExfiltrationIntent)
        || e.guard.value.kind == Content(ExploitOrMalwareIntent)
        || e.guard.value.kind == Content(SensitiveDataSubmission))
    && e.guard.value.confidence >= 0.75
    && (e.guard.value.confidence >= 0.95
        || !(e.guard.value.action == GuardAllow || e.guard.value.action == GuardRestrict))
  }

  lemma InjectionClass(e: Envelope)
    requires PromptInjectionSeen in ScanLabels(e) || JailbreakSeen in ScanLabels(e)
    ensures GuardOverrides(e) ==> Classify(e) == Classification(e.guard.value.kind.kind, e.guard.value.confidence)
    ensures !GuardOverrides(e) ==> Classify(e).kind.PromptInjection? || Classify(e).kind.JailbreakAttempt?
  {
  }

  /** The deny rules that do not look for an injection or jailbreak classification. */
  predicate DeniedAnyway(e: Envelope, c: Classification) {
    || "llm:chat" !in e.permissions
    || MetadataInjection in DlpLabels(e)
    || SecretExfiltration in ScanLabels(e)
    || PromptLeakage in ScanLabels(e)
    || ModerationBypass in ScanLabels(e)
    || (c.kind.SecretExfiltrationIntent? && c.confidence >= 0.9)
    || (c.kind.ExploitOrMalwareIntent? && c.confidence >= 0.85)
    || (c.kind.SensitiveDataSubmission? && e.dlp.Some? && DlpScore(e) >= 60)
    || (e.risk.Some? && e.risk.value.state == Restricted &&
        (HateContent in ScanLabels(e) || DiscriminatoryContent in ScanLabels(e)))
  }

  /** Where the first deny rule that DeniedAnyway names sits in the bundle. */
  lemma DeniedAnywayMatches(e: Envelope) returns (k: nat)
    requires e.classification.Some? && DeniedAnyway(e, e.classification.value)
    ensures k < 14 && Matches(StrictRules()[k], e)
  {
    var c := e.classification.value;
    if "llm:chat" !in e.permissions { k := 0; }
    else if MetadataInjection in DlpLabels(e) { k := 1; }
    else if SecretExfiltration in ScanLabels(e) { k := 2; }
    else if PromptLeakage in ScanLabels(e) { k := 3; }
    else if ModerationBypass in ScanLabels(e) { k := 6; }
    else if c.kind.SecretExfiltrationIntent? && c.confidence >= 0.9 { k := 9; }
    else if c.kind.ExploitOrMalwareIntent? && c.confidence >= 0.85 { k := 10; }
    else if c.kind.SensitiveDataSubmission? && DlpScore(e) >= 60 && e.dlp.Some? { k := 11; }
    else if HateContent in ScanLabels(e) { k := 12; }
    else { k := 13; }
  }

  lemma EarlyRulesDeny(i: nat)
    requires i < 14
    ensures StrictRules()[i].decision.action == Deny
  {
  }

  /** An early match is a deny: the first 14 rules all deny. */
  lemma EarlyMatchDenies(e: Envelope, k: nat)
    requires k < 14 && Matches(StrictRules()[k], e)
    ensures Evaluate(DefaultBundle(), e).action == Deny
  {
    StrictMatchContained(e, k);
    var i := FirstMatchFound(StrictRules(), e);
    assert i <= k;
    EarlyRulesDeny(i);
  }

  /** A deny rule that fires on a sensitive, exfiltration or exploit classification is
      one of those DeniedAnyway names, or the blocked-session rule, which the rules
      for those classifications precede. */
  lemma DenyRuleNames(e: Envelope, i: nat)
    requires i < 26 && Matches(StrictRules()[i], e) && StrictRules()[i].decision.action == Deny
    requires e.classification.Some?
    requires !e.classification.value.kind.PromptInjection? && !e.classification.value.kind.JailbreakAttempt?
    ensures DeniedAnyway(e, e.classification.value)
  {
    var r := StrictRules()[i];
    assert forall c | c in r.condition :: Holds(c, e);
    assert Holds(r.condition[0], e);
    assert |r.condition| > 1 ==> Holds(r.condition[1], e);
  }

  /** A scan that shows an injection or a jailbreak is denied if and only if the guard
      does not put its own label in place of the signals' or, with the guard's label and
      confidence, one of the other deny rules fires. So the guard can turn this deny into a
      restricted allow, and this is exactly when. */
  lemma InjectionDeniedExactly(e: Envelope)
    requires PromptInjectionSeen in ScanLabels(e) || JailbreakSeen in ScanLabels(e)
    ensures Decide(DefaultBundle(), e).action == Deny <==>
              GuardOverrides(e) ==> DeniedAnyway(e, Classification(e.guard.value.kind.kind, e.guard.value.confidence))
  {
    var e' := e.(classification := Some(Classify(e)));
    InjectionClass(e);
    AttackClassMatches(e');
    var k := RuleFor(Classify(e).kind);
    if !GuardOverrides(e) {
      EarlyMatchDenies(e', k);
    } else if DeniedAnyway(e, Classify(e)) {
      var d := DeniedAnywayMatches(e');
      EarlyMatchDenies(e', d);
    } else {
      StrictMatchContained(e', k);
      var i := FirstMatchFound(StrictRules(), e');
      assert i <= k;
      if StrictRules()[i].decision.action == Deny {
        DenyRuleNames(e', i);
      }
    }
  }

  /** A challenge rule that fires needs hateful or discriminatory content, or suspicion. */
  lemma ChallengeRuleNames(e: Envelope, i: nat)
    requires i < |StrictRules()| && Matches(StrictRules()[i], e) && StrictRules()[i].decision.action == Challenge
    ensures HateContent in ScanLabels(e) || DiscriminatoryContent in ScanLabels(e)
            || (e.classification.Some? && e.classification.value.kind.Suspicious?)
  {
    var r := StrictRules()[i];
    assert Holds(r.condition[0], e);
  }

  /** The restricted allow does occur: an injection label with a guard that is almost
      certain the request merely submits sensitive data. */
  lemma InjectionCanEscapeDeny()
    ensures var e := Envelope({"llm:chat"}, true, Some(Scan(15, {PromptInjectionSeen})), Some(Dlp(0, {})),
                              Some(Risk(0, Normal)),
                              Some(Guard(Content(SensitiveDataSubmission), 0.95, GuardAllow)), None);
            Decide(DefaultBundle(), e).action == AllowWithRestrictions
  {
    var e := Envelope({"llm:chat"}, true, Some(Scan(15, {PromptInjectionSeen})), Some(Dlp(0, {})),
                      Some(Risk(0, Normal)),
                      Some(Guard(Content(SensitiveDataSubmission), 0.95, GuardAllow)), None);
    assert GuardOverrides(e);
    InjectionClass(e);
    InjectionDeniedExactly(e);
    NoGuardAnswerLiftsAttackLabel(e);
    NotChallenged(e);
  }

  /** Without hateful or discriminatory content, an attack-labelled request is either
      denied or allowed with restrictions. */
  lemma NotChallenged(e: Envelope)
    requires Corroborated(e) && HateContent !in ScanLabels(e) && DiscriminatoryContent !in ScanLabels(e)
    ensures Decide(DefaultBundle(), e).action == Deny || Decide(DefaultBundle(), e).action == AllowWithRestrictions
  {
    var e' := e.(classification := Some(Classify(e)));
    CorroboratedIsAttackClass(e);
    AttackClassMatches(e');
    StrictMatchContained(e', RuleFor(Classify(e).kind));
    var i := FirstMatchFound(StrictRules(), e');
    if StrictRules()[i].decision.action == Challenge {
      ChallengeRuleNames(e', i);
    }
  }

  // ----- rules of the default bundle that never decide

  lemma ObfuscationConditions()
    ensures var rules := DefaultBundle().rules;
            && |rules| == 30 && rules[4].enabled && rules[5].enabled
            && rules[4].condition == [ClassIs(PromptInjection)]
            && rules[5].condition == [ClassIs(JailbreakAttempt)]
            && rules[7].condition == [ClassIs(PromptInjection), ScanHasLabel(Obfuscation)]
            && rules[8].condition == [ClassIs(JailbreakAttempt), ScanHasLabel(Obfuscation)]
  {
    assert DefaultBundle().rules[..27] == StrictRules();
  }

  /** The injection-with-obfuscation rule repeats the injection rule before it, and the
      jailbreak-with-obfuscation rule the jailbreak rule: neither ever decides. */
  lemma ObfuscationRulesAreRedundant(e: Envelope)
    ensures var b := DefaultBundle();
            && Evaluate(b.(rules := b.rules[..7] + b.rules[8..]), e) == Evaluate(b, e)
            && Evaluate(b.(rules := b.rules[..8] + b.rules[9..]), e) == Evaluate(b, e)
  {
    ObfuscationConditions();
    RemoveSubsumedRule(DefaultBundle(), 4, 7, e);
    RemoveSubsumedRule(DefaultBundle(), 5, 8, e);
  }

  /** A score of 50 or more always brings an attack or sensitive-data classification. */
  lemma HighScoreIsAttackClass(e: Envelope)
    requires ScanScore(e) >= 50
    ensures var l := Classify(e).kind; !l.Benign? && !l.Suspicious?
  {
    CorroboratedIsAttackClass(e);
  }

  /** Behind the classifier the challenge for confident suspicion never fires: a score
      of 50 is never classified as suspicion. */
  lemma SuspicionChallengeNeverFires(e: Envelope)
    ensures var b, e' := DefaultBundle(), e.(classification := Some(Classify(e)));
            && !Matches(b.rules[17], e')
            && Evaluate(b.(rules := b.rules[..17] + b.rules[18..]), e') == Evaluate(b, e')
  {
    var b, e' := DefaultBundle(), e.(classification := Some(Classify(e)));
    var r := Rule(true, [ClassIs(Suspicious), ConfidenceGte(0.9), ScanScoreGte(50)],
                  Strict(Challenge, HighConfidenceSuspiciousInput));
    assert b.rules[17] == r;
    if Matches(r, e') {
      assert Holds(r.condition[0], e') && Holds(r.condition[2], e');
      HighScoreIsAttackClass(e);
    }
    DropUnreached(b.rules, 17, e');
  }

  /** Nor does the high-scan-score rule ever decide: a score of 50 always meets an
      earlier rule. Hence a high score never leaves retrieval on. */
  lemma HighScoreRuleNeverDecides(e: Envelope)
    ensures var b, e' := DefaultBundle(), e.(classification := Some(Classify(e)));
            Evaluate(b.(rules := b.rules[..27] + b.rules[28..]), e') == Evaluate(b, e')
    ensures ScanScore(e) >= 50 ==> Contained(Decide(DefaultBundle(), e))
  {
    var b, e' := DefaultBundle(), e.(classification := Some(Classify(e)));
    var r := b.rules[27];
    assert r == OpenRules()[0] && r.condition == [ScanScoreGte(50)];
    if ScanScore(e) >= 50 {
      HighScoreIsAttackClass(e);
      AttackClassMatches(e');
      var k := RuleFor(Classify(e).kind);
      StrictMatchContained(e', k);
      assert b.rules[k] == StrictRules()[k];
    } else {
      assert ScanScoreGte(50) in r.condition && !Holds(ScanScoreGte(50), e');
    }
    DropUnreached(b.rules, 27, e');
  }
}
