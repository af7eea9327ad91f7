/** Letter pairs of reason codes. */
module ReasonWords {

  predicate Apart(code: string, a: char, b: char) {
    forall i | 0 <= i < |code| - 1 && code[i] == a :: code[i + 1] != b
  }

  /** For each of the words that the escalation and tool counters look for, two letters
      that stand together in it do not in this code. */
  predicate Tame(code: string) {
    Apart(code, 'L', 'A') && Apart(code, 'V', 'I') && Apart(code, 'O', 'O')
  }

  lemma ApartJoin(x: string, y: string, a: char, b: char)
    requires Apart(x, a, b) && Apart(y, a, b) && y != "" && y[0] != b
    ensures Apart(x + y, a, b)
  {
  }

  /** Codes can be cut in front of an underscore. */
  lemma Cut(x: string, y: string)
    requires Tame(x) && Tame(y) && y != "" && y[0] == '_'
    ensures Tame(x + y)
  {
    ApartJoin(x, y, 'L', 'A');
    ApartJoin(x, y, 'V', 'I');
    ApartJoin(x, y, 'O', 'O');
  }

  // The letters J and K stand only in the words that the other two counters look for.

  lemma MissingPermissionLlmChatNoJ()
    ensures 'J' !in "MISSING_PERMISSION_LLM_CHAT"
  {
  }

  lemma MetadataInjectionDetectedNoK()
    ensures 'K' !in "METADATA_INJECTION_DETECTED"
  {
  }

  lemma SecretExfiltrationAttemptNoJ()
    ensures 'J' !in "SECRET_EXFILTRATION_ATTEMPT"
  {
  }

  lemma PromptLeakageAttemptNoJ()
    ensures 'J' !in "PROMPT_LEAKAGE_ATTEMPT"
  {
  }

  lemma PromptInjectionDetectedNoK()
    ensures 'K' !in "PROMPT_INJECTION_DETECTED"
  {
  }

  lemma ModerationBypassAttemptDetectedNoJ()
    ensures 'J' !in "MODERATION_BYPASS_ATTEMPT_DETECTED"
  {
  }

  lemma PromptInjectionWithObfuscationNoK()
    ensures 'K' !in "PROMPT_INJECTION_WITH_OBFUSCATION"
  {
  }

  lemma SecretExfiltrationHighConfidenceNoJ()
    ensures 'J' !in "SECRET_EXFILTRATION_HIGH_CONFIDENCE"
  {
  }

  lemma ExploitOrMalwareHighConfidenceNoJ()
    ensures 'J' !in "EXPLOIT_OR_MALWARE_HIGH_CONFIDENCE"
  {
  }

  lemma SensitiveDataHighDlpRiskNoJ()
    ensures 'J' !in "SENSITIVE_DATA_HIGH_DLP_RISK"
  {
  }

  lemma HateContentRestrictedSessionNoJ()
    ensures 'J' !in "HATE_CONTENT_RESTRICTED_SESSION"
  {
  }

  lemma DiscriminatoryContentRestrictedSessionNoJ()
    ensures 'J' !in "DISCRIMINATORY_CONTENT_RESTRICTED_SESSION"
  {
  }

  lemma SessionRiskBlockedNoJ()
    ensures 'J' !in "SESSION_RISK_BLOCKED"
  {
  }

  lemma MissingPermissionLlmChat()
    ensures Tame("MISSING_PERMISSION_LLM_CHAT")
  {
    Cut("MISSING_PERMISSION", "_LLM_CHAT");
    assert "MISSING_PERMISSION_LLM_CHAT" == "MISSING_PERMISSION" + "_LLM_CHAT";
  }

  lemma MetadataInjectionDetected()
    ensures Tame("METADATA_INJECTION_DETECTED")
  {
    Cut("METADATA", "_INJECTION_DETECTED");
    assert "METADATA_INJECTION_DETECTED" == "METADATA" + "_INJECTION_DETECTED";
  }

  lemma SecretExfiltrationAttempt()
    ensures Tame("SECRET_EXFILTRATION_ATTEMPT")
  {
    Cut("SECRET_EXFILTRATION", "_ATTEMPT");
    assert "SECRET_EXFILTRATION_ATTEMPT" == "SECRET_EXFILTRATION" + "_ATTEMPT";
  }

  lemma PromptLeakageAttempt()
    ensures Tame("PROMPT_LEAKAGE_ATTEMPT")
  {
  }

  lemma PromptInjectionDetected()
    ensures Tame("PROMPT_INJECTION_DETECTED")
  {
    Cut("PROMPT_INJECTION", "_DETECTED");
    assert "PROMPT_INJECTION_DETECTED" == "PROMPT_INJECTION" + "_DETECTED";
  }

  lemma JailbreakAttemptDetected()
    ensures Tame("JAILBREAK_ATTEMPT_DETECTED")
  {
    Cut("JAILBREAK", "_ATTEMPT_DETECTED");
    assert "JAILBREAK_ATTEMPT_DETECTED" == "JAILBREAK" + "_ATTEMPT_DETECTED";
  }

  lemma ModerationBypassAttemptDetected()
    ensures Tame("MODERATION_BYPASS_ATTEMPT_DETECTED")
  {
    Cut("MODERATION_BYPASS", "_ATTEMPT_DETECTED");
    assert "MODERATION_BYPASS_ATTEMPT_DETECTED" == "MODERATION_BYPASS" + "_ATTEMPT_DETECTED";
  }

  lemma PromptInjectionWithObfuscation()
    ensures Tame("PROMPT_INJECTION_WITH_OBFUSCATION")
  {
    Cut("PROMPT_INJECTION", "_WITH_OBFUSCATION");
    assert "PROMPT_INJECTION_WITH_OBFUSCATION" == "PROMPT_INJECTION" + "_WITH_OBFUSCATION";
  }

  lemma JailbreakWithObfuscation()
    ensures Tame("JAILBREAK_WITH_OBFUSCATION")
  {
    Cut("JAILBREAK", "_WITH_OBFUSCATION");
    assert "JAILBREAK_WITH_OBFUSCATION" == "JAILBREAK" + "_WITH_OBFUSCATION";
  }

  lemma SecretExfiltrationHighConfidence()
    ensures Tame("SECRET_EXFILTRATION_HIGH_CONFIDENCE")
  {
    Cut("SECRET_EXFILTRATION", "_HIGH_CONFIDENCE");
    assert "SECRET_EXFILTRATION_HIGH_CONFIDENCE" == "SECRET_EXFILTRATION" + "_HIGH_CONFIDENCE";
  }

  lemma ExploitOrMalwareHighConfidence()
    ensures Tame("EXPLOIT_OR_MALWARE_HIGH_CONFIDENCE")
  {
    Cut("EXPLOIT_OR_MALWARE", "_HIGH_CONFIDENCE");
    assert "EXPLOIT_OR_MALWARE_HIGH_CONFIDENCE" == "EXPLOIT_OR_MALWARE" + "_HIGH_CONFIDENCE";
  }

  lemma SensitiveDataHighDlpRisk()
    ensures Tame("SENSITIVE_DATA_HIGH_DLP_RISK")
  {
    Cut("SENSITIVE_DATA", "_HIGH_DLP_RISK");
    assert "SENSITIVE_DATA_HIGH_DLP_RISK" == "SENSITIVE_DATA" + "_HIGH_DLP_RISK";
  }

  lemma HateContentRestrictedSession()
    ensures Tame("HATE_CONTENT_RESTRICTED_SESSION")
  {
    Cut("HATE_CONTENT", "_RESTRICTED_SESSION");
    assert "HATE_CONTENT_RESTRICTED_SESSION" == "HATE_CONTENT" + "_RESTRICTED_SESSION";
  }

  lemma DiscriminatoryContentRestrictedSession()
    ensures Tame("DISCRIMINATORY_CONTENT_RESTRICTED_SESSION")
  {
    Cut("DISCRIMINATORY_CONTENT", "_RESTRICTED_SESSION");
    assert "DISCRIMINATORY_CONTENT_RESTRICTED_SESSION" == "DISCRIMINATORY_CONTENT" + "_RESTRICTED_SESSION";
  }

  lemma SessionRiskBlocked()
    ensures Tame("SESSION_RISK_BLOCKED")
  {
  }
}

/** The pressure that the default bundle can put on a client: which profile counters its
    reason codes move, and so which multipliers occur. */
module Pressure {
  import opened Records
  import opened Text
  import opened Policy
  import opened Pipeline
  import Words = ReasonWords
  import Profiles

  // ----- reason codes

  lemma OccurrenceAt(s: string, p: string, i: int, k: nat)
    requires OccursAt(s, p, i) && k + 1 < |p|
    ensures s[i + k] == p[k] && s[i + k + 1] == p[k + 1]
  {
    assert s[i..i + |p|][k] == s[i + k] && s[i..i + |p|][k + 1] == s[i + k + 1];
  }

  lemma NotInTame(code: string, word: string, k: nat)
    requires k + 1 < |word| && Words.Apart(code, word[k], word[k + 1])
    ensures !Contains(code, word)
  {
    forall i | 0 <= i <= |code|
      ensures !OccursAt(code, word, i)
    {
      if OccursAt(code, word, i) {
        OccurrenceAt(code, word, i, k);
        assert false;
      }
    }
  }

  lemma WordNeeds(code: string, word: string, k: nat)
    requires Contains(code, word) && k < |word|
    ensures word[k] in code
  {
    var i :| 0 <= i <= |code| && OccursAt(code, word, i);
    assert code[i..i + |word|][k] == code[i + k];
  }

  lemma TameNotCounted(code: string)
    requires Words.Tame(code)
    ensures !Profiles.Is(Profiles.Escalation, code) && !Profiles.Is(Profiles.ToolAbuse, code)
  {
    NotInTame(code, "ESCALATION", 4);
    NotInTame(code, "PRIVILEGE", 3);
    NotInTame(code, "TOOL", 1);
  }

  lemma LettersCounted(code: string)
    ensures 'K' !in code ==> !Contains(code, "JAILBREAK")
    ensures 'J' !in code ==> !Contains(code, "JAILBREAK") && !Contains(code, "INJECTION")
  {
    if Contains(code, "JAILBREAK") {
      WordNeeds(code, "JAILBREAK", 0);
      WordNeeds(code, "JAILBREAK", 8);
    }
    if Contains(code, "INJECTION") {
      WordNeeds(code, "INJECTION", 2);
    }
  }

  const DENY_REASONS: set<ReasonCode> := {
    MissingPermissionLlmChat, MetadataInjectionDetected, SecretExfiltrationAttempt, PromptLeakageAttempt,
    PromptInjectionDetected, JailbreakAttemptDetected, ModerationBypassAttemptDetected, PromptInjectionWithObfuscation,
    JailbreakWithObfuscation, SecretExfiltrationHighConfidence, ExploitOrMalwareHighConfidence,
    SensitiveDataHighDlpRisk,
    HateContentRestrictedSession, DiscriminatoryContentRestrictedSession, SessionRiskBlocked }

  const JAILBREAK_REASONS: set<ReasonCode> := { JailbreakAttemptDetected, JailbreakWithObfuscation }

  const INJECTION_REASONS: set<ReasonCode> :=
    { MetadataInjectionDetected, PromptInjectionDetected, PromptInjectionWithObfuscation }

  lemma DenyReasonTame(r: ReasonCode)
    requires r in DENY_REASONS
    ensures Words.Tame(CodeText(r))
  {
    match r {
      case MissingPermissionLlmChat => Words.MissingPermissionLlmChat();
      case MetadataInjectionDetected => Words.MetadataInjectionDetected();
      case SecretExfiltrationAttempt => Words.SecretExfiltrationAttempt();
      case PromptLeakageAttempt => Words.PromptLeakageAttempt();
      case PromptInjectionDetected => Words.PromptInjectionDetected();
      case JailbreakAttemptDetected => Words.JailbreakAttemptDetected();
      case ModerationBypassAttemptDetected => Words.ModerationBypassAttemptDetected();
      case PromptInjectionWithObfuscation => Words.PromptInjectionWithObfuscation();
      case JailbreakWithObfuscation => Words.JailbreakWithObfuscation();
      case SecretExfiltrationHighConfidence => Words.SecretExfiltrationHighConfidence();
      case ExploitOrMalwareHighConfidence => Words.ExploitOrMalwareHighConfidence();
      case SensitiveDataHighDlpRisk => Words.SensitiveDataHighDlpRisk();
      case HateContentRestrictedSession => Words.HateContentRestrictedSession();
      case DiscriminatoryContentRestrictedSession => Words.DiscriminatoryContentRestrictedSession();
      case SessionRiskBlocked => Words.SessionRiskBlocked();
    }
  }

  function MissingLetter(r: ReasonCode): char {
    match r
    case MetadataInjectionDetected => 'K'
    case PromptInjectionDetected => 'K'
    case PromptInjectionWithObfuscation => 'K'
    case _ => 'J'
  }

  lemma DenyReasonLetters(r: ReasonCode)
    requires r in DENY_REASONS && !r.JailbreakAttemptDetected? && !r.JailbreakWithObfuscation?
    ensures MissingLetter(r) !in CodeText(r)
  {
    match r {
      case MissingPermissionLlmChat => Words.MissingPermissionLlmChatNoJ();
      case MetadataInjectionDetected => Words.MetadataInjectionDetectedNoK();
      case SecretExfiltrationAttempt => Words.SecretExfiltrationAttemptNoJ();
      case PromptLeakageAttempt => Words.PromptLeakageAttemptNoJ();
      case PromptInjectionDetected => Words.PromptInjectionDetectedNoK();
      case ModerationBypassAttemptDetected => Words.ModerationBypassAttemptDetectedNoJ();
      case PromptInjectionWithObfuscation => Words.PromptInjectionWithObfuscationNoK();
      case SecretExfiltrationHighConfidence => Words.SecretExfiltrationHighConfidenceNoJ();
      case ExploitOrMalwareHighConfidence => Words.ExploitOrMalwareHighConfidenceNoJ();
      case SensitiveDataHighDlpRisk => Words.SensitiveDataHighDlpRiskNoJ();
      case HateContentRestrictedSession => Words.HateContentRestrictedSessionNoJ();
      case DiscriminatoryContentRestrictedSession => Words.DiscriminatoryContentRestrictedSessionNoJ();
      case SessionRiskBlocked => Words.SessionRiskBlockedNoJ();
    }
  }

  lemma JailbreakAttemptDetectedNamed()
    ensures Contains("JAILBREAK_ATTEMPT_DETECTED", "JAILBREAK")
  {
    ContainsMiddle("JAILBREAK_ATTEMPT_DETECTED", "", "JAILBREAK", "_ATTEMPT_DETECTED");
  }

  lemma JailbreakWithObfuscationNamed()
    ensures Contains("JAILBREAK_WITH_OBFUSCATION", "JAILBREAK")
  {
    ContainsMiddle("JAILBREAK_WITH_OBFUSCATION", "", "JAILBREAK", "_WITH_OBFUSCATION");
  }

  lemma MetadataInjectionDetectedNamed()
    ensures Contains("METADATA_INJECTION_DETECTED", "INJECTION")
  {
    ContainsMiddle("METADATA_INJECTION_DETECTED", "METADATA_", "INJECTION", "_DETECTED");
  }

  lemma PromptInjectionDetectedNamed()
    ensures Contains("PROMPT_INJECTION_DETECTED", "INJECTION")
  {
    ContainsMiddle("PROMPT_INJECTION_DETECTED", "PROMPT_", "INJECTION", "_DETECTED");
  }

  lemma PromptInjectionWithObfuscationNamed()
    ensures Contains("PROMPT_INJECTION_WITH_OBFUSCATION", "INJECTION")
  {
    ContainsMiddle("PROMPT_INJECTION_WITH_OBFUSCATION", "PROMPT_", "INJECTION", "_WITH_OBFUSCATION");
  }

  lemma JailbreakNamed(r: ReasonCode)
    requires r.JailbreakAttemptDetected? || r.JailbreakWithObfuscation?
    ensures Contains(CodeText(r), "JAILBREAK")
  {
    match r {
      case JailbreakAttemptDetected => JailbreakAttemptDetectedNamed();
      case JailbreakWithObfuscation => JailbreakWithObfuscationNamed();
    }
  }

  lemma InjectionNamed(r: ReasonCode)
    requires r.MetadataInjectionDetected? || r.PromptInjectionDetected? || r.PromptInjectionWithObfuscation?
    ensures Contains(CodeText(r), "INJECTION")
  {
    match r {
      case MetadataInjectionDetected => MetadataInjectionDetectedNamed();
      case PromptInjectionDetected => PromptInjectionDetectedNamed();
      case PromptInjectionWithObfuscation => PromptInjectionWithObfuscationNamed();
    }
  }

  lemma JailbreakCounted(r: ReasonCode)
    requires r in JAILBREAK_REASONS
    ensures Profiles.Is(Profiles.Jailbreak, CodeText(r)) && Profiles.Is(Profiles.Injection, CodeText(r))
  {
    JailbreakNamed(r);
  }

  lemma InjectionCounted(r: ReasonCode)
    requires r in INJECTION_REASONS
    ensures !Profiles.Is(Profiles.Jailbreak, CodeText(r)) && Profiles.Is(Profiles.Injection, CodeText(r))
  {
    DenyReasonLetters(r);
    LettersCounted(CodeText(r));
    InjectionNamed(r);
  }

  lemma NeitherCounted(r: ReasonCode)
    requires r in DENY_REASONS - JAILBREAK_REASONS - INJECTION_REASONS
    ensures !Profiles.Is(Profiles.Jailbreak, CodeText(r)) && !Profiles.Is(Profiles.Injection, CodeText(r))
  {
    DenyReasonLetters(r);
    LettersCounted(CodeText(r));
  }

  /** Which of the bundle's deny reasons each counter counts. */
  lemma CountedReasons(r: ReasonCode)
    requires r in DENY_REASONS
    ensures Profiles.Is(Profiles.Jailbreak, CodeText(r)) <==> r in JAILBREAK_REASONS
    ensures Profiles.Is(Profiles.Injection, CodeText(r)) <==> r in JAILBREAK_REASONS + INJECTION_REASONS
    ensures !Profiles.Is(Profiles.Escalation, CodeText(r)) && !Profiles.Is(Profiles.ToolAbuse, CodeText(r))
  {
    DenyReasonTame(r);
    TameNotCounted(CodeText(r));
    if r in JAILBREAK_REASONS {
      JailbreakCounted(r);
    } else if r in INJECTION_REASONS {
      InjectionCounted(r);
    } else {
      NeitherCounted(r);
    }
  }

  lemma DenyRuleReason(i: nat)
    requires i < |StrictRules()| && StrictRules()[i].decision.action == Deny
    ensures |StrictRules()[i].decision.reasons| == 1 && StrictRules()[i].decision.reasons[0] in DENY_REASONS
  {
  }

  lemma OpenRulesAllow(i: nat)
    requires i < |OpenRules()|
    ensures OpenRules()[i].decision.action != Deny
  {
  }

  /** A denial of the default bundle gives one of its deny reasons. */
  lemma DenialReason(e: Envelope)
    requires Evaluate(DefaultBundle(), e).action == Deny
    ensures |Evaluate(DefaultBundle(), e).reasons| == 1 && Evaluate(DefaultBundle(), e).reasons[0] in DENY_REASONS
  {
    FirstMatchConcat(StrictRules(), OpenRules(), e);
    if FirstMatch(StrictRules(), e).Some? {
      var i := FirstMatchFound(StrictRules(), e);
      DenyRuleReason(i);
    } else if FirstMatch(OpenRules(), e).Some? {
      var i := FirstMatchFound(OpenRules(), e);
      OpenRulesAllow(i);
    }
  }

  // ----- profiles

  /** Neither escalations nor tool abuse were ever counted. */
  predicate Uncounted(p: ProfileRecord) {
    p.escalations == 0 && p.toolAbuses == 0
  }

  ghost predicate AllUncounted(g: Gateway) {
    forall pair | pair in g.profiles :: Uncounted(g.profiles[pair])
  }

  lemma DenialUncounted(g: Gateway, pair: Profiles.Pair, d: Decision, e: Envelope)
    requires AllUncounted(g) && d == Evaluate(DefaultBundle(), e) && d.action == Deny
    ensures Uncounted(ProfileWith(g.profiles, pair, CodeTexts(d.reasons), g.now))
  {
    DenialReason(e);
    var code := CodeText(d.reasons[0]);
    assert d.reasons[1..] == [] && CodeTexts(d.reasons) == [code];
    CountedReasons(d.reasons[0]);
    var p := if pair in g.profiles then g.profiles[pair] else Profiles.NewProfile(pair.0, pair.1, g.now);
    Profiles.CodesAdd(p.(refusals := p.refusals + 1, lastSeen := g.now), [code]);
    assert [code][..0] == [];
    assert Profiles.CountOf(Profiles.Escalation, [code]) == 0 && Profiles.CountOf(Profiles.ToolAbuse, [code]) == 0;
  }

  lemma StepKeepsUncounted(cfg: Config, g: Gateway, e: Event)
    requires cfg.bundle == DefaultBundle() && AllUncounted(g)
    ensures AllUncounted(Step(cfg, g, e))
  {
    if e.GuardAnswered? && e.id in g.flights && g.flights[e.id].phase.AwaitingGuard? {
      var f := g.flights[e.id];
      var envelope := f.envelope.(guard := e.guard);
      var d := Decide(cfg.bundle, envelope);
      GuardParts(cfg, g, e.id, f, e.guard);
      if d.action == Deny {
        DenialUncounted(g, (f.client, f.subject), d, envelope.(classification := Some(Classify(envelope))));
      }
    }
  }

  lemma {:induction false} RunKeepsUncounted(cfg: Config, g: Gateway, es: seq<Event>)
    requires cfg.bundle == DefaultBundle() && AllUncounted(g)
    ensures AllUncounted(Run(cfg, g, es))
    decreases |es|
  {
    if es != [] {
      StepKeepsUncounted(cfg, g, es[0]);
      RunKeepsUncounted(cfg, Step(cfg, g, es[0]), es[1..]);
    }
  }

  /** In every reachable state, under any bundle, a client's multiplier is what its refusals
      have earned. */
  lemma ReachableMultiplier(cfg: Config, now: real, es: seq<Event>, pair: Profiles.Pair)
    ensures Profiles.Multiplier(Found(Run(cfg, Start(now), es), pair))
            == Profiles.Earned(Profiles.AllCodes(RefusalsOf(cfg, Start(now), es, pair)))
  {
    var history := RefusalsOf(cfg, Start(now), es, pair);
    RunProfile(cfg, Start(now), es, pair, []);
    assert [] + history == history;
    if history != [] {
      Profiles.MultiplierIsItsHistory(pair.0, pair.1, history[0].now, history);
    }
  }

  /** Under the default bundle no reason code counts as an escalation or as tool abuse, so
      the factor 3 is never applied: in every reachable state, with or without a store, a
      client's multiplier is 1, 2, 5 or 10, and its refusals say which. */
  lemma DefaultMultipliers(cfg: Config, now: real, es: seq<Event>, pair: Profiles.Pair)
    requires cfg.bundle == DefaultBundle()
    ensures var codes := Profiles.AllCodes(RefusalsOf(cfg, Start(now), es, pair));
            var jailbreaks := Profiles.CountOf(Profiles.Jailbreak, codes);
            var injections := Profiles.CountOf(Profiles.Injection, codes);
            var m := Profiles.Multiplier(Found(Run(cfg, Start(now), es), pair));
            && (m == 10.0 <==> jailbreaks >= 3 && injections >= 5)
            && (m == 5.0 <==> jailbreaks >= 3 && injections < 5)
            && (m == 2.0 <==> jailbreaks < 3 && injections >= 5)
            && (m == 1.0 <==> jailbreaks < 3 && injections < 5)
  {
    RunKeepsUncounted(cfg, Start(now), es);
    ReachableProfileIsItsHistory(cfg, now, es, pair);
    ReachableMultiplier(cfg, now, es, pair);
  }
}
