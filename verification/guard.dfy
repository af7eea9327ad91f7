/** What app/llm_guard.py makes of a parsed guard answer: the payload normaliser, the
    analysis that always results, and the one-second window on guard-model calls. */
module GuardAnswer {
  import opened Records
  import opened Text
  import opened RateLimit
  import opened Window

  // ----- JSON values and the conversions Python applies to them

  datatype Float = Finite(r: real) | NaN | PosInf | NegInf

  datatype Value =
    | Missing | Null | Truth(b: bool) | Integer(n: int) | Number(x: Float) | Str(s: string)
    | List(items: seq<Value>) | Object(repr: int)

  /** A conversion to a float yields one, fails on a bad value, or overflows. */
  datatype Conversion = Converted(x: Float) | BadValue | Overflow

  /** The parts of the host language that are left open. */
  datatype Host = Host(str: Value -> string, lower: string -> string, floatOf: string -> Conversion,
                       intFits: int -> bool)

  predicate LowerAscii(s: string) {
    forall i | 0 <= i < |s| :: 'a' <= s[i] <= 'z' || s[i] == '_'
  }

  /** What is used of them: str of a string is itself, lower-case text stays as it is, and
      small integers fit a float. */
  ghost predicate HostOk(h: Host) {
    && (forall s :: h.str(Str(s)) == s)
    && (forall s | LowerAscii(s) :: h.lower(s) == s)
    && (forall n | 0 <= n <= 100 :: h.intFits(n))
  }

  lemma HostExists() returns (h: Host)
    ensures HostOk(h)
  {
    h := Host((v: Value) => if v.Str? then v.s else "", s => s, s => BadValue, n => true);
  }

  function ToFloat(h: Host, v: Value): Conversion {
    match v
    case Truth(b) => Converted(Finite(if b then 1.0 else 0.0))
    case Integer(n) => if h.intFits(n) then Converted(Finite(n as real)) else Overflow
    case Number(x) => Converted(x)
    case Str(s) => h.floatOf(s)
    case _ => BadValue
  }

  // ----- allowed answers

  const SHARED_LABELS: set<string> :=
    { "benign", "suspicious", "prompt_injection", "jailbreak_attempt" }

  const INTENT_LABELS: set<string> :=
    { "secret_exfiltration_intent", "exploit_or_malware_intent", "sensitive_data_submission", "policy_leakage" }

  const EXTENDED_LABELS: set<string> :=
    { "unsafe_output", "indirect_injection", "encoding_obfuscation", "escalation_attempt" }

  const ABUSE_LABELS: set<string> :=
    { "denial_of_service_attempt", "tool_abuse_attempt", "model_theft_probe" }

  const ALLOWED_LABELS: set<string> := SHARED_LABELS + INTENT_LABELS + EXTENDED_LABELS + ABUSE_LABELS

  const ALLOWED_ACTIONS: set<string> := { "allow", "allow_with_restrictions", "deny", "redact", "block" }

  predicate ContainsAny(text: string, words: seq<string>) {
    exists i | 0 <= i < |words| :: Contains(text, words[i])
  }

  function InferLabel(lower: string -> string, text: string): string {
    var t := lower(text);
    if Contains(t, "safe") && !Contains(t, "unsafe") then "benign"
    else if ContainsAny(t, ["jailbreak", "dan", "ignore previous instructions"]) then "jailbreak_attempt"
    else if ContainsAny(t, ["prompt injection", "injection", "override instruction"]) then "prompt_injection"
    else if ContainsAny(t, ["malware", "exploit", "rce", "shellcode"]) then "exploit_or_malware_intent"
    else if ContainsAny(t, ["exfiltration", "api key", "token", "password", "credential"]) then
      "secret_exfiltration_intent"
    else if ContainsAny(t, ["pii", "email", "phone", "ssn", "iban"]) then "sensitive_data_submission"
    else if ContainsAny(t, ["policy", "system prompt", "leakage"]) then "policy_leakage"
    else if ContainsAny(t, ["base64", "hex", "obfuscation", "unicode escape"]) then "encoding_obfuscation"
    else if ContainsAny(t, ["tool abuse", "function call", "plugin abuse"]) then "tool_abuse_attempt"
    else if ContainsAny(t, ["dos", "denial of service", "resource exhaustion"]) then "denial_of_service_attempt"
    else if Contains(t, "unsafe") then "unsafe_output"
    else "suspicious"
  }

  function DefaultAction(tag: string): string {
    if tag == "benign" then "allow"
    else if tag == "sensitive_data_submission" then "redact"
    else if tag in { "prompt_injection", "jailbreak_attempt", "secret_exfiltration_intent", "exploit_or_malware_intent",
                       "policy_leakage", "unsafe_output", "tool_abuse_attempt", "model_theft_probe" } then "deny"
    else "allow_with_restrictions"
  }

  // ----- the normaliser

  datatype Payload = Payload(
    tag: Value, confidence: Value, risk: Value, reasons: Value, action: Value,
    owasp: Value, techniques: Value, sensitive: Value, parserSource: Value)

  datatype Normalized = Normalized(
    tag: string, confidence: real, risk: int, reasons: seq<string>, action: string,
    owasp: seq<string>, techniques: seq<string>, sensitive: seq<string>)

  /** The items as text, stripped, without those that strip to nothing. */
  function StrippedItems(h: Host, items: seq<Value>): seq<string> {
    if items == [] then []
    else
      var s := Strip(h.str(items[0]));
      (if s == "" then [] else [s]) + StrippedItems(h, items[1..])
  }

  function ToStringList(h: Host, v: Value): seq<string> {
    match v
    case List(items) => StrippedItems(h, items)
    case Null => []
    case Missing => []
    case other => if Strip(h.str(other)) == "" then [] else [Strip(h.str(other))]
  }

  function TextOr(h: Host, v: Value, default: string): string {
    if v.Missing? then default else h.str(v)
  }

  function JoinSpaced(parts: seq<string>): string {
    Join(" ", parts)
  }

  function LabelOf(h: Host, p: Payload): string {
    var tag := h.lower(Strip(TextOr(h, p.tag, "suspicious")));
    if tag in ALLOWED_LABELS then tag else InferLabel(h.lower, JoinSpaced(ToStringList(h, p.reasons)))
  }

  function ActionOf(h: Host, p: Payload): string {
    var action := h.lower(Strip(TextOr(h, p.action, "allow_with_restrictions")));
    if action in ALLOWED_ACTIONS then action else DefaultAction(LabelOf(h, p))
  }

  /** Clamped to 0..1; a NaN, which compares with nothing, ends up at the upper end. */
  function ClampUnit(x: Float): real {
    match x
    case Finite(r) => if r < 0.0 then 0.0 else if r > 1.0 then 1.0 else r
    case NaN => 1.0
    case PosInf => 1.0
    case NegInf => 0.0
  }

  function ClampPercent(n: int): int {
    if n < 0 then 0 else if n > 100 then 100 else n
  }

  function ConfidenceOf(h: Host, p: Payload): Option<real> {
    match ToFloat(h, p.confidence)
    case Converted(x) => Some(ClampUnit(x))
    case BadValue => Some(0.5)
    case Overflow => None
  }

  /** int(float(v)): a NaN raises ValueError and falls back, an infinity raises
      OverflowError and does not. */
  function RiskOf(h: Host, p: Payload): Option<int> {
    match ToFloat(h, p.risk)
    case Converted(x) => (
      match x
      case Finite(r) => Some(ClampPercent(Truncate(r)))
      case NaN => Some(50)
      case _ => None)
    case BadValue => Some(50)
    case Overflow => None
  }

  function ParserSource(h: Host, p: Payload): string {
    var s := Strip(TextOr(h, p.parserSource, "json"));
    if s == "" then "json" else s
  }

  function ReasonsOf(h: Host, p: Payload): seq<string> {
    var reasons := ToStringList(h, p.reasons);
    if reasons == [] || reasons == ["llm_guard_assessment"] then
      [ "llm_guard_label:" + LabelOf(h, p), "llm_guard_action:" + ActionOf(h, p),
        "llm_guard_parser:" + ParserSource(h, p) ]
    else reasons
  }

  /** The normalised answer, or None when a conversion raises OverflowError. */
  function Normalize(h: Host, p: Payload): Option<Normalized> {
    match (ConfidenceOf(h, p), RiskOf(h, p))
    case (Some(confidence), Some(risk)) =>
      Some(Normalized(LabelOf(h, p), confidence, risk, ReasonsOf(h, p), ActionOf(h, p),
                      ToStringList(h, p.owasp), ToStringList(h, p.techniques), ToStringList(h, p.sensitive)))
    case _ => None
  }

  // ----- what a normalised answer is

  predicate TidyStrings(ss: seq<string>) {
    forall i | 0 <= i < |ss| :: ss[i] != "" && Stripped(ss[i])
  }

  predicate WellFormed(n: Normalized) {
    && n.tag in ALLOWED_LABELS && n.action in ALLOWED_ACTIONS
    && 0.0 <= n.confidence <= 1.0 && 0 <= n.risk <= 100
    && n.reasons != [] && n.reasons != ["llm_guard_assessment"] && TidyStrings(n.reasons)
    && TidyStrings(n.owasp) && TidyStrings(n.techniques) && TidyStrings(n.sensitive)
  }

  lemma SharedTidy(s: string)
    requires s in SHARED_LABELS
    ensures LowerAscii(s) && Stripped(s) && s != ""
  {
  }

  lemma IntentTidy(s: string)
    requires s in INTENT_LABELS
    ensures LowerAscii(s) && Stripped(s) && s != ""
  {
  }

  lemma ExtendedTidy(s: string)
    requires s in EXTENDED_LABELS
    ensures LowerAscii(s) && Stripped(s) && s != ""
  {
  }

  lemma AbuseTidy(s: string)
    requires s in ABUSE_LABELS
    ensures LowerAscii(s) && Stripped(s) && s != ""
  {
  }

  lemma LabelsAreTidy(s: string)
    requires s in ALLOWED_LABELS
    ensures LowerAscii(s) && Stripped(s) && s != ""
  {
    if s in SHARED_LABELS { SharedTidy(s); }
    else if s in INTENT_LABELS { IntentTidy(s); }
    else if s in EXTENDED_LABELS { ExtendedTidy(s); }
    else { AbuseTidy(s); }
  }

  lemma ActionsAreTidy(s: string)
    requires s in ALLOWED_ACTIONS
    ensures LowerAscii(s) && Stripped(s) && s != ""
  {
  }

  /** The keyword cascade only ever infers an allowed label. */
  lemma InferredLabelAllowed(lower: string -> string, text: string)
    ensures InferLabel(lower, text) in ALLOWED_LABELS
  {
    var r := InferLabel(lower, text);
    assert r in SHARED_LABELS || r in INTENT_LABELS || r in EXTENDED_LABELS || r in ABUSE_LABELS;
  }

  // ----- what the keyword cascade infers, and the action that goes with a label

  /** The text mentions a word of the k-th family. */
  predicate Mentions(t: string, k: nat) {
    match k
    case 0 => Contains(t, "jailbreak") || Contains(t, "dan") || Contains(t, "ignore previous instructions")
    case 1 => Contains(t, "prompt injection") || Contains(t, "injection") || Contains(t, "override instruction")
    case 2 => Contains(t, "malware") || Contains(t, "exploit") || Contains(t, "rce") || Contains(t, "shellcode")
    case 3 =>
      Contains(t, "exfiltration") || Contains(t, "api key") || Contains(t, "token") || Contains(t, "password")
      || Contains(t, "credential")
    case 4 =>
      Contains(t, "pii") || Contains(t, "email") || Contains(t, "phone") || Contains(t, "ssn") || Contains(t, "iban")
    case 5 => Contains(t, "policy") || Contains(t, "system prompt") || Contains(t, "leakage")
    case 6 =>
      Contains(t, "base64") || Contains(t, "hex") || Contains(t, "obfuscation") || Contains(t, "unicode escape")
    case 7 => Contains(t, "tool abuse") || Contains(t, "function call") || Contains(t, "plugin abuse")
    case 8 => Contains(t, "dos") || Contains(t, "denial of service") || Contains(t, "resource exhaustion")
    case _ => Contains(t, "unsafe")
  }

  function FamilyLabel(k: nat): string {
    match k
    case 0 => "jailbreak_attempt"
    case 1 => "prompt_injection"
    case 2 => "exploit_or_malware_intent"
    case 3 => "secret_exfiltration_intent"
    case 4 => "sensitive_data_submission"
    case 5 => "policy_leakage"
    case 6 => "encoding_obfuscation"
    case 7 => "tool_abuse_attempt"
    case 8 => "denial_of_service_attempt"
    case 9 => "unsafe_output"
    case _ => "suspicious"
  }

  lemma AnyOfThree(t: string, a: string, b: string, c: string)
    ensures ContainsAny(t, [a, b, c]) <==> Contains(t, a) || Contains(t, b) || Contains(t, c)
  {
    var words := [a, b, c];
    assert words[0] == a && words[1] == b && words[2] == c;
  }

  lemma AnyOfFour(t: string, a: string, b: string, c: string, d: string)
    ensures ContainsAny(t, [a, b, c, d]) <==> Contains(t, a) || Contains(t, b) || Contains(t, c) || Contains(t, d)
  {
    var words := [a, b, c, d];
    assert words[0] == a && words[1] == b && words[2] == c && words[3] == d;
  }

  lemma AnyOfFive(t: string, a: string, b: string, c: string, d: string, e: string)
    ensures ContainsAny(t, [a, b, c, d, e])
            <==> Contains(t, a) || Contains(t, b) || Contains(t, c) || Contains(t, d) || Contains(t, e)
  {
    var words := [a, b, c, d, e];
    assert words[0] == a && words[1] == b && words[2] == c && words[3] == d && words[4] == e;
  }

  lemma AttackFamilies(t: string)
    ensures ContainsAny(t, ["jailbreak", "dan", "ignore previous instructions"]) <==> Mentions(t, 0)
    ensures ContainsAny(t, ["prompt injection", "injection", "override instruction"]) <==> Mentions(t, 1)
    ensures ContainsAny(t, ["malware", "exploit", "rce", "shellcode"]) <==> Mentions(t, 2)
  {
    AnyOfThree(t, "jailbreak", "dan", "ignore previous instructions");
    AnyOfThree(t, "prompt injection", "injection", "override instruction");
    AnyOfFour(t, "malware", "exploit", "rce", "shellcode");
  }

  lemma DataFamilies(t: string)
    ensures ContainsAny(t, ["exfiltration", "api key", "token", "password", "credential"]) <==> Mentions(t, 3)
    ensures ContainsAny(t, ["pii", "email", "phone", "ssn", "iban"]) <==> Mentions(t, 4)
    ensures ContainsAny(t, ["policy", "system prompt", "leakage"]) <==> Mentions(t, 5)
  {
    AnyOfFive(t, "exfiltration", "api key", "token", "password", "credential");
    AnyOfFive(t, "pii", "email", "phone", "ssn", "iban");
    AnyOfThree(t, "policy", "system prompt", "leakage");
  }

  lemma AbuseFamilies(t: string)
    ensures ContainsAny(t, ["base64", "hex", "obfuscation", "unicode escape"]) <==> Mentions(t, 6)
    ensures ContainsAny(t, ["tool abuse", "function call", "plugin abuse"]) <==> Mentions(t, 7)
    ensures ContainsAny(t, ["dos", "denial of service", "resource exhaustion"]) <==> Mentions(t, 8)
  {
    AnyOfFour(t, "base64", "hex", "obfuscation", "unicode escape");
    AnyOfThree(t, "tool abuse", "function call", "plugin abuse");
    AnyOfThree(t, "dos", "denial of service", "resource exhaustion");
  }

  /** The cascade gives the label of the first family mentioned, unless the text calls itself
      safe and not unsafe. */
  lemma InferredExactly(lower: string -> string, text: string, k: nat)
    requires k <= 10 && (k < 10 ==> Mentions(lower(text), k)) && forall j: nat | j < k :: !Mentions(lower(text), j)
    ensures InferLabel(lower, text)
            == if Contains(lower(text), "safe") && !Contains(lower(text), "unsafe") then "benign" else FamilyLabel(k)
  {
    var t := lower(text);
    AttackFamilies(t);
    DataFamilies(t);
    AbuseFamilies(t);
    assert k > 0 ==> !Mentions(t, 0);
    assert k > 1 ==> !Mentions(t, 1);
    assert k > 2 ==> !Mentions(t, 2);
    assert k > 3 ==> !Mentions(t, 3);
    assert k > 4 ==> !Mentions(t, 4);
    assert k > 5 ==> !Mentions(t, 5);
    assert k > 6 ==> !Mentions(t, 6);
    assert k > 7 ==> !Mentions(t, 7);
    assert k > 8 ==> !Mentions(t, 8);
    assert k > 9 ==> !Mentions(t, 9);
  }

  lemma ContainsPart(t: string, word: string, part: string, at: nat)
    requires Contains(t, word) && at + |part| <= |word| && word[at..at + |part|] == part
    ensures Contains(t, part)
  {
    var i :| 0 <= i <= |t| && OccursAt(t, word, i);
    forall q | 0 <= q < |part|
      ensures t[i + at + q] == part[q]
    {
      assert t[i..i + |word|][at + q] == t[i + at + q] && word[at..at + |part|][q] == word[at + q];
    }
    assert t[i + at..i + at + |part|] == part;
    assert OccursAt(t, part, i + at);
  }

  /** The words are looked for inside others: whatever mentions a danger is taken for a
      jailbreak attempt, unless it calls itself safe and not unsafe. */
  lemma DangerIsJailbreak(lower: string -> string, text: string)
    requires Contains(lower(text), "danger")
    ensures InferLabel(lower, text)
            == if Contains(lower(text), "safe") && !Contains(lower(text), "unsafe") then "benign"
               else "jailbreak_attempt"
  {
    ContainsPart(lower(text), "danger", "dan", 0);
    InferredExactly(lower, text, 0);
  }

  /** The action put in for an unknown one: allow for benign labels only, redact for
      sensitive data only, and deny for the eight gravest. */
  lemma DefaultActionExactly(tag: string)
    ensures DefaultAction(tag) == "allow" <==> tag == "benign"
    ensures DefaultAction(tag) == "redact" <==> tag == "sensitive_data_submission"
    ensures DefaultAction(tag) == "deny" <==>
              || tag == "prompt_injection" || tag == "jailbreak_attempt" || tag == "secret_exfiltration_intent"
              || tag == "exploit_or_malware_intent" || tag == "policy_leakage" || tag == "unsafe_output"
              || tag == "tool_abuse_attempt" || tag == "model_theft_probe"
    ensures DefaultAction(tag) in {"allow", "redact", "deny", "allow_with_restrictions"}
  {
    assert "allow" != "redact" && "allow" != "deny" && "redact" != "deny";
    assert |"allow_with_restrictions"| == 23 && |"allow"| == 5 && |"redact"| == 6 && |"deny"| == 4;
  }

  lemma LabelAllowed(h: Host, p: Payload)
    ensures LabelOf(h, p) in ALLOWED_LABELS
  {
    InferredLabelAllowed(h.lower, JoinSpaced(ToStringList(h, p.reasons)));
  }

  lemma ActionAllowed(h: Host, p: Payload)
    ensures ActionOf(h, p) in ALLOWED_ACTIONS
  {
  }

  lemma {:induction false} StrippedItemsTidy(h: Host, items: seq<Value>)
    ensures TidyStrings(StrippedItems(h, items))
  {
    if items != [] {
      StrippedItemsTidy(h, items[1..]);
      var lo, hi := StripCut(h.str(items[0]));
    }
  }

  lemma ToStringListTidy(h: Host, v: Value)
    ensures TidyStrings(ToStringList(h, v))
  {
    match v {
      case List(items) => StrippedItemsTidy(h, items);
      case Null =>
      case Missing =>
      case other =>
        var lo, hi := StripCut(h.str(other));
    }
  }

  lemma JoinedTidy(a: string, b: string)
    requires a != "" && Stripped(a) && b != "" && Stripped(b)
    ensures a + b != "" && Stripped(a + b)
  {
  }

  lemma FallbackReasonsTidy(tag: string, action: string, source: string)
    requires tag != "" && Stripped(tag) && action != "" && Stripped(action) && source != "" && Stripped(source)
    ensures TidyStrings(["llm_guard_label:" + tag, "llm_guard_action:" + action, "llm_guard_parser:" + source])
  {
    JoinedTidy("llm_guard_label:", tag);
    JoinedTidy("llm_guard_action:", action);
    JoinedTidy("llm_guard_parser:", source);
  }

  lemma ReasonsAreTidy(h: Host, p: Payload)
    ensures var r := ReasonsOf(h, p); r != [] && r != ["llm_guard_assessment"] && TidyStrings(r)
  {
    ToStringListTidy(h, p.reasons);
    LabelAllowed(h, p);
    LabelsAreTidy(LabelOf(h, p));
    ActionAllowed(h, p);
    ActionsAreTidy(ActionOf(h, p));
    var lo, hi := StripCut(TextOr(h, p.parserSource, "json"));
    FallbackReasonsTidy(LabelOf(h, p), ActionOf(h, p), ParserSource(h, p));
  }

  lemma NumbersInRange(h: Host, p: Payload)
    ensures ConfidenceOf(h, p).Some? ==> 0.0 <= ConfidenceOf(h, p).value <= 1.0
    ensures RiskOf(h, p).Some? ==> 0 <= RiskOf(h, p).value <= 100
  {
  }

  /** An allowed label or action is kept; another label is inferred from the reasons, and
      another action is the default for the label that results. */
  lemma UnknownTagsReplaced(h: Host, p: Payload)
    requires Normalize(h, p).Some?
    ensures var n := Normalize(h, p).value;
            var tag := h.lower(Strip(TextOr(h, p.tag, "suspicious")));
            var action := h.lower(Strip(TextOr(h, p.action, "allow_with_restrictions")));
            && (tag in ALLOWED_LABELS ==> n.tag == tag)
            && (tag !in ALLOWED_LABELS ==> n.tag == InferLabel(h.lower, Join(" ", ToStringList(h, p.reasons))))
            && (action in ALLOWED_ACTIONS ==> n.action == action)
            && (action !in ALLOWED_ACTIONS ==> n.action == DefaultAction(n.tag))
  {
    NormalizedFields(h, p);
  }

  /** Reasons are kept unless there are none or only the placeholder; then three name the
      label, the action and where the answer was read. */
  lemma MissingReasonsReplaced(h: Host, p: Payload)
    requires Normalize(h, p).Some?
    ensures var n, given := Normalize(h, p).value, ToStringList(h, p.reasons);
            if given != [] && given != ["llm_guard_assessment"] then n.reasons == given
            else
              && |n.reasons| == 3 && n.reasons[0] == "llm_guard_label:" + n.tag
              && n.reasons[1] == "llm_guard_action:" + n.action
              && n.reasons[2] == "llm_guard_parser:" +
                                 if Strip(TextOr(h, p.parserSource, "json")) == "" then "json"
                                 else Strip(TextOr(h, p.parserSource, "json"))
  {
    NormalizedFields(h, p);
  }

  /** A list becomes the stripped texts of its items that are not blank, in order. */
  lemma {:induction false} ItemsOneByOne(h: Host, a: seq<Value>, b: seq<Value>, v: Value)
    ensures StrippedItems(h, a + b) == StrippedItems(h, a) + StrippedItems(h, b)
    ensures StrippedItems(h, [v]) == if Strip(h.str(v)) == "" then [] else [Strip(h.str(v))]
  {
    assert [v][1..] == [];
    if a == [] {
      assert a + b == b;
    } else {
      ItemsOneByOne(h, a[1..], b, v);
      assert (a + b)[1..] == a[1..] + b;
      var first := if Strip(h.str(a[0])) == "" then [] else [Strip(h.str(a[0]))];
      ConcatAssoc(first, StrippedItems(h, a[1..]), StrippedItems(h, b));
    }
  }

  function Distance(x: real, y: real): real {
    if x < y then y - x else x - y
  }

  /** Numbers are moved as little as possible: a finite confidence to the nearest in 0..1 and
      a finite risk, once truncated, to the nearest percentage; what is no number counts as
      middling, and a NaN confidence as certain. */
  lemma NumbersAreNearest(h: Host, p: Payload, r: real, x: real, k: int)
    requires 0.0 <= x <= 1.0 && 0 <= k <= 100
    ensures ToFloat(h, p.confidence) == Converted(Finite(r)) ==>
              ConfidenceOf(h, p).Some? && Distance(r, ConfidenceOf(h, p).value) <= Distance(r, x)
    ensures ToFloat(h, p.risk) == Converted(Finite(r)) ==>
              RiskOf(h, p).Some? &&
              Distance(Truncate(r) as real, RiskOf(h, p).value as real) <= Distance(Truncate(r) as real, k as real)
    ensures ToFloat(h, p.confidence).BadValue? ==> ConfidenceOf(h, p) == Some(0.5)
    ensures ToFloat(h, p.risk).BadValue? || ToFloat(h, p.risk) == Converted(NaN) ==> RiskOf(h, p) == Some(50)
    ensures ToFloat(h, p.confidence) == Converted(NaN) ==> ConfidenceOf(h, p) == Some(1.0)
  {
  }

  lemma NormalizedFields(h: Host, p: Payload)
    requires Normalize(h, p).Some?
    ensures ConfidenceOf(h, p).Some? && RiskOf(h, p).Some?
    ensures Normalize(h, p).value ==
              Normalized(LabelOf(h, p), ConfidenceOf(h, p).value, RiskOf(h, p).value, ReasonsOf(h, p), ActionOf(h, p),
                         ToStringList(h, p.owasp), ToStringList(h, p.techniques), ToStringList(h, p.sensitive))
  {
  }

  /** Every answer that normalises is well formed, whatever the payload held. */
  lemma NormalizedIsWellFormed(h: Host, p: Payload)
    requires Normalize(h, p).Some?
    ensures WellFormed(Normalize(h, p).value)
  {
    NormalizedFields(h, p);
    NumbersInRange(h, p);
    LabelAllowed(h, p);
    ActionAllowed(h, p);
    ReasonsAreTidy(h, p);
    ToStringListTidy(h, p.owasp);
    ToStringListTidy(h, p.techniques);
    ToStringListTidy(h, p.sensitive);
  }

  /** Normalisation raises exactly when a number is too large to convert or the risk
      score is infinite; JSON as Python reads it can say both. */
  predicate Raises(h: Host, p: Payload) {
    || ToFloat(h, p.confidence).Overflow?
    || ToFloat(h, p.risk).Overflow?
    || ToFloat(h, p.risk) == Converted(PosInf)
    || ToFloat(h, p.risk) == Converted(NegInf)
  }

  lemma NormalizeRaisesExactly(h: Host, p: Payload)
    ensures Normalize(h, p).None? <==> Raises(h, p)
    ensures Normalize(h, p.(risk := Number(PosInf))).None?
  {
  }

  // ----- normalising twice

  function StringValues(ss: seq<string>): seq<Value> {
    if ss == [] then [] else [Str(ss[0])] + StringValues(ss[1..])
  }

  /** A normalised answer as the dictionary that holds it. */
  function Repack(n: Normalized): Payload {
    Payload(Str(n.tag), Number(Finite(n.confidence)), Integer(n.risk), List(StringValues(n.reasons)), Str(n.action),
            List(StringValues(n.owasp)), List(StringValues(n.techniques)), List(StringValues(n.sensitive)), Missing)
  }

  lemma {:induction false} TidyStringsFixed(h: Host, ss: seq<string>)
    requires HostOk(h) && TidyStrings(ss)
    ensures StrippedItems(h, StringValues(ss)) == ss
  {
    if ss != [] {
      assert ss[0] != "" && Stripped(ss[0]);
      assert TidyStrings(ss[1..]) by {
        assert forall i | 0 <= i < |ss| - 1 :: ss[1..][i] == ss[i + 1];
      }
      TidyStringsFixed(h, ss[1..]);
      StripFixed(ss[0]);
      assert StringValues(ss)[1..] == StringValues(ss[1..]);
      assert h.str(Str(ss[0])) == ss[0];
    }
  }

  lemma TruncateInt(n: int)
    requires 0 <= n
    ensures Truncate(n as real) == n
  {
  }

  lemma LabelFixed(h: Host, n: Normalized)
    requires HostOk(h) && n.tag in ALLOWED_LABELS && n.action in ALLOWED_ACTIONS
    ensures LabelOf(h, Repack(n)) == n.tag && ActionOf(h, Repack(n)) == n.action
  {
    LabelsAreTidy(n.tag);
    ActionsAreTidy(n.action);
    StripFixed(n.tag);
    StripFixed(n.action);
    assert h.str(Str(n.tag)) == n.tag && h.str(Str(n.action)) == n.action;
  }

  lemma NumbersFixed(h: Host, n: Normalized)
    requires HostOk(h) && 0.0 <= n.confidence <= 1.0 && 0 <= n.risk <= 100
    ensures RiskOf(h, Repack(n)) == Some(n.risk) && ConfidenceOf(h, Repack(n)) == Some(n.confidence)
  {
    TruncateInt(n.risk);
    assert h.intFits(n.risk);
  }

  lemma ListFixed(h: Host, ss: seq<string>)
    requires HostOk(h) && TidyStrings(ss)
    ensures ToStringList(h, List(StringValues(ss))) == ss
  {
    TidyStringsFixed(h, ss);
  }

  lemma ReasonsFixed(h: Host, n: Normalized)
    requires HostOk(h) && TidyStrings(n.reasons) && n.reasons != [] && n.reasons != ["llm_guard_assessment"]
    ensures ReasonsOf(h, Repack(n)) == n.reasons
  {
    ListFixed(h, n.reasons);
  }

  /** Well-formed answers are fixpoints, so normalisation is idempotent on its output. */
  lemma WellFormedIsFixpoint(h: Host, n: Normalized)
    requires HostOk(h) && WellFormed(n)
    ensures Normalize(h, Repack(n)) == Some(n)
  {
    LabelFixed(h, n);
    NumbersFixed(h, n);
    ReasonsFixed(h, n);
    ListFixed(h, n.owasp);
    ListFixed(h, n.techniques);
    ListFixed(h, n.sensitive);
  }

  lemma NormalizeIdempotent(h: Host, p: Payload)
    requires HostOk(h) && Normalize(h, p).Some?
    ensures Normalize(h, Repack(Normalize(h, p).value)) == Normalize(h, p)
  {
    NormalizedIsWellFormed(h, p);
    WellFormedIsFixpoint(h, Normalize(h, p).value);
  }

  // ----- the analysis of a parsed answer

  /** The conservative analysis that stands in for an answer that raised. */
  function Fallback(error: string): Normalized {
    Normalized("suspicious", 0.40, 35, ["llm_guard_fallback:" + error], "allow_with_restrictions", [], [], [])
  }

  function Analysis(h: Host, p: Payload): Normalized {
    match Normalize(h, p)
    case Some(n) => n
    case None => Fallback("OverflowError")
  }

  /** Whatever the guard model answered, the analysis that reaches the classifier has an
      allowed label and action, and confidence and risk in range. */
  lemma AnalysisIsWellFormed(h: Host, p: Payload)
    ensures WellFormed(Analysis(h, p))
  {
    if Normalize(h, p).Some? {
      NormalizedIsWellFormed(h, p);
    } else {
      var prefix, error := "llm_guard_fallback:", "OverflowError";
      JoinedTidy(prefix, error);
      assert Analysis(h, p).reasons == [prefix + error];
      assert |prefix + error| != |"llm_guard_assessment"|;
    }
  }

  /** It is the normalised answer or, when that raised, mere suspicion, too unsure to be
      heeded. */
  lemma AnalysisExactly(h: Host, p: Payload)
    ensures if Raises(h, p) then
              Analysis(h, p).tag == "suspicious" && Analysis(h, p).confidence == 0.4 && Analysis(h, p).risk == 35
              && Analysis(h, p).action == "allow_with_restrictions"
            else Normalize(h, p) == Some(Analysis(h, p))
  {
    NormalizeRaisesExactly(h, p);
  }

  // ----- the call window

  /** The guard's deque of call times: at most maxPerSecond first attempts a second. */
  class CallWindow {
    const maxPerSecond: int
    var callTimes: seq<real>

    constructor (maxRps: int)
      ensures maxPerSecond == Max(1, maxRps) && callTimes == []
    {
      maxPerSecond, callTimes := Max(1, maxRps), [];
    }

    /** Whether a call at `now` may go out; a call that may is remembered. */
    method TryCall(now: real) returns (admitted: bool)
      modifies this
      ensures (callTimes, admitted) == WindowStep(maxPerSecond, old(callTimes), now)
    {
      while callTimes != [] && now - callTimes[0] > 1.0
        invariant DropOld(callTimes, now, 1.0) == DropOld(old(callTimes), now, 1.0)
        decreases |callTimes|
      {
        callTimes := callTimes[1..];
      }
      if |callTimes| >= maxPerSecond {
        return false;
      }
      callTimes := callTimes + [now];
      admitted := true;
    }
  }

  function WindowStep(max: int, times: seq<real>, now: real): (seq<real>, bool) {
    var kept := DropOld(times, now, 1.0);
    if |kept| >= max then (kept, false) else (kept + [now], true)
  }

  /** The admitted times among a sequence of attempts. */
  function AdmittedCalls(max: int, times: seq<real>, attempts: seq<real>): seq<real>
    decreases |attempts|
  {
    if attempts == [] then []
    else
      var (times1, ok) := WindowStep(max, times, attempts[0]);
      (if ok then [attempts[0]] else []) + AdmittedCalls(max, times1, attempts[1..])
  }

  ghost predicate WindowInv(max: int, times: seq<real>, log: seq<real>, now: real) {
    Sorted(times) && (times != [] ==> Last(times) <= now) && Covers(times, log, now, 1.0, max)
  }

  lemma WindowStepSorted(max: int, times: seq<real>, now: real, t: real)
    requires Sorted(times) && (times != [] ==> Last(times) <= now) && now <= t
    ensures var (times1, ok) := WindowStep(max, times, t);
            && DropOld(times, t, 1.0) == Since(times, t - 1.0)
            && Sorted(times1) && (times1 != [] ==> Last(times1) <= t)
  {
    DropOldIsSince(times, t, 1.0);
    SinceSorted(times, t - 1.0);
  }

  lemma WindowStepKeeps(max: int, times: seq<real>, log: seq<real>, now: real, t: real)
    requires WindowInv(max, times, log, now) && now <= t
    ensures var (times1, ok) := WindowStep(max, times, t);
            WindowInv(max, times1, log + if ok then [t] else [], t)
  {
    WindowStepSorted(max, times, now, t);
    CoversLater(times, log, now, t, 1.0, max);
    if WindowStep(max, times, t).1 {
      CoversAdmit(times, log, t, 1.0, max);
    } else {
      assert log + [] == log;
    }
  }

  lemma LogAfterStep(max: int, times: seq<real>, log: seq<real>, attempts: seq<real>)
    requires attempts != []
    ensures var (times1, ok) := WindowStep(max, times, attempts[0]);
            log + AdmittedCalls(max, times, attempts)
            == (log + if ok then [attempts[0]] else []) + AdmittedCalls(max, times1, attempts[1..])
  {
    var (times1, ok) := WindowStep(max, times, attempts[0]);
    var step, rest := if ok then [attempts[0]] else [], AdmittedCalls(max, times1, attempts[1..]);
    assert AdmittedCalls(max, times, attempts) == step + rest;
    ConcatAssoc(log, step, rest);
  }

  /** The call times kept after a sequence of attempts. */
  function TimesAfter(max: int, times: seq<real>, attempts: seq<real>): seq<real>
    decreases |attempts|
  {
    if attempts == [] then times else TimesAfter(max, WindowStep(max, times, attempts[0]).0, attempts[1..])
  }

  lemma {:induction false} WindowRun(max: int, times: seq<real>, log: seq<real>, now: real, attempts: seq<real>)
    requires WindowInv(max, times, log, now)
    requires Sorted(attempts) && (attempts != [] ==> now <= attempts[0])
    ensures WindowInv(max, TimesAfter(max, times, attempts), log + AdmittedCalls(max, times, attempts),
                      if attempts == [] then now else Last(attempts))
    decreases |attempts|
  {
    if attempts == [] {
      assert log + [] == log;
    } else {
      var t := attempts[0];
      var (times1, ok) := WindowStep(max, times, t);
      WindowStepKeeps(max, times, log, now, t);
      SortedTail(attempts);
      LogAfterStep(max, times, log, attempts);
      WindowRun(max, times1, log + if ok then [t] else [], t, attempts[1..]);
    }
  }

  lemma WindowFromStart(max: int, start: real, attempts: seq<real>)
    requires max >= 1 && Sorted(attempts) && (attempts != [] ==> start <= attempts[0])
    ensures WindowInv(max, TimesAfter(max, [], attempts), AdmittedCalls(max, [], attempts),
                      if attempts == [] then start else Last(attempts))
  {
    assert Covers([], [], start, 1.0, max) by {
      assert forall x: real :: AtMostFrom([], x, 1.0, max);
    }
    WindowRun(max, [], [], start, attempts);
    assert [] + AdmittedCalls(max, [], attempts) == AdmittedCalls(max, [], attempts);
  }

  /** Under a non-decreasing clock no closed second holds more admitted guard calls than
      the configured rate. */
  lemma GuardCallsBounded(max: int, attempts: seq<real>, a: real)
    requires max >= 1 && Sorted(attempts)
    ensures CountIn(AdmittedCalls(max, [], attempts), a, a + 1.0) <= max
  {
    WindowFromStart(max, if attempts == [] then 0.0 else attempts[0], attempts);
    assert AtMostFrom(AdmittedCalls(max, [], attempts), a, 1.0, max);
  }

  /** And a call is turned away only for that: after any such attempts the next one is
      admitted if and only if fewer calls than the rate were admitted in the last second. */
  lemma CallAdmittedExactly(max: int, attempts: seq<real>, t: real)
    requires max >= 1 && Sorted(attempts) && (attempts != [] ==> Last(attempts) <= t)
    ensures WindowStep(max, TimesAfter(max, [], attempts), t).1
            <==> |Since(AdmittedCalls(max, [], attempts), t - 1.0)| < max
  {
    var now := if attempts == [] then t else Last(attempts);
    var times, log := TimesAfter(max, [], attempts), AdmittedCalls(max, [], attempts);
    WindowFromStart(max, if attempts == [] then t else attempts[0], attempts);
    WindowStepSorted(max, times, now, t);
    CoversLater(times, log, now, t, 1.0, max);
  }
}
