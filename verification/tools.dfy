/** The tool gateway of app/tool_gateway.py: the per-item decision cascade, the
    name-keyed decision map, and what the execution records then carry. */
module Tools {
  import opened Records
  import opened Text
  import opened Policy

  // ----- requests

  datatype ArgValue = Str(text: string) | OtherValue(repr: int)

  type Args = map<string, ArgValue>

  /** The name an item gives: missing, a string, or any other value, of which only its
      truth matters: null, false, 0 and empty containers are false. */
  datatype Name = Absent | Named(text: string) | NotText(truthy: bool)

  /** A requested item. Its arguments are None when they are given but no dictionary, and
      empty when they are missing; an item need not be a dictionary itself. */
  datatype Item = NotAnItem | Item(name: Name, arguments: Option<Args>)

  datatype ToolDefinition = ToolDefinition(permission: string, sensitivity: Sensitivity, enabled: bool)

  const TOOL_REGISTRY: map<string, ToolDefinition> := map[
    "browser.search" := ToolDefinition("tool:browser.search", PublicData, true),
    "kb.lookup" := ToolDefinition("tool:kb.lookup", InternalData, true),
    "ticket.create" := ToolDefinition("tool:ticket.create", InternalData, true),
    "email.send" := ToolDefinition("tool:email.send", ConfidentialData, true)]

  /** The pattern matchers, left open: one for injection and one for tool chains in an
      argument, one for tool invocations in a stringified argument dictionary. */
  datatype Matchers = Matchers(injection: string -> bool, chain: string -> bool, output: Args -> bool)

  datatype Reason =
    | UnknownTool | ToolDisabled | ToolsDisabledByPolicy | MissingToolPermission | SensitivityExceedsPolicy
    | BlockedByClassification | ArgumentInjection | ChainInjection | ToolAllowed
    | ToolNotAllowed | ChainInjectionInOutput | ExecutionStub

  datatype ToolDecision = ToolDecision(name: string, allowed: bool, reason: Reason, arguments: Args)

  datatype ToolRecord = ToolRecord(name: string, allowed: bool, reason: Reason, arguments: Args)

  /** What the gateway reads of the request. */
  datatype ToolContext = ToolContext(
    permissions: set<string>, decision: Option<Decision>, classification: Option<Classification>,
    registry: map<string, ToolDefinition>, matchers: Matchers)

  function SensitivityRank(s: Sensitivity): nat {
    match s case PublicData => 0 case InternalData => 1 case ConfidentialData => 2 case RestrictedData => 3
  }

  predicate AnyText(args: Args, matcher: string -> bool) {
    exists k | k in args :: args[k].Str? && matcher(args[k].text)
  }

  // ----- sanitised arguments

  function WithoutNul(s: string): string {
    if s == [] then [] else (if s[0] as int == 0 then [] else [s[0]]) + WithoutNul(s[1..])
  }

  function SanitizeValue(v: ArgValue): ArgValue {
    match v
    case Str(text) => Str(Prefix(Strip(WithoutNul(text)), 1000))
    case other => other
  }

  function Sanitize(args: Args): Args {
    map k | k in args :: SanitizeValue(args[k])
  }

  predicate NulFree(s: string) {
    forall i | 0 <= i < |s| :: s[i] as int != 0
  }

  /** Nulls go and everything else stays, in order: what is done to a concatenation is done
      to its parts. */
  lemma {:induction false} NulsRemoved(a: string, b: string)
    ensures NulFree(WithoutNul(a)) && (NulFree(a) ==> WithoutNul(a) == a)
    ensures WithoutNul(a + b) == WithoutNul(a) + WithoutNul(b)
  {
    if a == [] {
      assert a + b == b;
    } else {
      assert (a + b)[1..] == a[1..] + b && (NulFree(a) ==> NulFree(a[1..]) && a[0] as int != 0);
      NulsRemoved(a[1..], b);
      var first := if a[0] as int == 0 then [] else [a[0]];
      assert first + (WithoutNul(a[1..]) + WithoutNul(b)) == first + WithoutNul(a[1..]) + WithoutNul(b);
    }
  }

  /** An argument text keeps what is left of it without nulls and outer whitespace, up to a
      thousand characters; other values stay. */
  lemma SanitizedExactly(text: string, l: string, m: string, r: string, repr: int)
    requires WithoutNul(text) == l + m + r && AllSpace(l) && Stripped(m) && AllSpace(r)
    ensures SanitizeValue(Str(text)) == Str(if |m| <= 1000 then m else m[..1000])
    ensures SanitizeValue(OtherValue(repr)) == OtherValue(repr)
  {
    StripExactly(l, m, r);
  }

  lemma SanitizedFixpoint(text: string)
    ensures SanitizeValue(Str(text)) == Str(text) <==> NulFree(text) && Stripped(text) && |text| <= 1000
  {
    NulsRemoved(text, []);
    WithoutNulLength(text);
    var lo, hi := StripCut(WithoutNul(text));
    if NulFree(text) && Stripped(text) && |text| <= 1000 {
      StripFixed(text);
    }
  }

  lemma {:induction false} WithoutNulLength(s: string)
    ensures |WithoutNul(s)| <= |s| && (|WithoutNul(s)| == |s| ==> WithoutNul(s) == s)
  {
    if s != [] {
      WithoutNulLength(s[1..]);
    }
  }

  /** Sanitising is not idempotent: a cut after a thousand characters can leave whitespace at
      the end, and this is exactly when a second pass changes something. */
  lemma SanitizedTwiceExactly(text: string)
    ensures var m := Strip(WithoutNul(text));
            SanitizeValue(SanitizeValue(Str(text))) == SanitizeValue(Str(text))
            <==> |m| <= 1000 || !IsSpace(m[999])
  {
    NulsRemoved(text, []);
    var lo, hi := StripCut(WithoutNul(text));
    var once := Prefix(Strip(WithoutNul(text)), 1000);
    SanitizedFixpoint(once);
  }

  // ----- one result per item

  /** One result per item, in order, or None when one of them raises. */
  function Collect<T, R>(items: seq<T>, f: T -> Option<R>): Option<seq<R>> {
    if items == [] then Some([])
    else match (f(items[0]), Collect(items[1..], f))
      case (Some(r), Some(rest)) => Some([r] + rest)
      case _ => None
  }

  lemma {:induction false} CollectExactly<T, R>(items: seq<T>, f: T -> Option<R>)
    ensures Collect(items, f).Some? <==> forall i | 0 <= i < |items| :: f(items[i]).Some?
    ensures Collect(items, f).Some? ==>
              |Collect(items, f).value| == |items|
              && forall i | 0 <= i < |items| :: f(items[i]) == Some(Collect(items, f).value[i])
  {
    if items != [] {
      CollectExactly(items[1..], f);
      assert forall i | 0 < i < |items| :: items[i] == items[1..][i - 1];
      if forall i | 0 <= i < |items| :: f(items[i]).Some? {
        assert forall i | 0 <= i < |items[1..]| :: f(items[1..][i]).Some?;
      }
    }
  }

  lemma CollectFrom<T, R>(items: seq<T>, f: T -> Option<R>, i: nat)
    requires i < |items|
    ensures Collect(items[i..], f)
         == match (f(items[i]), Collect(items[i + 1..], f))
            case (Some(r), Some(rest)) => Some([r] + rest)
            case _ => None
  {
    assert items[i..][0] == items[i] && items[i..][1..] == items[i + 1..];
  }

  /** The loop over the requested items, ended by the first that raises. */
  method CollectEach<T, R>(items: seq<T>, f: T -> Option<R>) returns (results: Option<seq<R>>)
    ensures results == Collect(items, f)
  {
    var done: seq<R> := [];
    assert items[0..] == items && (Collect(items, f).Some? ==> [] + Collect(items, f).value == Collect(items, f).value);
    for i := 0 to |items|
      invariant Collect(items, f) == match Collect(items[i..], f) case None => None case Some(rest) => Some(done + rest)
    {
      CollectFrom(items, f, i);
      var result := f(items[i]);
      if result.None? {
        return None;
      }
      ghost var tail := Collect(items[i + 1..], f);
      assert tail.Some? ==> done + ([result.value] + tail.value) == done + [result.value] + tail.value;
      done := done + [result.value];
    }
    assert done + [] == done;
    results := Some(done);
  }

  // ----- decisions

  /** The decision on one item, or None when making it raises: a decision's name must be
      a string, and only the values of a dictionary can be searched. */
  function EvaluateTool(i: Item, c: ToolContext): Option<ToolDecision> {
    if i.NotAnItem? || (i.name.NotText? && i.name.truthy) then None
    else if !i.name.Named? || i.name.text == "" then Some(ToolDecision("unknown", false, UnknownTool, map[]))
    else if i.name.text !in c.registry then Some(ToolDecision(i.name.text, false, UnknownTool, map[]))
    else
      var name, d := i.name.text, c.registry[i.name.text];
      if !d.enabled then Some(ToolDecision(name, false, ToolDisabled, map[]))
      else if c.decision.Some? && c.decision.value.disableTools then
        Some(ToolDecision(name, false, ToolsDisabledByPolicy, map[]))
      else if d.permission !in c.permissions then Some(ToolDecision(name, false, MissingToolPermission, map[]))
      else if SensitivityRank(d.sensitivity)
              > SensitivityRank(if c.decision.Some? then c.decision.value.maxSensitivity else InternalData) then
        Some(ToolDecision(name, false, SensitivityExceedsPolicy, map[]))
      else if c.classification.Some? &&
              (|| c.classification.value.kind.PromptInjection?
               || c.classification.value.kind.JailbreakAttempt?
               || c.classification.value.kind.SecretExfiltrationIntent?
               || c.classification.value.kind.ExploitOrMalwareIntent?) then
        Some(ToolDecision(name, false, BlockedByClassification, map[]))
      else if i.arguments.None? then None
      else if AnyText(i.arguments.value, c.matchers.injection) then
        Some(ToolDecision(name, false, ArgumentInjection, map[]))
      else if AnyText(i.arguments.value, c.matchers.chain) then Some(ToolDecision(name, false, ChainInjection, map[]))
      else Some(ToolDecision(name, true, ToolAllowed, Sanitize(i.arguments.value)))
  }

  /** Public is least, then internal, confidential and restricted. */
  predicate NoMoreThan(s: Sensitivity, max: Sensitivity) {
    || s == max || s == PublicData || max == RestrictedData || (s == InternalData && max == ConfidentialData)
  }

  /** The checks that an item has to pass before its arguments are looked at. */
  predicate Admissible(i: Item, c: ToolContext) {
    && i.Item? && i.name.Named? && i.name.text != "" && i.name.text in c.registry
    && var d := c.registry[i.name.text];
    && d.enabled
    && (c.decision.None? || !c.decision.value.disableTools)
    && d.permission in c.permissions
    && NoMoreThan(d.sensitivity, if c.decision.Some? then c.decision.value.maxSensitivity else InternalData)
    && (c.classification.None? || c.classification.value.kind in {Benign, Suspicious, SensitiveDataSubmission})
  }

  /** All six checks. */
  predicate Passes(i: Item, c: ToolContext) {
    && Admissible(i, c) && i.arguments.Some?
    && (forall k | k in i.arguments.value && i.arguments.value[k].Str? ::
          !c.matchers.injection(i.arguments.value[k].text) && !c.matchers.chain(i.arguments.value[k].text))
  }

  /** The inputs on which the decision is made. */
  predicate Decidable(i: Item, c: ToolContext) {
    i.Item? && (i.name.NotText? ==> !i.name.truthy) && (Admissible(i, c) ==> i.arguments.Some?)
  }

  /** The name that a decision on an item carries. */
  function DecisionName(i: Item): string {
    if i.Item? && i.name.Named? && i.name.text != "" then i.name.text else "unknown"
  }

  /** The cascade decides exactly the decidable items and allows exactly those that pass
      every check, and hands on their sanitised arguments under their own name. */
  lemma DecisionIsPasses(i: Item, c: ToolContext)
    ensures EvaluateTool(i, c).Some? <==> Decidable(i, c)
    ensures Decidable(i, c) ==>
              var d := EvaluateTool(i, c).value;
              && d.name == DecisionName(i)
              && (d.allowed <==> Passes(i, c))
              && (d.allowed ==> d.name == i.name.text && d.arguments == Sanitize(i.arguments.value))
              && (d.allowed <==> d.reason == ToolAllowed) && (!d.allowed ==> d.arguments == map[])
  {
  }

  predicate Known(i: Item, c: ToolContext) {
    i.Item? && i.name.Named? && i.name.text != "" && i.name.text in c.registry
  }

  /** What each refusal reason holds against an item. */
  predicate Against(r: Reason, i: Item, c: ToolContext) {
    match r
    case UnknownTool => !Known(i, c)
    case ToolDisabled => Known(i, c) && !c.registry[i.name.text].enabled
    case ToolsDisabledByPolicy => c.decision.Some? && c.decision.value.disableTools
    case MissingToolPermission => Known(i, c) && c.registry[i.name.text].permission !in c.permissions
    case SensitivityExceedsPolicy =>
      Known(i, c) && !NoMoreThan(c.registry[i.name.text].sensitivity,
                                 if c.decision.Some? then c.decision.value.maxSensitivity else InternalData)
    case BlockedByClassification =>
      c.classification.Some? && c.classification.value.kind !in {Benign, Suspicious, SensitiveDataSubmission}
    case ArgumentInjection =>
      i.Item? && i.arguments.Some? && exists k | k in i.arguments.value ::
        i.arguments.value[k].Str? && c.matchers.injection(i.arguments.value[k].text)
    case ChainInjection =>
      i.Item? && i.arguments.Some? && exists k | k in i.arguments.value ::
        i.arguments.value[k].Str? && c.matchers.chain(i.arguments.value[k].text)
    case _ => false
  }

  function CheckOrder(r: Reason): nat {
    match r
    case UnknownTool => 0
    case ToolDisabled => 1
    case ToolsDisabledByPolicy => 2
    case MissingToolPermission => 3
    case SensitivityExceedsPolicy => 4
    case BlockedByClassification => 5
    case ArgumentInjection => 6
    case ChainInjection => 7
    case _ => 8
  }

  /** The reason of a refusal is the first that speaks against the item. */
  lemma RefusalReasonExactly(i: Item, c: ToolContext, r: Reason)
    requires Decidable(i, c) && !EvaluateTool(i, c).value.allowed
    ensures EvaluateTool(i, c).value.reason == r <==>
              Against(r, i, c) && forall q: Reason | CheckOrder(q) < CheckOrder(r) :: !Against(q, i, c)
  {
    var d := EvaluateTool(i, c).value;
    assert Against(d.reason, i, c);
    forall q: Reason | CheckOrder(q) < CheckOrder(d.reason)
      ensures !Against(q, i, c)
    {
    }
  }

  function Decider(c: ToolContext): Item -> Option<ToolDecision> {
    (i: Item) => EvaluateTool(i, c)
  }

  method EvaluateRequestedTools(items: seq<Item>, c: ToolContext) returns (decisions: Option<seq<ToolDecision>>)
    ensures decisions == Collect(items, Decider(c))
    ensures decisions.Some? <==> forall i | 0 <= i < |items| :: Decidable(items[i], c)
    ensures decisions.Some? ==>
              |decisions.value| == |items|
              && forall i | 0 <= i < |items| :: EvaluateTool(items[i], c) == Some(decisions.value[i])
  {
    decisions := CollectEach(items, Decider(c));
    DecidedExactly(items, c);
  }

  lemma DecidedExactly(items: seq<Item>, c: ToolContext)
    ensures var ds := Collect(items, Decider(c));
            && (ds.Some? <==> forall i | 0 <= i < |items| :: Decidable(items[i], c))
            && (ds.Some? ==> |ds.value| == |items|
                             && forall i | 0 <= i < |items| :: EvaluateTool(items[i], c) == Some(ds.value[i]))
  {
    CollectExactly(items, Decider(c));
    forall i | 0 <= i < |items|
      ensures Decider(c)(items[i]).Some? <==> Decidable(items[i], c)
    {
      DecisionIsPasses(items[i], c);
    }
    if Collect(items, Decider(c)).Some? {
      forall i | 0 <= i < |items|
        ensures EvaluateTool(items[i], c) == Some(Collect(items, Decider(c)).value[i])
      {
        assert Decider(c)(items[i]) == EvaluateTool(items[i], c);
      }
    }
  }

  // ----- execution records

  /** The decisions by tool name: a later decision replaces an earlier one. */
  function DecisionMap(decisions: seq<ToolDecision>): map<string, ToolDecision> {
    if decisions == [] then map[]
    else
      var last := decisions[|decisions| - 1];
      DecisionMap(decisions[..|decisions| - 1])[last.name := last]
  }

  function RecordFor(name: string, decisions: map<string, ToolDecision>, output: Args -> bool): ToolRecord {
    if name !in decisions then ToolRecord(name, false, ToolNotAllowed, map[])
    else if !decisions[name].allowed then ToolRecord(name, false, decisions[name].reason, map[])
    else if output(decisions[name].arguments) then ToolRecord(name, false, ChainInjectionInOutput, map[])
    else ToolRecord(name, true, ExecutionStub, decisions[name].arguments)
  }

  /** The record of one item, or None when making it raises: a record's name must be a
      string too, and here a name that is none is never replaced. */
  function ExecuteTool(i: Item, decisions: map<string, ToolDecision>, output: Args -> bool): Option<ToolRecord> {
    if i.NotAnItem? || i.name.NotText? then None
    else Some(RecordFor(if i.name.Absent? then "unknown" else i.name.text, decisions, output))
  }

  function Executor(decisions: map<string, ToolDecision>, output: Args -> bool): Item -> Option<ToolRecord> {
    (i: Item) => ExecuteTool(i, decisions, output)
  }

  method ExecuteAllowedTools(items: seq<Item>, decisions: seq<ToolDecision>, output: Args -> bool)
    returns (records: Option<seq<ToolRecord>>)
    ensures records == Collect(items, Executor(DecisionMap(decisions), output))
  {
    var byName: map<string, ToolDecision> := map[];
    for i := 0 to |decisions|
      invariant byName == DecisionMap(decisions[..i])
    {
      assert decisions[..i + 1][..i] == decisions[..i];
      byName := byName[decisions[i].name := decisions[i]];
    }
    assert decisions[..|decisions|] == decisions;
    records := CollectEach(items, Executor(byName, output));
  }

  /** Evaluation followed by execution, as the pipeline runs them. */
  function RunTools(items: seq<Item>, c: ToolContext): Option<seq<ToolRecord>> {
    match Collect(items, Decider(c))
    case None => None
    case Some(ds) => Collect(items, Executor(DecisionMap(ds), c.matchers.output))
  }

  /** The items that neither evaluation nor execution fails on: dictionaries whose name is
      missing or a string, and whose arguments, if they come to be searched, are a
      dictionary. */
  predicate Runnable(i: Item, c: ToolContext) {
    i.Item? && !i.name.NotText? && (Admissible(i, c) ==> i.arguments.Some?)
  }

  predicate AllRunnable(items: seq<Item>, c: ToolContext) {
    forall i | 0 <= i < |items| :: Runnable(items[i], c)
  }

  /** The decisions on items that are all runnable. */
  function DecisionsOn(items: seq<Item>, c: ToolContext): (ds: seq<ToolDecision>)
    requires AllRunnable(items, c)
    ensures Collect(items, Decider(c)) == Some(ds) && |ds| == |items|
    ensures forall i | 0 <= i < |items| :: EvaluateTool(items[i], c) == Some(ds[i])
  {
    DecidedExactly(items, c);
    Collect(items, Decider(c)).value
  }

  /** The name that an item's record carries. */
  function RecordName(i: Item): string {
    if i.Item? && i.name.Named? then i.name.text else "unknown"
  }

  /** Evaluation and execution complete if and only if every item is runnable, and then
      yield one record per item, in order, each made from the map of all decisions. */
  lemma OneRecordPerItem(items: seq<Item>, c: ToolContext)
    ensures RunTools(items, c).Some? <==> AllRunnable(items, c)
    ensures AllRunnable(items, c) ==>
              var r, m := RunTools(items, c).value, DecisionMap(DecisionsOn(items, c));
              |r| == |items|
              && forall i | 0 <= i < |items| :: r[i] == RecordFor(RecordName(items[i]), m, c.matchers.output)
  {
    DecidedExactly(items, c);
    if Collect(items, Decider(c)).Some? {
      var m := DecisionMap(Collect(items, Decider(c)).value);
      CollectExactly(items, Executor(m, c.matchers.output));
      forall i | 0 <= i < |items|
        ensures Executor(m, c.matchers.output)(items[i]).Some? <==> Runnable(items[i], c)
      {
        assert Decidable(items[i], c);
      }
    }
  }

  /** A single item named 5 fails in evaluation, one named false in execution only. */
  lemma NamesThatRaise(arguments: Option<Args>, c: ToolContext)
    ensures EvaluateTool(Item(NotText(true), arguments), c).None?
            && EvaluateTool(Item(NotText(false), arguments), c).Some?
    ensures RunTools([Item(NotText(true), arguments)], c).None? && RunTools([Item(NotText(false), arguments)], c).None?
  {
    var five, no := Item(NotText(true), arguments), Item(NotText(false), arguments);
    OneRecordPerItem([five], c);
    OneRecordPerItem([no], c);
    assert !Runnable([five][0], c) && !Runnable([no][0], c);
  }

  // ----- which decision a record follows

  /** j is the last item that asks for this tool by name. */
  predicate LastNamed(items: seq<Item>, name: string, j: int) {
    && 0 <= j < |items| && items[j].Item? && items[j].name == Named(name)
    && forall k | j < k < |items| :: !(items[k].Item? && items[k].name == Named(name))
  }

  lemma {:induction false} FindLast(items: seq<Item>, i: nat) returns (j: nat)
    requires i < |items| && items[i].Item? && items[i].name.Named?
    ensures i <= j && LastNamed(items, items[i].name.text, j)
    decreases |items| - i
  {
    if k :| i < k < |items| && items[k].Item? && items[k].name == items[i].name {
      j := FindLast(items, k);
    } else {
      j := i;
    }
  }

  /** A later entry of the same name replaces an earlier one. */
  lemma {:induction false} MapHasLast(ds: seq<ToolDecision>, j: nat)
    requires j < |ds| && forall k | j < k < |ds| :: ds[k].name != ds[j].name
    ensures ds[j].name in DecisionMap(ds) && DecisionMap(ds)[ds[j].name] == ds[j]
  {
    if j < |ds| - 1 {
      var init := ds[..|ds| - 1];
      assert init[j] == ds[j] && forall k | j < k < |init| :: init[k] == ds[k];
      MapHasLast(init, j);
    }
  }

  /** The map's entry for a tool name is the decision on the last item naming it. */
  lemma MapKeepsLast(items: seq<Item>, c: ToolContext, name: string, j: nat)
    requires AllRunnable(items, c) && LastNamed(items, name, j) && name != "" && name != "unknown"
    ensures var m := DecisionMap(DecisionsOn(items, c)); name in m && Some(m[name]) == EvaluateTool(items[j], c)
  {
    var ds := DecisionsOn(items, c);
    forall k | j <= k < |ds|
      ensures ds[k].name == name <==> k == j
    {
      DecisionIsPasses(items[k], c);
      assert EvaluateTool(items[k], c) == Some(ds[k]);
    }
    MapHasLast(ds, j);
  }

  /** Every entry is one of the decisions, under that decision's own name. */
  lemma {:induction false} MapEntryOrigin(ds: seq<ToolDecision>, name: string) returns (j: nat)
    requires name in DecisionMap(ds)
    ensures j < |ds| && ds[j].name == name && DecisionMap(ds)[name] == ds[j]
  {
    if ds[|ds| - 1].name == name {
      j := |ds| - 1;
    } else {
      j := MapEntryOrigin(ds[..|ds| - 1], name);
    }
  }

  /** Soundness with repeated names: every allowed record carries the sanitised
      arguments of some item that asked for that very tool and passed every check. */
  lemma AllowedRecordsAreVetted(items: seq<Item>, c: ToolContext, i: nat) returns (j: nat)
    requires RunTools(items, c).Some? && i < |RunTools(items, c).value| && RunTools(items, c).value[i].allowed
    ensures j < |items| && Passes(items[j], c) && items[j].name == Named(RunTools(items, c).value[i].name)
    ensures RunTools(items, c).value[i].name in c.registry && RunTools(items, c).value[i].name != ""
    ensures RunTools(items, c).value[i].arguments == Sanitize(items[j].arguments.value)
  {
    OneRecordPerItem(items, c);
    var ds := DecisionsOn(items, c);
    j := MapEntryOrigin(ds, RecordName(items[i]));
    assert EvaluateTool(items[j], c) == Some(ds[j]);
    DecisionIsPasses(items[j], c);
  }

  /** What the record of item i says, in terms of the last item j of the same name. */
  lemma RecordFollowsLastRequest(items: seq<Item>, c: ToolContext, i: nat, name: string, j: nat)
    requires AllRunnable(items, c) && i < |items| && items[i].name == Named(name)
    requires name != "" && name != "unknown" && LastNamed(items, name, j)
    ensures RunTools(items, c).Some? && |RunTools(items, c).value| == |items|
    ensures var r := RunTools(items, c).value[i];
            && r.name == name
            && (r.allowed <==> Passes(items[j], c) && !c.matchers.output(Sanitize(items[j].arguments.value)))
            && r.arguments == (if r.allowed then Sanitize(items[j].arguments.value) else map[])
            && r.reason == if r.allowed then ExecutionStub
                           else if Passes(items[j], c) then ChainInjectionInOutput
                           else EvaluateTool(items[j], c).value.reason
  {
    OneRecordPerItem(items, c);
    MapKeepsLast(items, c, name, j);
    DecisionIsPasses(items[j], c);
  }

  /** Item i runs with the arguments of item j. */
  predicate RunsAs(items: seq<Item>, c: ToolContext, i: int, j: int)
    requires 0 <= i < |items|
  {
    && items[i].Item? && items[i].name.Named? && LastNamed(items, items[i].name.text, j)
    && Passes(items[j], c) && !c.matchers.output(Sanitize(items[j].arguments.value))
  }

  /** The sanitised arguments an item gives, if any. */
  function OwnOf(i: Item): Option<Args> {
    if i.Item? && i.arguments.Some? then Some(Sanitize(i.arguments.value)) else None
  }

  /** The tools run, and every allowed record carries its own item's arguments. */
  ghost predicate OwnArguments(items: seq<Item>, c: ToolContext) {
    RunTools(items, c).Some? && |RunTools(items, c).value| == |items| &&
    forall i | 0 <= i < |items| && RunTools(items, c).value[i].allowed ::
      Some(RunTools(items, c).value[i].arguments) == OwnOf(items[i])
  }

  /** Only an item with a name of its own can have an allowed record. */
  lemma AllowedRecordIsNamed(items: seq<Item>, c: ToolContext, i: nat)
    requires AllRunnable(items, c) && "unknown" !in c.registry && i < |items|
    requires RunTools(items, c).Some? && |RunTools(items, c).value| == |items| && RunTools(items, c).value[i].allowed
    ensures items[i].Item? && items[i].name.Named? && items[i].name.text != "" && items[i].name.text in c.registry
  {
    OneRecordPerItem(items, c);
    var k := AllowedRecordsAreVetted(items, c, i);
    assert RecordName(items[i]) in c.registry;
    assert Runnable(items[i], c);
  }

  /** An allowed record comes from a last item of its own item's name. */
  lemma AllowedRecordRunsAs(items: seq<Item>, c: ToolContext, i: nat) returns (j: nat)
    requires AllRunnable(items, c) && "unknown" !in c.registry && i < |items|
    requires RunTools(items, c).Some? && |RunTools(items, c).value| == |items| && RunTools(items, c).value[i].allowed
    ensures RunsAs(items, c, i, j) && Some(RunTools(items, c).value[i].arguments) == OwnOf(items[j])
  {
    AllowedRecordIsNamed(items, c, i);
    j := FindLast(items, i);
    RecordFollowsLastRequest(items, c, i, items[i].name.text, j);
  }

  lemma RunsAsRecord(items: seq<Item>, c: ToolContext, i: nat, j: nat)
    requires AllRunnable(items, c) && "unknown" !in c.registry && i < |items| && RunsAs(items, c, i, j)
    ensures RunTools(items, c).Some? && |RunTools(items, c).value| == |items|
    ensures RunTools(items, c).value[i].allowed && Some(RunTools(items, c).value[i].arguments) == OwnOf(items[j])
  {
    RecordFollowsLastRequest(items, c, i, items[i].name.text, j);
  }

  /** The arguments that items sharing a name with a last item that runs share too. */
  ghost predicate SameAsLast(items: seq<Item>, c: ToolContext) {
    forall i, j | 0 <= i < |items| && RunsAs(items, c, i, j) :: OwnOf(items[i]) == OwnOf(items[j])
  }

  /** The tools run and every allowed record carries its own item's arguments, if and only
      if every item is runnable and each item that shares its name with a last item that
      runs also shares its sanitised arguments. */
  lemma OwnArgumentsExactly(items: seq<Item>, c: ToolContext)
    requires "unknown" !in c.registry
    ensures OwnArguments(items, c) <==> AllRunnable(items, c) && SameAsLast(items, c)
  {
    OneRecordPerItem(items, c);
    if OwnArguments(items, c) {
      forall i, j | 0 <= i < |items| && RunsAs(items, c, i, j)
        ensures OwnOf(items[i]) == OwnOf(items[j])
      {
        RunsAsRecord(items, c, i, j);
      }
    }
    if AllRunnable(items, c) && SameAsLast(items, c) {
      forall i | 0 <= i < |items| && RunTools(items, c).value[i].allowed
        ensures Some(RunTools(items, c).value[i].arguments) == OwnOf(items[i])
      {
        var j := AllowedRecordRunsAs(items, c, i);
      }
    }
  }

  /** When each tool is asked for once, the tools run if every item is runnable, and every
      allowed record is its own item's. */
  lemma DistinctNamesOwnArguments(items: seq<Item>, c: ToolContext)
    requires "unknown" !in c.registry
    requires forall i, j | 0 <= i < j < |items| && items[i].Item? && items[j].Item? && items[i].name.Named? ::
               items[i].name != items[j].name
    ensures OwnArguments(items, c) <==> AllRunnable(items, c)
  {
    OwnArgumentsExactly(items, c);
    forall i, j | 0 <= i < |items| && RunsAs(items, c, i, j)
      ensures i == j
    {
    }
  }

  /** Asked for twice, a tool runs twice with the second arguments. */
  lemma RepeatedToolLosesArguments(c: ToolContext, a: ArgValue, b: ArgValue)
    requires Passes(Item(Named("kb.lookup"), Some(map["q" := b])), c) && !c.matchers.output(Sanitize(map["q" := b]))
    requires SanitizeValue(a) != SanitizeValue(b) && "unknown" !in c.registry
    ensures !OwnArguments([Item(Named("kb.lookup"), Some(map["q" := a])),
                           Item(Named("kb.lookup"), Some(map["q" := b]))], c)
  {
    var items := [Item(Named("kb.lookup"), Some(map["q" := a])), Item(Named("kb.lookup"), Some(map["q" := b]))];
    assert RunsAs(items, c, 0, 1);
    assert Sanitize(items[0].arguments.value)["q"] != Sanitize(items[1].arguments.value)["q"];
    OwnArgumentsExactly(items, c);
  }

  lemma ShortTextKept(c: char)
    requires c as int != 0 && !IsSpace(c)
    ensures SanitizeValue(Str([c])) == Str([c])
  {
    assert WithoutNul([c]) == [c] by {
      assert [c][1..] == [];
    }
    StripFixed([c]);
  }

  /** So it does for two lookups that the registry's permission allows. */
  lemma RepeatedLookupExample(c: ToolContext)
    requires c == ToolContext({"tool:kb.lookup"}, None, None, TOOL_REGISTRY,
                              Matchers(t => false, t => false, a => false))
    ensures !OwnArguments([Item(Named("kb.lookup"), Some(map["q" := Str("1")])),
                           Item(Named("kb.lookup"), Some(map["q" := Str("2")]))], c)
  {
    ShortTextKept('1');
    ShortTextKept('2');
    RepeatedToolLosesArguments(c, Str("1"), Str("2"));
  }

  /** With tools disabled by the decision, no record is allowed. */
  lemma DisabledToolsNeverRun(items: seq<Item>, c: ToolContext)
    requires c.decision.Some? && c.decision.value.disableTools
    ensures RunTools(items, c).Some? ==> forall r | r in RunTools(items, c).value :: !r.allowed
  {
    if RunTools(items, c).Some? {
      forall i | 0 <= i < |RunTools(items, c).value|
        ensures !RunTools(items, c).value[i].allowed
      {
        if RunTools(items, c).value[i].allowed {
          var j := AllowedRecordsAreVetted(items, c, i);
        }
      }
    }
  }
}
