/** The attacker profiler of app/attacker_profiler.py: what a refusal does to a profile,
    what a profile knows about its history, and the profiler's cache over the store. */
module Profiles {
  import opened Records
  import opened SqliteStore
  import opened Text
  import RateLimit
  import WriteThrough

  const MAX_HISTORY: nat := 100

  type Pair = (string, string)
  type View = WriteThrough.TwoLevel<Pair, string, ProfileRecord>

  // ----- one profile

  datatype Kind = Injection | Jailbreak | Escalation | ToolAbuse

  /** Which reason codes a counter counts. */
  predicate Is(kind: Kind, code: string) {
    match kind
    case Injection => Contains(code, "INJECTION") || Contains(code, "JAILBREAK")
    case Jailbreak => Contains(code, "JAILBREAK")
    case Escalation => Contains(code, "ESCALATION") || Contains(code, "PRIVILEGE")
    case ToolAbuse => Contains(code, "TOOL")
  }

  /** Whatever stands around its words, a counter counts them, and jailbreaks count as
      injections too. */
  lemma CounterWords(before: string, after: string)
    ensures Is(Injection, before + "INJECTION" + after) && Is(Injection, before + "JAILBREAK" + after)
    ensures Is(Jailbreak, before + "JAILBREAK" + after)
    ensures Is(Escalation, before + "ESCALATION" + after) && Is(Escalation, before + "PRIVILEGE" + after)
    ensures Is(ToolAbuse, before + "TOOL" + after)
  {
    ContainsMiddle(before + "INJECTION" + after, before, "INJECTION", after);
    ContainsMiddle(before + "JAILBREAK" + after, before, "JAILBREAK", after);
    ContainsMiddle(before + "ESCALATION" + after, before, "ESCALATION", after);
    ContainsMiddle(before + "PRIVILEGE" + after, before, "PRIVILEGE", after);
    ContainsMiddle(before + "TOOL" + after, before, "TOOL", after);
  }

  function One(kind: Kind, code: string): nat {
    if Is(kind, code) then 1 else 0
  }

  function LastN<T>(s: seq<T>, n: nat): seq<T> {
    if |s| <= n then s else s[|s| - n..]
  }

  function NewProfile(client: string, subject: string, now: real): ProfileRecord {
    ProfileRecord(client, subject, now, now, 0, [], 0, 0, 0, 0)
  }

  function WithCode(p: ProfileRecord, code: string): ProfileRecord {
    p.(reasons := LastN(p.reasons + [code], MAX_HISTORY),
       injections := p.injections + One(Injection, code),
       jailbreaks := p.jailbreaks + One(Jailbreak, code),
       escalations := p.escalations + One(Escalation, code),
       toolAbuses := p.toolAbuses + One(ToolAbuse, code))
  }

  function WithCodes(p: ProfileRecord, codes: seq<string>): ProfileRecord {
    if codes == [] then p else WithCode(WithCodes(p, codes[..|codes| - 1]), codes[|codes| - 1])
  }

  function Recorded(p: ProfileRecord, codes: seq<string>, now: real): ProfileRecord {
    WithCodes(p.(refusals := p.refusals + 1, lastSeen := now), codes)
  }

  /** The object whose counters and bounded deque change in place. */
  class AttackerProfile {
    const client: string
    const subject: string
    var firstSeen: real
    var lastSeen: real
    var refusals: nat
    var reasons: seq<string>
    var injections: nat
    var jailbreaks: nat
    var escalations: nat
    var toolAbuses: nat

    function ToDict(): ProfileRecord
      reads this
    {
      ProfileRecord(client, subject, firstSeen, lastSeen, refusals, reasons,
                    injections, jailbreaks, escalations, toolAbuses)
    }

    constructor (client: string, subject: string, now: real)
      ensures ToDict() == NewProfile(client, subject, now)
    {
      this.client, this.subject := client, subject;
      firstSeen, lastSeen, refusals, reasons := now, now, 0, [];
      injections, jailbreaks, escalations, toolAbuses := 0, 0, 0, 0;
    }

    /** Rebuilding from a document keeps everything but the reasons that no longer fit. */
    constructor FromDict(d: ProfileRecord)
      ensures ToDict() == d.(reasons := LastN(d.reasons, MAX_HISTORY))
    {
      client, subject := d.client, d.subject;
      firstSeen, lastSeen, refusals, reasons := d.firstSeen, d.lastSeen, d.refusals, [];
      injections, jailbreaks, escalations, toolAbuses := d.injections, d.jailbreaks, d.escalations, d.toolAbuses;
      new;
      for i := 0 to |d.reasons|
        invariant reasons == LastN(d.reasons[..i], MAX_HISTORY)
        invariant ToDict() == d.(reasons := reasons)
      {
        assert d.reasons[..i + 1] == d.reasons[..i] + [d.reasons[i]];
        LastNAppend(d.reasons[..i], d.reasons[i], MAX_HISTORY);
        Push(d.reasons[i]);
      }
      assert d.reasons[..|d.reasons|] == d.reasons;
    }

    /** Appending to a deque of bounded length. */
    method Push(code: string)
      modifies this`reasons
      ensures reasons == LastN(old(reasons) + [code], MAX_HISTORY)
    {
      reasons := reasons + [code];
      if |reasons| > MAX_HISTORY {
        reasons := reasons[|reasons| - MAX_HISTORY..];
      }
    }

    method CountCode(code: string)
      modifies this
      ensures ToDict() == WithCode(old(ToDict()), code)
    {
      Push(code);
      if Contains(code, "INJECTION") || Contains(code, "JAILBREAK") {
        injections := injections + 1;
      }
      if Contains(code, "JAILBREAK") {
        jailbreaks := jailbreaks + 1;
      }
      if Contains(code, "ESCALATION") || Contains(code, "PRIVILEGE") {
        escalations := escalations + 1;
      }
      if Contains(code, "TOOL") {
        toolAbuses := toolAbuses + 1;
      }
    }

    method RecordRefusal(codes: seq<string>, now: real)
      modifies this
      ensures ToDict() == Recorded(old(ToDict()), codes, now)
    {
      refusals := refusals + 1;
      lastSeen := now;
      ghost var start := ToDict();
      for i := 0 to |codes|
        invariant ToDict() == WithCodes(start, codes[..i])
      {
        assert codes[..i + 1][..i] == codes[..i];
        CountCode(codes[i]);
      }
      assert codes[..|codes|] == codes;
    }
  }

  lemma LastNAppend<T>(s: seq<T>, x: T, n: nat)
    ensures LastN(LastN(s, n) + [x], n) == LastN(s + [x], n)
  {
  }

  // ----- a profile is its refusal history

  datatype Refusal = Refusal(codes: seq<string>, now: real)

  function Replay(p: ProfileRecord, history: seq<Refusal>): ProfileRecord {
    if history == [] then p
    else
      var last := history[|history| - 1];
      Recorded(Replay(p, history[..|history| - 1]), last.codes, last.now)
  }

  /** Every code of a history, oldest first. */
  function AllCodes(history: seq<Refusal>): seq<string> {
    if history == [] then [] else AllCodes(history[..|history| - 1]) + history[|history| - 1].codes
  }

  function CountOf(kind: Kind, codes: seq<string>): nat {
    if codes == [] then 0 else CountOf(kind, codes[..|codes| - 1]) + One(kind, codes[|codes| - 1])
  }

  lemma {:induction false} CountConcat(kind: Kind, a: seq<string>, b: seq<string>)
    ensures CountOf(kind, a + b) == CountOf(kind, a) + CountOf(kind, b)
  {
    if b == [] {
      assert a + b == a;
    } else {
      assert (a + b)[..|a + b| - 1] == a + b[..|b| - 1];
      CountConcat(kind, a, b[..|b| - 1]);
    }
  }

  lemma LastNConcat<T>(a: seq<T>, b: seq<T>, x: T, n: nat)
    ensures LastN(LastN(a + b, n) + [x], n) == LastN(a + (b + [x]), n)
  {
    assert a + (b + [x]) == (a + b) + [x];
    LastNAppend(a + b, x, n);
  }

  /** Absorbing a list of codes adds its counts and keeps the newest reasons. */
  lemma {:induction false} CodesAdd(p: ProfileRecord, codes: seq<string>)
    ensures var q := WithCodes(p, codes);
            && q.client == p.client && q.subject == p.subject && q.firstSeen == p.firstSeen
            && q.lastSeen == p.lastSeen && q.refusals == p.refusals
            && q.injections == p.injections + CountOf(Injection, codes)
            && q.jailbreaks == p.jailbreaks + CountOf(Jailbreak, codes)
            && q.escalations == p.escalations + CountOf(Escalation, codes)
            && q.toolAbuses == p.toolAbuses + CountOf(ToolAbuse, codes)
    ensures |p.reasons| <= MAX_HISTORY ==> WithCodes(p, codes).reasons == LastN(p.reasons + codes, MAX_HISTORY)
  {
    if codes == [] {
      assert p.reasons + codes == p.reasons;
    } else {
      var init, last := codes[..|codes| - 1], codes[|codes| - 1];
      CodesAdd(p, init);
      LastNConcat(p.reasons, init, last, MAX_HISTORY);
      assert codes == init + [last];
    }
  }

  lemma LastNJoin<T>(a: seq<T>, b: seq<T>, n: nat)
    ensures LastN(LastN(a, n) + b, n) == LastN(a + b, n)
  {
  }

  /** Along any run each counter is the number of matching codes in the whole refusal
      history, and the reason deque is exactly the newest hundred of them. */
  lemma {:induction false} ProfileIsItsHistory(client: string, subject: string, start: real, history: seq<Refusal>)
    ensures var p, codes := Replay(NewProfile(client, subject, start), history), AllCodes(history);
            && p.client == client && p.subject == subject && p.firstSeen == start
            && p.lastSeen == (if history == [] then start else history[|history| - 1].now)
            && p.refusals == |history|
            && p.reasons == LastN(codes, 100)
            && p.injections == CountOf(Injection, codes)
            && p.jailbreaks == CountOf(Jailbreak, codes)
            && p.escalations == CountOf(Escalation, codes)
            && p.toolAbuses == CountOf(ToolAbuse, codes)
  {
    if history != [] {
      var init, last := history[..|history| - 1], history[|history| - 1];
      ProfileIsItsHistory(client, subject, start, init);
      var p, codes := Replay(NewProfile(client, subject, start), init), AllCodes(init);
      CodesAdd(p.(refusals := p.refusals + 1, lastSeen := last.now), last.codes);
      LastNJoin(codes, last.codes, MAX_HISTORY);
      CountConcat(Injection, codes, last.codes);
      CountConcat(Jailbreak, codes, last.codes);
      CountConcat(Escalation, codes, last.codes);
      CountConcat(ToolAbuse, codes, last.codes);
    }
  }

  /** Every jailbreak code is also counted as an injection. */
  lemma {:induction false} InjectionsCoverJailbreaks(codes: seq<string>)
    ensures CountOf(Jailbreak, codes) <= CountOf(Injection, codes)
  {
    if codes != [] {
      InjectionsCoverJailbreaks(codes[..|codes| - 1]);
    }
  }

  /** A document survives being loaded and written again exactly when its reason list
      fits the deque; every profile built by refusals does. */
  lemma DictRoundTrip(d: ProfileRecord)
    ensures d.(reasons := LastN(d.reasons, MAX_HISTORY)) == d <==> |d.reasons| <= MAX_HISTORY
  {
    if |d.reasons| > MAX_HISTORY {
      assert |LastN(d.reasons, MAX_HISTORY)| == MAX_HISTORY;
      assert d.(reasons := LastN(d.reasons, MAX_HISTORY)).reasons != d.reasons;
    }
  }

  // ----- pressure on the rate limit

  function Multiplier(found: Option<ProfileRecord>): real {
    match found
    case None => 1.0
    case Some(p) =>
      var j := if p.jailbreaks >= 3 then 5.0 else 1.0;
      var e := if p.escalations >= 2 then j * 3.0 else j;
      var i := if p.injections >= 5 then e * 2.0 else e;
      if i < 20.0 then i else 20.0
  }

  lemma MultiplierInRange(found: Option<ProfileRecord>)
    ensures 1.0 <= Multiplier(found) <= 20.0
    ensures Multiplier(found).Floor as real == Multiplier(found)
  {
  }

  /** The factors that reason codes earn, and their product up to 20: 5 from the third
      jailbreak on, 3 from the second escalation on, 2 from the fifth injection on. */
  function Earned(codes: seq<string>): real {
    var five := if CountOf(Jailbreak, codes) >= 3 then 5.0 else 1.0;
    var three := if CountOf(Escalation, codes) >= 2 then 3.0 else 1.0;
    var two := if CountOf(Injection, codes) >= 5 then 2.0 else 1.0;
    var product := five * three * two;
    if product <= 20.0 then product else 20.0
  }

  /** The multiplier of a profile is what its whole refusal history has earned. */
  lemma MultiplierIsItsHistory(client: string, subject: string, start: real, history: seq<Refusal>)
    ensures Multiplier(Some(Replay(NewProfile(client, subject, start), history))) == Earned(AllCodes(history))
  {
    ProfileIsItsHistory(client, subject, start, history);
  }

  lemma MultiplierMonotone(p: ProfileRecord, q: ProfileRecord)
    requires p.jailbreaks <= q.jailbreaks && p.escalations <= q.escalations && p.injections <= q.injections
    ensures Multiplier(Some(p)) <= Multiplier(Some(q))
  {
  }

  /** A further refusal never lowers the multiplier, so for the same severity and the
      same attempts it never raises the client's limit. */
  lemma PressureNeverFalls(found: Option<ProfileRecord>, client: string, subject: string, codes: seq<string>, now: real,
                           maxRequests: int, severity: int, attempts: int)
    requires maxRequests >= 1
    ensures var before := match found case Some(p) => p case None => NewProfile(client, subject, now);
            var after := Some(Recorded(before, codes, now));
            && Multiplier(found) <= Multiplier(after)
            && RateLimit.EffectiveLimit(maxRequests, severity, attempts, Multiplier(after))
               <= RateLimit.EffectiveLimit(maxRequests, severity, attempts, Multiplier(found))
  {
    var before := match found case Some(p) => p case None => NewProfile(client, subject, now);
    CodesAdd(before.(refusals := before.refusals + 1, lastSeen := now), codes);
    var after := Recorded(before, codes, now);
    MultiplierMonotone(before, after);
    RateLimit.LimitAntitone(maxRequests, severity, severity, attempts, attempts, Multiplier(found),
                            Multiplier(Some(after)));
  }

  // ----- row names

  /** The primary key of a profile row. */
  function RowName(pair: Pair): string {
    pair.0 + "::" + pair.1
  }

  /** The separator occurs in the row name only where the two halves meet. */
  ghost predicate Unambiguous(pair: Pair) {
    forall i | OccursAt(RowName(pair), "::", i) :: i == |pair.0|
  }

  lemma SeparatorAt(pair: Pair)
    ensures OccursAt(RowName(pair), "::", |pair.0|)
    ensures RowName(pair)[..|pair.0|] == pair.0 && RowName(pair)[|pair.0| + 2..] == pair.1
  {
    assert RowName(pair) == pair.0 + ("::" + pair.1);
  }

  /** Another pair shares this pair's row exactly when the separator also occurs
      somewhere else in the row name. */
  lemma RowIsSharedIffAmbiguous(pair: Pair)
    ensures Unambiguous(pair) <==> forall other: Pair :: RowName(other) == RowName(pair) ==> other == pair
  {
    if Unambiguous(pair) {
      forall other: Pair | RowName(other) == RowName(pair)
        ensures other == pair
      {
        SeparatorAt(other);
        SeparatorAt(pair);
      }
    } else {
      var name := RowName(pair);
      var i :| OccursAt(name, "::", i) && i != |pair.0|;
      var other: Pair := (name[..i], name[i + 2..]);
      assert name == name[..i] + name[i..i + 2] + name[i + 2..];
      assert RowName(other) == name;
    }
  }

  /** A subject that can never be taken for the end of another client. */
  predicate PlainSubject(subject: string) {
    !Contains(subject, "::") && (subject == "" || subject[0] != ':')
  }

  ghost const PLAIN_SUBJECTS: iset<Pair> := iset pair: Pair | PlainSubject(pair.1)

  /** Where the client of another pair with the same name would end. */
  lemma LongerClient(a: Pair, b: Pair)
    requires RowName(a) == RowName(b) && |a.0| < |b.0|
    ensures !PlainSubject(a.1)
  {
    SeparatorAt(a);
    SeparatorAt(b);
    var name, at := RowName(a), |b.0|;
    assert name[at] == ':' && name[at + 1] == ':' by {
      assert name[at..at + 2][0] == ':' && name[at..at + 2][1] == ':';
    }
    if at == |a.0| + 1 {
      assert a.1[0] == name[|a.0| + 2];
    } else {
      var i := at - |a.0| - 2;
      assert a.1[i] == name[at] && a.1[i + 1] == name[at + 1];
      assert OccursAt(a.1, "::", i);
    }
  }

  /** Whatever the clients, compressed IPv6 addresses among them, pairs with plain
      subjects never share a row. */
  lemma PlainSubjectsAreInjective()
    ensures WriteThrough.InjectiveOn(RowName, PLAIN_SUBJECTS)
  {
    forall a, b | a in PLAIN_SUBJECTS && b in PLAIN_SUBJECTS && RowName(a) == RowName(b)
      ensures a == b
    {
      if |a.0| < |b.0| {
        LongerClient(a, b);
      } else if |b.0| < |a.0| {
        LongerClient(b, a);
      } else {
        SeparatorAt(a);
        SeparatorAt(b);
      }
    }
  }

  function Refuse(pair: Pair, codes: seq<string>, now: real): Option<ProfileRecord> -> Option<ProfileRecord> {
    (o: Option<ProfileRecord>) => match o
      case None => Some(Recorded(NewProfile(pair.0, pair.1, now), codes, now))
      case Some(p) => Some(Recorded(p, codes, now))
  }

  /** What is done with profiles: a refusal, a lookup, and evictions or restarts. */
  datatype ProfileOp =
    | Refused(pair: Pair, codes: seq<string>, now: real)
    | LookedUp(pair: Pair)
    | Evicted(pairs: set<Pair>)

  function AsOp(o: ProfileOp): WriteThrough.Op<Pair, ProfileRecord> {
    match o
    case Refused(pair, codes, now) => WriteThrough.Touch(pair, Refuse(pair, codes, now))
    case LookedUp(pair) => WriteThrough.Touch(pair, WriteThrough.Reading())
    case Evicted(pairs) => WriteThrough.Evict(pairs)
  }

  function AsOps(os: seq<ProfileOp>): (ops: seq<WriteThrough.Op<Pair, ProfileRecord>>)
    ensures |ops| == |os| && forall i | 0 <= i < |os| :: ops[i] == AsOp(os[i])
  {
    seq(|os|, i requires 0 <= i < |os| => AsOp(os[i]))
  }

  ghost predicate PairsIn(os: seq<ProfileOp>, dom: iset<Pair>) {
    forall i | 0 <= i < |os| :: os[i].Evicted? || os[i].pair in dom
  }

  /** From an empty store, every run over these pairs answers as one plain map. */
  ghost predicate ProfilesActAsMap(dom: iset<Pair>) {
    forall os: seq<ProfileOp> | PairsIn(os, dom) ::
      WriteThrough.Answers(WriteThrough.Fresh<Pair, string, ProfileRecord>(), RowName, AsOps(os))
      == WriteThrough.PlainAnswers(map[], AsOps(os))
  }

  /** Of two pairs with one row, the second finds the refusal recorded for the first. */
  lemma SharedRowLeaks(a: Pair, b: Pair, codes: seq<string>, now: real)
    requires a != b && RowName(a) == RowName(b)
    ensures var ops := AsOps([Refused(a, codes, now), LookedUp(b)]);
            && WriteThrough.Answers(WriteThrough.Fresh<Pair, string, ProfileRecord>(), RowName, ops)
               == [None, Some(Recorded(NewProfile(a.0, a.1, now), codes, now))]
            && WriteThrough.PlainAnswers(map[], ops) == [None, None]
  {
    WriteThrough.SharedNameLeaks(RowName, a, b, Refuse(a, codes, now));
    assert AsOps([Refused(a, codes, now), LookedUp(b)]) == WriteThrough.SaveThenRead(a, b, Refuse(a, codes, now));
  }

  /** Starting from an empty store, profile lookups answer as one plain map would,
      through all refusals, evictions and restarts, if and only if no two of the pairs in
      use share a row. */
  lemma ProfilesActAsMapExactly(dom: iset<Pair>)
    ensures ProfilesActAsMap(dom) <==> WriteThrough.InjectiveOn(RowName, dom)
  {
    var empty := WriteThrough.Fresh<Pair, string, ProfileRecord>();
    if WriteThrough.InjectiveOn(RowName, dom) {
      forall os: seq<ProfileOp> | PairsIn(os, dom)
        ensures WriteThrough.Answers(empty, RowName, AsOps(os)) == WriteThrough.PlainAnswers(map[], AsOps(os))
      {
        WriteThrough.EvictionIsInvisible(empty, RowName, dom, map[], AsOps(os));
      }
    } else {
      var a, b :| a in dom && b in dom && RowName(a) == RowName(b) && a != b;
      SharedRowLeaks(a, b, [], 0.0);
      assert PairsIn([Refused(a, [], 0.0), LookedUp(b)], dom);
    }
  }

  /** One colon on each side of the join is enough: these two pairs, neither half of
      which holds the separator, find each other's profile. */
  lemma SharedRowExample()
    ensures !ProfilesActAsMap(iset{("a:", "b"), ("a", ":b")})
  {
    assert RowName(("a:", "b")) == "a:::b" == RowName(("a", ":b"));
    ProfilesActAsMapExactly(iset{("a:", "b"), ("a", ":b")});
  }

  // ----- the profiler

  function Lookup(v: View, pair: Pair): Option<ProfileRecord> {
    WriteThrough.Lookup(v, RowName, pair)
  }

  lemma AbsorbKeepsOwner(p: ProfileRecord, codes: seq<string>, now: real)
    requires |p.reasons| <= MAX_HISTORY
    ensures var q := Recorded(p, codes, now);
            (q.client, q.subject) == (p.client, p.subject) && |q.reasons| <= MAX_HISTORY
  {
    CodesAdd(p.(refusals := p.refusals + 1, lastSeen := now), codes);
  }

  lemma {:induction false} OldestExists(profiles: map<Pair, ProfileRecord>, keys: set<Pair>)
    requires keys != {} && keys <= profiles.Keys
    ensures exists k :: k in keys && forall j | j in keys :: profiles[k].firstSeen <= profiles[j].firstSeen
    decreases |keys|
  {
    var k :| k in keys;
    if keys == {k} {
      assert forall j | j in keys :: j == k;
    } else {
      assert k in keys && keys - {k} != {};
      OldestExists(profiles, keys - {k});
      var m :| m in keys - {k} && forall j | j in keys - {k} :: profiles[m].firstSeen <= profiles[j].firstSeen;
      var oldest := if profiles[k].firstSeen <= profiles[m].firstSeen then k else m;
      assert forall j | j in keys :: j == k || j in keys - {k};
      assert oldest in keys && forall j | j in keys :: profiles[oldest].firstSeen <= profiles[j].firstSeen;
    }
  }

  function OwnerOf(p: ProfileRecord): Pair {
    (p.client, p.subject)
  }

  /** What a stored or cached profile satisfies under the row name it is reached by: its
      reasons fit the deque, and its owner has that row. */
  predicate Sound(p: ProfileRecord, name: string) {
    |p.reasons| <= MAX_HISTORY && RowName(OwnerOf(p)) == name
  }

  ghost predicate SoundDocs(docs: map<string, ProfileRecord>) {
    forall n | n in docs :: Sound(docs[n], n)
  }

  ghost predicate SoundCache(cache: map<Pair, ProfileRecord>) {
    forall k | k in cache :: Sound(cache[k], RowName(k))
  }

  lemma LookupSound(cache: map<Pair, ProfileRecord>, docs: map<string, ProfileRecord>, persistent: bool, pair: Pair)
    requires SoundCache(cache) && SoundDocs(docs)
    ensures var found := Lookup(WriteThrough.TwoLevel(cache, docs, persistent), pair);
            found.Some? ==> Sound(found.value, RowName(pair))
  {
  }

  lemma SavedSound(cache: map<Pair, ProfileRecord>, docs: map<string, ProfileRecord>, p: ProfileRecord)
    requires SoundCache(cache) && SoundDocs(docs) && |p.reasons| <= MAX_HISTORY
    ensures SoundCache(cache[OwnerOf(p) := p]) && SoundDocs(docs[RowName(OwnerOf(p)) := p])
  {
  }

  lemma LoadedSound(cache: map<Pair, ProfileRecord>, pair: Pair, p: ProfileRecord)
    requires SoundCache(cache) && Sound(p, RowName(pair))
    ensures SoundCache(cache[pair := p])
  {
  }

  lemma EvictedSound(cache: map<Pair, ProfileRecord>, evicted: set<Pair>)
    requires SoundCache(cache)
    ensures SoundCache(cache - evicted)
  {
  }

  lemma ValuesWithout<K, V>(m: map<K, V>, keys: set<K>)
    ensures (m - keys).Values <= m.Values
  {
  }

  lemma ValuesWith<K, V>(m: map<K, V>, k: K, v: V)
    ensures m[k := v].Values <= m.Values + {v}
  {
  }

  lemma WithoutNone<K, V>(m: map<K, V>)
    ensures m - {} == m
  {
  }

  /** Loading what is cached changes nothing. */
  lemma CachedLoad(v: View, pair: Pair)
    requires pair in v.cache
    ensures WriteThrough.Load(v, RowName, pair) == v
  {
    assert v.cache[pair := v.cache[pair]] == v.cache;
  }

  /** An access that always saves, after evictions that cannot concern its key. */
  lemma AccessIs(v: View, pair: Pair, evicted: set<Pair>, f: Option<ProfileRecord> -> Option<ProfileRecord>)
    requires f(Lookup(v, pair)).Some?
    requires evicted == {} || Lookup(v, pair).None?
    ensures var r := f(Lookup(v, pair)).value;
            WriteThrough.Access(WriteThrough.Forget(v, evicted), RowName, pair, f)
            == WriteThrough.TwoLevel((v.cache - evicted)[pair := r],
                                     if v.persistent then v.docs[RowName(pair) := r] else v.docs, v.persistent)
  {
    var left := WriteThrough.Forget(v, evicted);
    assert WriteThrough.Lookup(left, RowName, pair) == Lookup(v, pair);
    match Lookup(v, pair) {
      case None =>
      case Some(p) =>
        var r := f(Some(p)).value;
        assert left.cache[pair := p][pair := r] == left.cache[pair := r];
    }
  }

  /** What a cache shows once the object that a pair reaches has become r: the pair, the
      owner of r and the keys sharing that object find r, all others what they did. */
  function AfterRefusal(cache: map<Pair, ProfileRecord>, sharing: set<Pair>, pair: Pair, r: ProfileRecord)
    : map<Pair, ProfileRecord>
  {
    map k | k in cache.Keys + {pair, OwnerOf(r)} ::
      if k == pair || k == OwnerOf(r) || k in sharing then r else cache[k]
  }

  /** An object that some keys of a cache reach has become r. */
  function Changed(cache: map<Pair, ProfileRecord>, reaching: set<Pair>, r: ProfileRecord): map<Pair, ProfileRecord> {
    map k | k in cache :: if k in reaching then r else cache[k]
  }

  lemma AbsorbFound(cache: map<Pair, ProfileRecord>, sharing: set<Pair>, pair: Pair, p: ProfileRecord, r: ProfileRecord)
    ensures Changed(cache[pair := p], sharing + {pair}, r)[OwnerOf(r) := r] == AfterRefusal(cache, sharing, pair, r)
  {
  }

  lemma AbsorbNew(cache: map<Pair, ProfileRecord>, pair: Pair, r: ProfileRecord)
    requires OwnerOf(r) == pair
    ensures Changed(cache, {}, r)[OwnerOf(r) := r] == AfterRefusal(cache, {}, pair, r)
  {
  }

  function ProfileToRefuse(found: Option<ProfileRecord>, pair: Pair, now: real): ProfileRecord {
    match found case None => NewProfile(pair.0, pair.1, now) case Some(p) => p
  }

  // ----- the size of the cache

  /** A lookup keeps a cache within its bound if and only if the pair is cached or unknown,
      or there is room: what is loaded from the store evicts nothing. */
  lemma LoadBoundedExactly(v: View, max: nat, pair: Pair)
    requires |v.cache| <= max
    ensures |WriteThrough.Load(v, RowName, pair).cache| <= max
            <==> pair in v.cache || Lookup(v, pair).None? || |v.cache| < max
  {
    if pair in v.cache {
      CachedLoad(v, pair);
    } else if Lookup(v, pair).Some? {
      assert WriteThrough.Load(v, RowName, pair).cache.Keys == v.cache.Keys + {pair};
    }
  }

  /** The keys that a refusal of a known pair adds to the cache: the pair and the owner of
      the profile it reaches. */
  function NewKeys(v: View, pair: Pair, p: ProfileRecord): set<Pair> {
    {pair, OwnerOf(p)} - v.cache.Keys
  }

  lemma RefusalSize(cache: map<Pair, ProfileRecord>, sharing: set<Pair>, pair: Pair, r: ProfileRecord)
    ensures |AfterRefusal(cache, sharing, pair, r)| == |cache| + |{pair, OwnerOf(r)} - cache.Keys|
  {
    var after, added := AfterRefusal(cache, sharing, pair, r), {pair, OwnerOf(r)} - cache.Keys;
    RefusalKeys(cache, sharing, pair, r);
    KeysCounted(after);
    KeysCounted(cache);
    SizesAdd(cache.Keys, added);
  }

  lemma RefusalKeys(cache: map<Pair, ProfileRecord>, sharing: set<Pair>, pair: Pair, r: ProfileRecord)
    ensures AfterRefusal(cache, sharing, pair, r).Keys == cache.Keys + ({pair, OwnerOf(r)} - cache.Keys)
  {
  }

  lemma KeysCounted<K, V>(m: map<K, V>)
    ensures |m| == |m.Keys|
  {
  }

  lemma SizesAdd<T>(a: set<T>, b: set<T>)
    requires a !! b
    ensures |a + b| == |a| + |b|
  {
  }

  lemma RoomSuffices(cache: map<Pair, ProfileRecord>, max: nat, evicted: set<Pair>)
    requires 1 <= max && |cache| <= max && MadeRoom(cache, max, evicted)
    ensures |cache - evicted| < max
  {
    var left := cache - evicted;
    assert left.Keys == cache.Keys - evicted && |left| == |left.Keys| && |cache| == |cache.Keys|;
    if |cache| == max {
      var k :| k in cache && evicted == {k};
      assert |cache.Keys - {k}| == max - 1;
    }
  }

  /** A refusal keeps a cache within its bound if and only if the pair is unknown, so that
      room is made for it, or the keys it adds fit. */
  lemma RefusalBoundedExactly(v: View, max: nat, evicted: set<Pair>, sharing: set<Pair>, pair: Pair, r: ProfileRecord)
    requires 1 <= max && |v.cache| <= max
    requires if Lookup(v, pair).None? then MadeRoom(v.cache, max, evicted) else evicted == {}
    requires OwnerOf(r) == if Lookup(v, pair).Some? then OwnerOf(Lookup(v, pair).value) else pair
    ensures |AfterRefusal(v.cache - evicted, sharing, pair, r)| <= max
            <==> Lookup(v, pair).None? || |v.cache| + |NewKeys(v, pair, Lookup(v, pair).value)| <= max
  {
    RefusalSize(v.cache - evicted, sharing, pair, r);
    if Lookup(v, pair).Some? {
      WithoutNone(v.cache);
    } else {
      RoomSuffices(v.cache, max, evicted);
      assert {pair, pair} - (v.cache - evicted).Keys <= {pair};
      OneAtMost({pair, OwnerOf(r)} - (v.cache - evicted).Keys, pair);
    }
  }

  lemma OneAtMost(s: set<Pair>, pair: Pair)
    requires s <= {pair}
    ensures |s| <= 1
  {
    assert s == {} || s == {pair};
  }

  /** Without a store, where every profile is its own pair's, the bound always holds. */
  lemma CacheStaysBounded(v: View, max: nat, evicted: set<Pair>, sharing: set<Pair>, pair: Pair, r: ProfileRecord)
    requires !v.persistent && 1 <= max && |v.cache| <= max && OwnerOf(r) == pair
    requires Lookup(v, pair).Some? ==> OwnerOf(Lookup(v, pair).value) == pair
    requires if Lookup(v, pair).None? then MadeRoom(v.cache, max, evicted) else evicted == {}
    ensures |AfterRefusal(v.cache - evicted, sharing, pair, r)| <= max
  {
    RefusalBoundedExactly(v, max, evicted, sharing, pair, r);
    if Lookup(v, pair).Some? {
      assert NewKeys(v, pair, Lookup(v, pair).value) == {};
    }
  }

  /** With the store it does not: under a maximum of 1, two pairs are refused, the second
      in place of the first, and a lookup of the first then makes two cached profiles. */
  lemma StoredCacheOutgrows(a: Pair, b: Pair, codes: seq<string>, now: real)
    requires RowName(a) != RowName(b)
    ensures var v1 := WriteThrough.Access(WriteThrough.Fresh(), RowName, a, Refuse(a, codes, now));
            var v2 := WriteThrough.Access(WriteThrough.Forget(v1, {a}), RowName, b, Refuse(b, codes, now));
            && MadeRoom(v1.cache, 1, {a}) && |v1.cache| == |v2.cache| == 1
            && |WriteThrough.Load(v2, RowName, a).cache| == 2
  {
    var v1 := WriteThrough.Access(WriteThrough.Fresh(), RowName, a, Refuse(a, codes, now));
    var v2 := WriteThrough.Access(WriteThrough.Forget(v1, {a}), RowName, b, Refuse(b, codes, now));
    assert v1.cache.Keys == {a} && v2.cache.Keys == {b};
    assert a in v1.cache;
    assert WriteThrough.Load(v2, RowName, a).cache.Keys == {a, b};
  }

  /** For a pair that has its profile to itself this is an update at the pair. */
  lemma OwnRefusal(v: View, pair: Pair, evicted: set<Pair>, sharing: set<Pair>, codes: seq<string>, now: real)
    requires evicted == {} || Lookup(v, pair).None?
    requires sharing <= {pair} && (Lookup(v, pair).Some? ==> OwnerOf(Lookup(v, pair).value) == pair)
    ensures var r := Recorded(ProfileToRefuse(Lookup(v, pair), pair, now), codes, now);
            && OwnerOf(r) == pair
            && AfterRefusal(v.cache - evicted, sharing, pair, r) == (v.cache - evicted)[pair := r]
            && WriteThrough.Access(WriteThrough.Forget(v, evicted), RowName, pair, Refuse(pair, codes, now))
               == WriteThrough.TwoLevel(AfterRefusal(v.cache - evicted, sharing, pair, r),
                                        if v.persistent then v.docs[RowName(pair) := r] else v.docs, v.persistent)
  {
    AccessIs(v, pair, evicted, Refuse(pair, codes, now));
    var p := ProfileToRefuse(Lookup(v, pair), pair, now);
    CodesAdd(p.(refusals := p.refusals + 1, lastSeen := now), codes);
  }

  /** What leaves a cache before a new entry: nothing while there is room, and otherwise
      one entry, first seen no later than any other. */
  ghost predicate MadeRoom(cache: map<Pair, ProfileRecord>, max: nat, evicted: set<Pair>) {
    if |cache| < max then evicted == {}
    else exists k | k in cache :: evicted == {k} && forall j | j in cache :: cache[k].firstSeen <= cache[j].firstSeen
  }

  /** The cache holds profile objects, which refusals change in place. Several keys may
      reach one object when pairs share a row. */
  class AttackerProfiler {
    const store: StateStore?
    const maxProfiles: nat
    var profiles: map<Pair, AttackerProfile>

    ghost function Stores(): set<StateStore> {
      if store == null then {} else {store}
    }

    ghost function Objects(): set<AttackerProfile>
      reads this
    {
      profiles.Values
    }

    ghost function Cache(): map<Pair, ProfileRecord>
      reads this, Objects()
    {
      map k | k in profiles :: profiles[k].ToDict()
    }

    ghost function Docs(): map<string, ProfileRecord>
      reads Stores()`profileDocs
    {
      if store == null then map[] else store.profileDocs
    }

    ghost function View(): View
      reads this, Objects(), Stores()`profileDocs
    {
      WriteThrough.TwoLevel(Cache(), Docs(), store != null)
    }

    ghost predicate Valid()
      reads this, Objects(), Stores()`profileDocs
    {
      SoundCache(Cache()) && SoundDocs(Docs())
    }

    /** Every cached profile, and the row of this pair if it has one, belongs to the pair
        it is reached by. */
    ghost predicate Owned(pair: Pair)
      reads this, Objects(), Stores()`profileDocs
    {
      && (forall k | k in profiles :: OwnerOf(profiles[k].ToDict()) == k)
      && (RowName(pair) in Docs() ==> OwnerOf(Docs()[RowName(pair)]) == pair)
    }

    constructor (store: StateStore?, maxProfiles: nat)
      requires maxProfiles >= 1
      requires store != null ==> SoundDocs(store.profileDocs)
      ensures this.store == store && this.maxProfiles == maxProfiles && Valid() && Objects() == {}
      ensures View() == WriteThrough.TwoLevel(map[], if store == null then map[] else store.profileDocs, store != null)
    {
      this.store, this.maxProfiles, profiles := store, maxProfiles, map[];
    }

    /** A new object made from a document, cached under a pair. */
    method CacheRow(pair: Pair, d: ProfileRecord) returns (p: AttackerProfile)
      requires |d.reasons| <= MAX_HISTORY
      modifies this`profiles
      ensures fresh(p) && p.ToDict() == d
      ensures profiles == old(profiles)[pair := p] && Cache() == old(Cache())[pair := d]
    {
      p := new AttackerProfile.FromDict(d);
      DictRoundTrip(d);
      profiles := profiles[pair := p];
    }

    /** The profile object of a pair, rebuilt from its row if it is not cached. */
    method LoadProfile(pair: Pair) returns (found: AttackerProfile?)
      requires Valid()
      modifies this`profiles
      ensures Valid() && View() == WriteThrough.Load(old(View()), RowName, pair)
      ensures found == null <==> Lookup(old(View()), pair).None?
      ensures found == null ==> profiles == old(profiles)
      ensures found != null ==>
                && Some(found.ToDict()) == Lookup(old(View()), pair)
                && profiles == old(profiles)[pair := found]
                && (if pair in old(profiles) then found == old(profiles)[pair] else fresh(found))
                && Reaching(found) == old(Sharing(pair)) + {pair}
    {
      if pair in profiles {
        found := profiles[pair];
        assert profiles == profiles[pair := found];
        CachedLoad(View(), pair);
        return;
      }
      if store == null {
        return null;
      }
      var payload := store.GetProfile(RowName(pair));
      assert View() == old(View());
      if payload.None? {
        return null;
      }
      LoadedSound(Cache(), pair, payload.value);
      found := CacheRow(pair, payload.value);
      assert Docs() == old(Docs());
    }

    method Put(pair: Pair, p: AttackerProfile)
      modifies this`profiles
      ensures profiles == old(profiles)[pair := p] && Cache() == old(Cache())[pair := p.ToDict()]
    {
      profiles := profiles[pair := p];
    }

    /** Both levels take the profile under its own pair. */
    method SaveProfile(p: AttackerProfile)
      requires Valid() && |p.reasons| <= MAX_HISTORY
      modifies this`profiles, Stores()`profileDocs
      ensures Valid() && profiles == old(profiles)[OwnerOf(p.ToDict()) := p]
      ensures Cache() == old(Cache())[OwnerOf(p.ToDict()) := p.ToDict()]
      ensures Docs() == if store == null then map[] else old(Docs())[RowName(OwnerOf(p.ToDict())) := p.ToDict()]
    {
      SavedSound(Cache(), Docs(), p.ToDict());
      ghost var docs := Docs();
      Put((p.client, p.subject), p);
      assert Docs() == docs;
      PutRow(RowName((p.client, p.subject)), p.ToDict());
    }

    /** The row, if there is a table. */
    method PutRow(name: string, d: ProfileRecord)
      modifies Stores()`profileDocs
      ensures Cache() == old(Cache()) && Docs() == if store == null then map[] else old(Docs())[name := d]
    {
      if store != null {
        store.PutProfile(name, d);
      }
    }

    /** Drops the cached profile that was first seen longest ago. */
    method EvictOldest() returns (oldest: Pair)
      requires profiles != map[]
      modifies this`profiles
      ensures profiles == old(profiles) - {oldest} && Cache() == old(Cache()) - {oldest}
      ensures oldest in old(Cache())
      ensures forall k | k in old(Cache()) :: old(Cache())[oldest].firstSeen <= old(Cache())[k].firstSeen
    {
      OldestExists(Cache(), Cache().Keys);
      assert exists k :: k in profiles
                         && forall j | j in profiles :: profiles[k].firstSeen <= profiles[j].firstSeen by {
        ghost var k :| k in Cache().Keys
                       && forall j | j in Cache().Keys :: Cache()[k].firstSeen <= Cache()[j].firstSeen;
        assert forall j | j in profiles :: j in Cache().Keys && Cache()[j].firstSeen == profiles[j].firstSeen;
      }
      oldest :| oldest in profiles && forall k | k in profiles :: profiles[oldest].firstSeen <= profiles[k].firstSeen;
      profiles := profiles - {oldest};
    }

    /** The keys that reach an object. */
    ghost function Reaching(p: AttackerProfile): set<Pair>
      reads this
    {
      set k | k in profiles && profiles[k] == p
    }

    /** The keys that reach the same object as this pair. */
    ghost function Sharing(pair: Pair): set<Pair>
      reads this
    {
      if pair in profiles then Reaching(profiles[pair]) else {}
    }

    lemma OwnedIsUnshared(pair: Pair)
      requires Owned(pair)
      ensures Sharing(pair) <= {pair}
      ensures Lookup(View(), pair).Some? ==> OwnerOf(Lookup(View(), pair).value) == pair
    {
      forall k | k in Sharing(pair)
        ensures k == pair
      {
        assert OwnerOf(profiles[k].ToDict()) == k && OwnerOf(profiles[pair].ToDict()) == pair;
      }
    }

    /** When the cache is full, the oldest cached profile leaves it. */
    method MakeRoom() returns (ghost evicted: set<Pair>)
      requires Valid() && maxProfiles >= 1
      modifies this`profiles
      ensures Valid() && profiles == old(profiles) - evicted && Cache() == old(Cache()) - evicted
      ensures MadeRoom(old(Cache()), maxProfiles, evicted)
    {
      evicted := {};
      ghost var cache := Cache();
      assert cache.Keys == profiles.Keys;
      if |profiles| >= maxProfiles {
        var oldest := EvictOldest();
        evicted := {oldest};
        EvictedSound(cache, evicted);
      } else {
        WithoutNone(profiles);
        WithoutNone(cache);
      }
    }

    /** A cached object, or one that is not cached yet, absorbs a refusal. */
    method ChangeProfile(p: AttackerProfile, codes: seq<string>, now: real)
      requires Valid() && |p.reasons| <= MAX_HISTORY
      modifies p
      ensures Valid() && |p.reasons| <= MAX_HISTORY
      ensures p.ToDict() == Recorded(old(p.ToDict()), codes, now) && OwnerOf(p.ToDict()) == old(OwnerOf(p.ToDict()))
      ensures Cache() == Changed(old(Cache()), Reaching(p), p.ToDict())
    {
      AbsorbKeepsOwner(p.ToDict(), codes, now);
      p.RecordRefusal(codes, now);
    }

    /** And is saved under its owner. */
    method Absorb(p: AttackerProfile, codes: seq<string>, now: real)
      requires Valid() && |p.reasons| <= MAX_HISTORY
      modifies this`profiles, p, Stores()`profileDocs
      ensures Valid()
      ensures p.ToDict() == Recorded(old(p.ToDict()), codes, now)
      ensures OwnerOf(p.ToDict()) == old(OwnerOf(p.ToDict())) && profiles == old(profiles)[OwnerOf(p.ToDict()) := p]
      ensures Cache() == Changed(old(Cache()), old(Reaching(p)), p.ToDict())[OwnerOf(p.ToDict()) := p.ToDict()]
      ensures Docs() == if store == null then map[] else old(Docs())[RowName(OwnerOf(p.ToDict())) := p.ToDict()]
    {
      ChangeProfile(p, codes, now);
      assert Docs() == old(Docs());
      SaveProfile(p);
    }

    /** A new profile, for which room has been made. */
    method StartProfile(pair: Pair, now: real) returns (p: AttackerProfile)
      requires Valid()
      ensures fresh(p) && p.ToDict() == NewProfile(pair.0, pair.1, now) && Reaching(p) == {}
      ensures Valid() && Cache() == old(Cache()) && Docs() == old(Docs())
    {
      p := new AttackerProfile(pair.0, pair.1, now);
    }

    method RefuseNew(pair: Pair, codes: seq<string>, now: real)
      returns (ghost evicted: set<Pair>, ghost reached: AttackerProfile)
      requires Valid() && maxProfiles >= 1
      modifies this`profiles, Stores()`profileDocs
      ensures Valid() && Objects() <= old(Objects()) + {reached} && fresh(reached)
      ensures MadeRoom(old(Cache()), maxProfiles, evicted)
      ensures var r := Recorded(NewProfile(pair.0, pair.1, now), codes, now);
              && Cache() == AfterRefusal(old(Cache()) - evicted, {}, pair, r)
              && Docs() == if store == null then map[] else old(Docs())[RowName(pair) := r]
    {
      ghost var before := profiles;
      evicted := MakeRoom();
      ghost var cache := Cache();
      ValuesWithout(before, evicted);
      var p := StartProfile(pair, now);
      ghost var between := profiles;
      Absorb(p, codes, now);
      AbsorbNew(cache, pair, p.ToDict());
      ValuesWith(between, OwnerOf(p.ToDict()), p);
      reached := p;
    }

    method RefuseFound(pair: Pair, p: AttackerProfile, codes: seq<string>, now: real,
                       ghost cache: map<Pair, ProfileRecord>, ghost sharing: set<Pair>)
      requires Valid() && Sound(p.ToDict(), RowName(pair))
      requires Cache() == cache[pair := p.ToDict()] && Reaching(p) == sharing + {pair}
      modifies this`profiles, p, Stores()`profileDocs
      ensures Valid() && Objects() <= old(Objects()) + {p}
      ensures var r := Recorded(old(p.ToDict()), codes, now);
              && Cache() == AfterRefusal(cache, sharing, pair, r)
              && Docs() == if store == null then map[] else old(Docs())[RowName(pair) := r]
    {
      AbsorbFound(cache, sharing, pair, p.ToDict(), Recorded(p.ToDict(), codes, now));
      ghost var before := profiles;
      Absorb(p, codes, now);
      ValuesWith(before, OwnerOf(p.ToDict()), p);
    }

    /** One refusal. When the pair is new and the cache is full, the oldest cached
        profile leaves it. Then the profile that the pair reaches absorbs the codes, and
        its row and every key that reaches it show the result. */
    method RecordRefusal(pair: Pair, codes: seq<string>, now: real)
      returns (ghost evicted: set<Pair>, ghost reached: AttackerProfile)
      requires Valid() && maxProfiles >= 1
      modifies this`profiles, Objects(), Stores()`profileDocs
      ensures Valid() && Objects() <= old(Objects()) + {reached} && (reached in old(Objects()) || fresh(reached))
      ensures if Lookup(old(View()), pair).None? then MadeRoom(old(Cache()), maxProfiles, evicted) else evicted == {}
      ensures var r := Recorded(ProfileToRefuse(Lookup(old(View()), pair), pair, now), codes, now);
              && Cache() == AfterRefusal(old(Cache()) - evicted, old(Sharing(pair)), pair, r)
              && Docs() == if store == null then map[] else old(Docs())[RowName(pair) := r]
    {
      ghost var cache, sharing, before := Cache(), Sharing(pair), profiles;
      var p := LoadProfile(pair);
      evicted := {};
      if p == null {
        assert sharing == {};
        evicted, reached := RefuseNew(pair, codes, now);
      } else {
        LookupSound(cache, Docs(), store != null, pair);
        ValuesWith(before, pair, p);
        reached := p;
        RefuseFound(pair, p, codes, now, cache, sharing);
        WithoutNone(cache);
      }
    }

    method GetAdaptiveRateLimitMultiplier(pair: Pair) returns (m: real)
      requires Valid()
      modifies this`profiles
      ensures Valid() && View() == WriteThrough.Load(old(View()), RowName, pair)
      ensures m == Multiplier(Lookup(old(View()), pair))
    {
      var p := LoadProfile(pair);
      if p == null {
        return 1.0;
      }
      m := 1.0;
      if p.jailbreaks >= 3 {
        m := m * 5.0;
      }
      if p.escalations >= 2 {
        m := m * 3.0;
      }
      if p.injections >= 5 {
        m := m * 2.0;
      }
      m := if m < 20.0 then m else 20.0;
    }
  }
}
