/** Finding an embedded JSON object in a guard model's answer: the string-aware brace
    scanner of app/llm_guard.py, what it returns on any text, and that on a printed
    JSON object (RFC 8259, sections 2 to 7) it returns exactly that object. */
module JsonExtract {
  import opened Records
  import opened Text

  // ----- the scanner

  datatype State = State(depth: int, inString: bool, escaped: bool)

  const START := State(0, false, false)

  function Step(st: State, c: char): State {
    if st.inString then
      if st.escaped then st.(escaped := false)
      else if c == '\\' then st.(escaped := true)
      else if c == '"' then st.(inString := false)
      else st
    else if c == '"' then st.(inString := true)
    else if c == '{' then st.(depth := st.depth + 1)
    else if c == '}' then st.(depth := st.depth - 1)
    else st
  }

  function After(st: State, text: string): State {
    if text == [] then st else Step(After(st, text[..|text| - 1]), text[|text| - 1])
  }

  /** The nesting depth outside strings after reading `text`. */
  function Depth(text: string): int {
    After(START, text).depth
  }

  /** `text` starts with a brace, closes it at its end, and nowhere before. */
  predicate ClosesAtEnd(text: string) {
    && text != [] && text[0] == '{' && Depth(text) == 0
    && forall k | 0 < k < |text| :: Depth(text[..k]) > 0
  }

  predicate HasBrace(text: string, at: int) {
    0 <= at < |text| && text[at] == '{' && forall i | 0 <= i < at :: text[i] != '{'
  }

  /** text[at..end] runs from the first brace to where its depth first returns to 0. */
  predicate ClosingStretch(text: string, at: int, end: int) {
    HasBrace(text, at) && at < end <= |text| && ClosesAtEnd(text[at..end])
  }

  /** What the extractor owes its caller: the stretch from the first brace to its close,
      and None only if there is no such stretch. */
  ghost predicate IsExtraction(text: string, found: Option<string>) {
    match found
    case None => forall at, end :: !ClosingStretch(text, at, end)
    case Some(r) => exists at, end :: ClosingStretch(text, at, end) && r == text[at..end]
  }

  method ExtractBalancedJsonObject(text: string) returns (found: Option<string>)
    ensures IsExtraction(text, found)
  {
    var start := 0;
    while start < |text| && text[start] != '{'
      invariant 0 <= start <= |text|
      invariant forall i | 0 <= i < start :: text[i] != '{'
    {
      start := start + 1;
    }
    if start == |text| {
      return None;
    }
    var depth := 0;
    var inString := false;
    var escaped := false;
    for index := start to |text|
      invariant State(depth, inString, escaped) == After(START, text[start..index])
      invariant if index == start then !inString && depth == 0 else depth > 0
      invariant forall end | start < end <= index :: Depth(text[start..end]) > 0
    {
      var c := text[index];
      AfterNext(text, start, index);
      if inString {
        if escaped {
          escaped := false;
        } else if c == '\\' {
          escaped := true;
        } else if c == '"' {
          inString := false;
        }
        continue;
      }
      if c == '"' {
        inString := true;
      } else if c == '{' {
        depth := depth + 1;
      } else if c == '}' {
        depth := depth - 1;
        if depth == 0 {
          StretchCloses(text, start, index + 1);
          return Some(text[start..index + 1]);
        }
      }
    }
    NothingCloses(text, start);
    found := None;
  }

  lemma AfterNext(text: string, start: nat, index: nat)
    requires start <= index < |text|
    ensures After(START, text[start..index + 1]) == Step(After(START, text[start..index]), text[index])
  {
    assert text[start..index + 1][..index - start] == text[start..index];
  }

  lemma StretchCloses(text: string, start: nat, end: nat)
    requires HasBrace(text, start) && start < end <= |text| && Depth(text[start..end]) == 0
    requires forall k | start < k < end :: Depth(text[start..k]) > 0
    ensures ClosingStretch(text, start, end)
  {
    forall k | 0 < k < end - start
      ensures Depth(text[start..end][..k]) > 0
    {
      assert text[start..end][..k] == text[start..start + k];
    }
  }

  lemma NothingCloses(text: string, start: nat)
    requires HasBrace(text, start)
    requires forall k | start < k <= |text| :: Depth(text[start..k]) > 0
    ensures IsExtraction(text, None)
  {
    forall at, end
      ensures !ClosingStretch(text, at, end)
    {
      if HasBrace(text, at) {
        assert at == start;
      }
    }
  }

  // ----- composing scans

  lemma {:induction false} AfterConcat(st: State, a: string, b: string)
    ensures After(st, a + b) == After(After(st, a), b)
  {
    if b == [] {
      assert a + b == a;
    } else {
      assert (a + b)[..|a + b| - 1] == a + b[..|b| - 1];
      AfterConcat(st, a, b[..|b| - 1]);
    }
  }

  function Outside(depth: int): State { State(depth, false, false) }

  /** Reading t from any depth outside strings ends at that depth outside strings, and
      never goes below it on the way. */
  ghost predicate Neutral(t: string) {
    forall d: int :: NeutralAt(t, d)
  }

  predicate NeutralAt(t: string, d: int) {
    && After(Outside(d), t) == Outside(d)
    && forall k | 0 <= k <= |t| :: After(Outside(d), t[..k]).depth >= d
  }

  lemma NeutralEmpty()
    ensures Neutral("")
  {
    forall d: int
      ensures NeutralAt("", d)
    {
      assert ""[..0] == "";
    }
  }

  lemma NeutralConcat(a: string, b: string)
    requires Neutral(a) && Neutral(b)
    ensures Neutral(a + b)
  {
    forall d: int
      ensures NeutralAt(a + b, d)
    {
      assert NeutralAt(a, d) && NeutralAt(b, d);
      AfterConcat(Outside(d), a, b);
      forall k | 0 <= k <= |a + b|
        ensures After(Outside(d), (a + b)[..k]).depth >= d
      {
        if k <= |a| {
          assert (a + b)[..k] == a[..k];
        } else {
          assert (a + b)[..k] == a + b[..k - |a|];
          AfterConcat(Outside(d), a, b[..k - |a|]);
        }
      }
    }
  }

  /** A character that the scanner passes over outside strings. */
  predicate Plain(c: char) {
    c != '"' && c != '{' && c != '}'
  }

  lemma {:induction false} NeutralPlain(t: string)
    requires forall i | 0 <= i < |t| :: Plain(t[i])
    ensures Neutral(t)
  {
    if t == [] {
      NeutralEmpty();
    } else {
      var c := t[0];
      NeutralPlain(t[1..]);
      NeutralChar(c);
      NeutralConcat([c], t[1..]);
      assert [c] + t[1..] == t;
    }
  }

  lemma NeutralChar(c: char)
    requires Plain(c)
    ensures Neutral([c])
  {
    forall d: int
      ensures NeutralAt([c], d)
    {
      assert [c][..0] == [] && [c][..1] == [c];
    }
  }

  /** A brace pair around neutral text: the depth is positive inside and returns to its
      start at the closing brace only. */
  lemma BracesAround(t: string, d: int)
    requires Neutral(t)
    ensures After(Outside(d), "{" + t + "}") == Outside(d)
    ensures forall k | 0 < k < |t| + 2 :: After(Outside(d), ("{" + t + "}")[..k]).depth > d
  {
    var open := "{" + t;
    assert NeutralAt(t, d + 1);
    assert After(Outside(d), "{") == Outside(d + 1) by {
      assert "{"[..0] == [];
    }
    AfterConcat(Outside(d), "{", t);
    assert (open + "}")[..|open|] == open;
    forall k | 0 < k < |t| + 2
      ensures After(Outside(d), (open + "}")[..k]).depth > d
    {
      assert (open + "}")[..k] == "{" + t[..k - 1];
      AfterConcat(Outside(d), "{", t[..k - 1]);
    }
  }

  lemma NeutralBraces(t: string)
    requires Neutral(t)
    ensures Neutral("{" + t + "}")
  {
    var whole := "{" + t + "}";
    forall d: int
      ensures NeutralAt(whole, d)
    {
      BracesAround(t, d);
      assert whole[..0] == [] && whole[..|whole|] == whole;
    }
  }

  // ----- JSON texts

  /** One character of a string: unescaped, or a backslash with what follows it. RFC
      8259 allows eight single characters after the backslash, or u and four hex digits. */
  datatype Piece = Raw(c: char) | Escape(c: char) | Unicode(hex: string)

  datatype Json =
    | Token(text: string)  // true, false, null or a number
    | JString(pieces: seq<Piece>)
    | JArray(elements: Elements)
    | JObject(members: Members)

  /** Element and member lists, each entry with the whitespace around its parts. */
  datatype Elements = NoElements(ws: string) | Element(before: string, value: Json, after: string, rest: Elements)

  datatype Members =
    | NoMembers(ws: string)
    | Member(before: string, key: seq<Piece>, beforeColon: string, afterColon: string, value: Json, after: string,
             rest: Members)

  predicate IsWs(s: string) {
    forall i | 0 <= i < |s| :: s[i] == ' ' || s[i] == '\t' || s[i] == '\n' || s[i] == '\r'
  }

  predicate IsHexDigit(c: char) {
    '0' <= c <= '9' || 'a' <= c <= 'f' || 'A' <= c <= 'F'
  }

  predicate IsNumberChar(c: char) {
    '0' <= c <= '9' || c == '-' || c == '+' || c == '.' || c == 'e' || c == 'E'
  }

  predicate ValidPiece(p: Piece) {
    match p
    case Raw(c) => c as int >= 0x20 && c != '"' && c != '\\'
    case Escape(c) => c in {'"', '\\', '/', 'b', 'f', 'n', 'r', 't'}
    case Unicode(hex) => |hex| == 4 && forall i | 0 <= i < 4 :: IsHexDigit(hex[i])
  }

  predicate ValidPieces(ps: seq<Piece>) {
    forall i | 0 <= i < |ps| :: ValidPiece(ps[i])
  }

  /** Well-formed per RFC 8259; any non-empty run of number characters may stand for a
      number. */
  predicate Valid(j: Json) {
    match j
    case Token(t) => t in {"true", "false", "null"} || (t != [] && forall i | 0 <= i < |t| :: IsNumberChar(t[i]))
    case JString(ps) => ValidPieces(ps)
    case JArray(es) => ValidElements(es)
    case JObject(ms) => ValidMembers(ms)
  }

  predicate ValidElements(es: Elements) {
    match es
    case NoElements(ws) => IsWs(ws)
    case Element(a, v, b, rest) => IsWs(a) && Valid(v) && IsWs(b) && ValidElements(rest)
  }

  predicate ValidMembers(ms: Members) {
    match ms
    case NoMembers(ws) => IsWs(ws)
    case Member(a, k, b, c, v, d, rest) =>
      IsWs(a) && ValidPieces(k) && IsWs(b) && IsWs(c) && Valid(v) && IsWs(d) && ValidMembers(rest)
  }

  function PrintPiece(p: Piece): string {
    match p
    case Raw(c) => [c]
    case Escape(c) => ['\\', c]
    case Unicode(hex) => ['\\', 'u'] + hex
  }

  function PrintPieces(ps: seq<Piece>): string {
    if ps == [] then "" else PrintPiece(ps[0]) + PrintPieces(ps[1..])
  }

  function Quoted(ps: seq<Piece>): string {
    "\"" + PrintPieces(ps) + "\""
  }

  function Print(j: Json): string {
    match j
    case Token(t) => t
    case JString(ps) => Quoted(ps)
    case JArray(es) => "[" + PrintElements(es) + "]"
    case JObject(ms) => "{" + PrintMembers(ms) + "}"
  }

  /** A comma follows every entry but the last; trailing whitespace closes the list. */
  function PrintElements(es: Elements): string {
    match es
    case NoElements(ws) => ws
    case Element(a, v, b, rest) => a + Print(v) + b + (if rest.Element? then "," else "") + PrintElements(rest)
  }

  function PrintMembers(ms: Members): string {
    match ms
    case NoMembers(ws) => ws
    case Member(a, k, b, c, v, d, rest) =>
      a + Quoted(k) + b + ":" + c + Print(v) + d + (if rest.Member? then "," else "") + PrintMembers(rest)
  }

  // ----- strings are opaque to the scanner

  function Inside(depth: int): State { State(depth, true, false) }

  /** Reading t inside a string stays inside, at the same depth throughout. */
  predicate StaysInside(t: string, d: int) {
    && After(Inside(d), t) == Inside(d)
    && forall k | 0 <= k <= |t| :: After(Inside(d), t[..k]).depth == d
  }

  lemma InsideConcat(a: string, b: string, d: int)
    requires StaysInside(a, d) && StaysInside(b, d)
    ensures StaysInside(a + b, d)
  {
    AfterConcat(Inside(d), a, b);
    forall k | 0 <= k <= |a + b|
      ensures After(Inside(d), (a + b)[..k]).depth == d
    {
      if k <= |a| {
        assert (a + b)[..k] == a[..k];
      } else {
        assert (a + b)[..k] == a + b[..k - |a|];
        AfterConcat(Inside(d), a, b[..k - |a|]);
      }
    }
  }

  lemma {:induction false} RawInside(t: string, d: int)
    requires forall i | 0 <= i < |t| :: t[i] != '"' && t[i] != '\\'
    ensures StaysInside(t, d)
  {
    if t == [] {
      assert t[..0] == [];
    } else {
      var init := t[..|t| - 1];
      RawInside(init, d);
      assert t[..|t|] == t;
      forall k | 0 <= k <= |t|
        ensures After(Inside(d), t[..k]).depth == d
      {
        if k < |t| {
          assert t[..k] == init[..k];
        }
      }
    }
  }

  lemma PairInside(c: char, d: int)
    ensures StaysInside(['\\', c], d)
  {
    var t := ['\\', c];
    assert t[..0] == [] && t[..1] == ['\\'] && t[..2] == t;
    assert ['\\'][..0] == [];
    assert After(Inside(d), ['\\']) == State(d, true, true);
  }

  lemma PieceInside(p: Piece, d: int)
    requires ValidPiece(p)
    ensures StaysInside(PrintPiece(p), d)
  {
    match p {
      case Raw(c) => RawInside([c], d);
      case Escape(c) => PairInside(c, d);
      case Unicode(hex) =>
        PairInside('u', d);
        RawInside(hex, d);
        InsideConcat(['\\', 'u'], hex, d);
    }
  }

  lemma {:induction false} PiecesInside(ps: seq<Piece>, d: int)
    requires ValidPieces(ps)
    ensures StaysInside(PrintPieces(ps), d)
  {
    if ps == [] {
      RawInside("", d);
    } else {
      PieceInside(ps[0], d);
      PiecesInside(ps[1..], d);
      InsideConcat(PrintPiece(ps[0]), PrintPieces(ps[1..]), d);
    }
  }

  lemma NeutralQuoted(ps: seq<Piece>)
    requires ValidPieces(ps)
    ensures Neutral(Quoted(ps))
  {
    var body := PrintPieces(ps);
    var whole := Quoted(ps);
    forall d: int
      ensures NeutralAt(whole, d)
    {
      PiecesInside(ps, d);
      assert After(Outside(d), "\"") == Inside(d) by {
        assert "\""[..0] == [];
      }
      AfterConcat(Outside(d), "\"", body);
      assert whole[..|whole| - 1] == "\"" + body;
      forall k | 0 <= k <= |whole|
        ensures After(Outside(d), whole[..k]).depth >= d
      {
        if k == 0 {
          assert whole[..k] == [];
        } else if k < |whole| {
          assert whole[..k] == "\"" + body[..k - 1];
          AfterConcat(Outside(d), "\"", body[..k - 1]);
        } else {
          assert whole[..k] == whole;
        }
      }
    }
  }

  // ----- printed values are neutral

  lemma NeutralThree(a: string, b: string, c: string)
    requires Neutral(a) && Neutral(b) && Neutral(c)
    ensures Neutral(a + b + c)
  {
    NeutralConcat(a, b);
    NeutralConcat(a + b, c);
  }

  lemma {:induction false} NeutralValue(j: Json)
    requires Valid(j)
    ensures Neutral(Print(j))
  {
    match j {
      case Token(t) => NeutralPlain(t);
      case JString(ps) => NeutralQuoted(ps);
      case JArray(es) =>
        NeutralElements(es);
        NeutralChar('[');
        NeutralChar(']');
        NeutralThree("[", PrintElements(es), "]");
      case JObject(ms) =>
        NeutralMembers(ms);
        NeutralBraces(PrintMembers(ms));
    }
  }

  lemma {:induction false} NeutralElements(es: Elements)
    requires ValidElements(es)
    ensures Neutral(PrintElements(es))
  {
    match es {
      case NoElements(ws) => NeutralPlain(ws);
      case Element(a, v, b, rest) =>
        var comma := if rest.Element? then "," else "";
        NeutralPlain(a);
        NeutralValue(v);
        NeutralPlain(b);
        NeutralPlain(comma);
        NeutralElements(rest);
        NeutralThree(a, Print(v), b);
        NeutralThree(a + Print(v) + b, comma, PrintElements(rest));
    }
  }

  lemma {:induction false} NeutralMembers(ms: Members)
    requires ValidMembers(ms)
    ensures Neutral(PrintMembers(ms))
  {
    match ms {
      case NoMembers(ws) => NeutralPlain(ws);
      case Member(a, k, b, c, v, d, rest) =>
        var comma := if rest.Member? then "," else "";
        NeutralPlain(a);
        NeutralQuoted(k);
        NeutralPlain(b);
        NeutralPlain(":");
        NeutralPlain(c);
        NeutralValue(v);
        NeutralPlain(d);
        NeutralPlain(comma);
        NeutralMembers(rest);
        NeutralThree(a, Quoted(k), b);
        NeutralThree(a + Quoted(k) + b, ":", c);
        NeutralThree(a + Quoted(k) + b + ":" + c, Print(v), d);
        NeutralThree(a + Quoted(k) + b + ":" + c + Print(v) + d, comma, PrintMembers(rest));
    }
  }

  /** A printed object closes at its own end and nowhere before. */
  lemma PrintedObjectCloses(ms: Members)
    requires ValidMembers(ms)
    ensures ClosesAtEnd(Print(JObject(ms)))
  {
    NeutralMembers(ms);
    BracesAround(PrintMembers(ms), 0);
  }

  lemma NoEarlierClose(t: string, k: nat)
    requires ClosesAtEnd(t) && 0 < k <= |t| && ClosesAtEnd(t[..k])
    ensures k == |t|
  {
  }

  lemma NoShorterStretch(text: string, at: int, end: int, end': int)
    requires ClosingStretch(text, at, end) && ClosingStretch(text, at, end') && end <= end'
    ensures end == end'
  {
    var t := text[at..end'];
    assert t[..end - at] == text[at..end];
    NoEarlierClose(t, end - at);
  }

  lemma ClosingStretchIsUnique(text: string, at: int, end: int, at': int, end': int)
    requires ClosingStretch(text, at, end) && ClosingStretch(text, at', end')
    ensures at == at' && end == end'
  {
    assert at == at';
    if end <= end' {
      NoShorterStretch(text, at, end, end');
    }
    if end' <= end {
      NoShorterStretch(text, at, end', end);
    }
  }

  /** The contract leaves one answer for each text, with exactly one closing stretch
      when it is Some; no shorter stretch from the first brace has depth 0. */
  lemma ExtractionIsUnique(text: string, a: Option<string>, b: Option<string>)
    requires IsExtraction(text, a) && IsExtraction(text, b)
    ensures a == b
  {
    if a.Some? && b.Some? {
      var at, end :| ClosingStretch(text, at, end) && a.value == text[at..end];
      var at', end' :| ClosingStretch(text, at', end') && b.value == text[at'..end'];
      ClosingStretchIsUnique(text, at, end, at', end');
    }
  }

  /** Exactness: behind any prefix without a brace and before any suffix, the extractor
      returns exactly the printed object. */
  lemma PrintedObjectIsExtracted(prefix: string, ms: Members, suffix: string, found: Option<string>)
    requires ValidMembers(ms) && '{' !in prefix
    requires IsExtraction(prefix + Print(JObject(ms)) + suffix, found)
    ensures found == Some(Print(JObject(ms)))
  {
    var printed := Print(JObject(ms));
    var text := prefix + printed + suffix;
    PrintedObjectCloses(ms);
    var at, end := |prefix|, |prefix| + |printed|;
    assert text[at..end] == printed;
    assert HasBrace(text, at) by {
      assert text[at] == printed[0];
      assert forall i | 0 <= i < at :: text[i] == prefix[i];
    }
    assert ClosingStretch(text, at, end);
    ExtractionIsUnique(text, found, Some(printed));
  }
}
