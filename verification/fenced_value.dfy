/** When the JSON value of a guard answer survives the Markdown fence around it, although
    _strip_markdown_fences of app/llm_guard.py rewrites every line break. */
module FencedValue {
  import opened Text
  import opened JsonExtract
  import opened Fences

  // ----- rewriting line breaks

  /** Every line break becomes one newline. */
  function Unbreak(s: string): string {
    if s == "" then ""
    else if |s| >= 2 && s[0] == '\r' && s[1] == '\n' then "\n" + Unbreak(s[2..])
    else (if IsBreak(s[0]) then "\n" else [s[0]]) + Unbreak(s[1..])
  }

  lemma UnbreakOne(s: string)
    requires s != "" && !(|s| >= 2 && s[0] == '\r' && s[1] == '\n')
    ensures Unbreak(s) == (if IsBreak(s[0]) then "\n" else [s[0]]) + Unbreak(s[1..])
  {
  }

  lemma UnbreakPair(s: string)
    requires |s| >= 2 && s[0] == '\r' && s[1] == '\n'
    ensures Unbreak(s) == "\n" + Unbreak(s[2..])
  {
  }

  lemma UnbreakChar(c: char, rest: string)
    requires !IsBreak(c)
    ensures Unbreak([c] + rest) == [c] + Unbreak(rest)
  {
    assert ([c] + rest)[1..] == rest;
  }

  lemma ThreeParts(x: string, a: string, b: string)
    ensures x + (a + b) == (x + a) + b
  {
  }

  lemma {:induction false} UnbreakLine(line: string, rest: string)
    requires NoBreaks(line)
    ensures Unbreak(line + rest) == line + Unbreak(rest)
  {
    if line == "" {
      assert line + rest == rest;
    } else {
      UnbreakLine(line[1..], rest);
      assert [line[0]] + line[1..] == line;
      ThreeParts([line[0]], line[1..], rest);
      UnbreakChar(line[0], line[1..] + rest);
      ThreeParts([line[0]], line[1..], Unbreak(rest));
    }
  }

  lemma UnbreakPlain(line: string)
    requires NoBreaks(line)
    ensures Unbreak(line) == line
  {
    UnbreakLine(line, "");
    assert line + "" == line;
  }

  lemma UnbreakAt(s: string, k: nat)
    requires k < |s| && IsBreak(s[k]) && NoBreaks(s[..k])
    ensures Unbreak(s) == s[..k] + ("\n" + Unbreak(Fences.After(s, k)))
  {
    UnbreakLine(s[..k], s[k..]);
    assert s == s[..k] + s[k..];
    assert s[k..][1..] == s[k + 1..];
    if k + 1 < |s| {
      assert s[k..][1] == s[k + 1] && s[k..][2..] == s[k + 2..];
    }
  }

  lemma AfterEnds(s: string, k: nat)
    requires k < |s| && IsBreak(s[k]) && !IsBreak(s[|s| - 1])
    ensures var rest := Fences.After(s, k); rest != "" && rest[|rest| - 1] == s[|s| - 1]
  {
    AfterTail(s, "", k);
  }

  /** Splitting into lines and joining again rewrites the breaks, in a text that does not
      end in one. */
  lemma {:induction false} JoinSplitUnbreaks(s: string)
    requires s != "" && !IsBreak(s[|s| - 1])
    ensures Join("\n", SplitLines(s)) == Unbreak(s) && SplitLines(s) != []
    decreases |s|
  {
    var k := LineLength(s);
    if k == |s| {
      UnbreakPlain(s);
    } else {
      var line, rest := s[..k], Remainder(s);
      AfterEnds(s, k);
      JoinSplitUnbreaks(rest);
      JoinFirst(line, SplitLines(rest));
      UnbreakAt(s, k);
      NewlineBetween(line, Unbreak(rest));
    }
  }

  lemma NewlineBetween(a: string, b: string)
    ensures a + "\n" + b == a + ("\n" + b)
  {
  }

  /** A carriage return and a newline meet. */
  predicate Seam(a: string, b: string) {
    a != "" && b != "" && a[|a| - 1] == '\r' && b[0] == '\n'
  }

  lemma {:induction false} UnbreakConcat(a: string, b: string)
    requires !Seam(a, b)
    ensures Unbreak(a + b) == Unbreak(a) + Unbreak(b)
    decreases |a|
  {
    if a == "" {
      assert a + b == b;
    } else if |a| >= 2 && a[0] == '\r' && a[1] == '\n' {
      UnbreakConcat(a[2..], b);
      assert (a + b)[2..] == a[2..] + b && (a + b)[0] == a[0] && (a + b)[1] == a[1];
      UnbreakPair(a);
      UnbreakPair(a + b);
      NewlineFirst(Unbreak(a[2..]), Unbreak(b));
    } else {
      UnbreakConcat(a[1..], b);
      assert (a + b)[1..] == a[1..] + b;
      assert |a| >= 2 ==> (a + b)[1] == a[1];
      UnbreakOne(a);
      UnbreakOne(a + b);
      ThreeParts(if IsBreak(a[0]) then "\n" else [a[0]], Unbreak(a[1..]), Unbreak(b));
    }
  }

  lemma NewlineFirst(a: string, b: string)
    ensures "\n" + (a + b) == ("\n" + a) + b
  {
  }

  /** No carriage return or newline at either end. */
  predicate Solid(s: string) {
    s != "" && s[0] != '\n' && s[0] != '\r' && s[|s| - 1] != '\n' && s[|s| - 1] != '\r'
  }

  lemma UnbreakAround(a: string, t: string, b: string)
    requires Solid(t)
    ensures Unbreak(a + t + b) == Unbreak(a) + Unbreak(t) + Unbreak(b)
  {
    UnbreakConcat(a, t);
    assert (a + t)[|a + t| - 1] == t[|t| - 1];
    UnbreakConcat(a + t, b);
  }

  lemma {:induction false} UnbreakWs(s: string)
    requires IsWs(s)
    ensures IsWs(Unbreak(s))
    decreases |s|
  {
    if s != "" {
      if |s| >= 2 && s[0] == '\r' && s[1] == '\n' {
        UnbreakWs(s[2..]);
      } else {
        UnbreakWs(s[1..]);
      }
    }
  }

  // ----- values without their layout

  /** A value with all whitespace around its parts removed. */
  function Bare(j: Json): Json {
    match j
    case Token(_) => j
    case JString(_) => j
    case JArray(es) => JArray(BareElements(es))
    case JObject(ms) => JObject(BareMembers(ms))
  }

  function BareElements(es: Elements): Elements {
    match es
    case NoElements(_) => NoElements("")
    case Element(_, v, _, rest) => Element("", Bare(v), "", BareElements(rest))
  }

  function BareMembers(ms: Members): Members {
    match ms
    case NoMembers(_) => NoMembers("")
    case Member(_, k, _, _, v, _, rest) => Member("", k, "", "", Bare(v), "", BareMembers(rest))
  }

  predicate PiecesUnbroken(ps: seq<Piece>) {
    forall i | 0 <= i < |ps| && ps[i].Raw? :: !IsBreak(ps[i].c)
  }

  /** No string holds a line break, as JSON allows it to with U+0085, U+2028 and U+2029. */
  predicate Unbroken(j: Json) {
    match j
    case Token(_) => true
    case JString(ps) => PiecesUnbroken(ps)
    case JArray(es) => UnbrokenElements(es)
    case JObject(ms) => UnbrokenMembers(ms)
  }

  predicate UnbrokenElements(es: Elements) {
    match es
    case NoElements(_) => true
    case Element(_, v, _, rest) => Unbroken(v) && UnbrokenElements(rest)
  }

  predicate UnbrokenMembers(ms: Members) {
    match ms
    case NoMembers(_) => true
    case Member(_, k, _, _, v, _, rest) => PiecesUnbroken(k) && Unbroken(v) && UnbrokenMembers(rest)
  }

  /** The layout plays no part in this. */
  lemma {:induction false} BareUnbroken(j: Json)
    ensures Unbroken(Bare(j)) == Unbroken(j)
  {
    match j {
      case Token(_) =>
      case JString(_) =>
      case JArray(es) => BareUnbrokenElements(es);
      case JObject(ms) => BareUnbrokenMembers(ms);
    }
  }

  lemma {:induction false} BareUnbrokenElements(es: Elements)
    ensures UnbrokenElements(BareElements(es)) == UnbrokenElements(es)
  {
    match es {
      case NoElements(_) =>
      case Element(_, v, _, rest) =>
        BareUnbroken(v);
        BareUnbrokenElements(rest);
    }
  }

  lemma {:induction false} BareUnbrokenMembers(ms: Members)
    ensures UnbrokenMembers(BareMembers(ms)) == UnbrokenMembers(ms)
  {
    match ms {
      case NoMembers(_) =>
      case Member(_, _, _, _, v, _, rest) =>
        BareUnbroken(v);
        BareUnbrokenMembers(rest);
    }
  }

  // ----- unbroken values survive

  /** The same value with its layout rewritten. Whitespace that meets at the end of a list
      is taken together. */
  function Relaid(j: Json): Json {
    match j
    case Token(_) => j
    case JString(_) => j
    case JArray(es) => JArray(RelaidElements(es))
    case JObject(ms) => JObject(RelaidMembers(ms))
  }

  function RelaidElements(es: Elements): Elements {
    match es
    case NoElements(ws) => NoElements(Unbreak(ws))
    case Element(a, v, b, NoElements(ws)) => Element(Unbreak(a), Relaid(v), Unbreak(b + ws), NoElements(""))
    case Element(a, v, b, rest) => Element(Unbreak(a), Relaid(v), Unbreak(b), RelaidElements(rest))
  }

  function RelaidMembers(ms: Members): Members {
    match ms
    case NoMembers(ws) => NoMembers(Unbreak(ws))
    case Member(a, k, b, c, v, d, NoMembers(ws)) =>
      Member(Unbreak(a), k, Unbreak(b), Unbreak(c), Relaid(v), Unbreak(d + ws), NoMembers(""))
    case Member(a, k, b, c, v, d, rest) =>
      Member(Unbreak(a), k, Unbreak(b), Unbreak(c), Relaid(v), Unbreak(d), RelaidMembers(rest))
  }

  lemma {:induction false} PiecesHaveNoBreaks(ps: seq<Piece>)
    requires ValidPieces(ps) && PiecesUnbroken(ps)
    ensures NoBreaks(PrintPieces(ps))
  {
    if ps != [] {
      assert ValidPiece(ps[0]);
      assert forall i | 0 <= i < |ps| - 1 :: ps[1..][i] == ps[i + 1];
      PiecesHaveNoBreaks(ps[1..]);
      match ps[0] {
        case Raw(_) =>
        case Escape(_) =>
        case Unicode(hex) => assert forall i | 0 <= i < 4 :: IsHexDigit(hex[i]);
      }
    }
  }

  lemma QuotedUnbroken(ps: seq<Piece>)
    requires ValidPieces(ps) && PiecesUnbroken(ps)
    ensures Unbreak(Quoted(ps)) == Quoted(ps)
  {
    PiecesHaveNoBreaks(ps);
    UnbreakPlain(Quoted(ps));
  }

  lemma PrintedSolid(j: Json)
    requires Valid(j)
    ensures Solid(Print(j))
  {
    match j {
      case Token(t) => assert t[0] == t[0];
      case _ =>
    }
  }

  /** Rewriting the breaks of a printed value prints the relaid value. */
  lemma {:induction false} UnbreakPrints(j: Json)
    requires Valid(j) && Unbroken(j)
    ensures Unbreak(Print(j)) == Print(Relaid(j))
    ensures Valid(Relaid(j)) && Bare(Relaid(j)) == Bare(j)
  {
    match j {
      case Token(t) => UnbreakPlain(t);
      case JString(ps) => QuotedUnbroken(ps);
      case JArray(es) =>
        UnbreakPrintsElements(es);
        Enclosed("[", PrintElements(es), "]");
      case JObject(ms) =>
        UnbreakPrintsMembers(ms);
        Enclosed("{", PrintMembers(ms), "}");
    }
  }

  lemma Enclosed(open: string, body: string, close: string)
    requires |open| == |close| == 1 && Solid(open) && Solid(close) && NoBreaks(open) && NoBreaks(close)
    ensures Unbreak(open + body + close) == open + Unbreak(body) + close
  {
    UnbreakConcat(open, body);
    UnbreakConcat(open + body, close);
    UnbreakPlain(open);
    UnbreakPlain(close);
  }

  lemma LastEntry(front: string, t: string, b: string, ws: string)
    requires Solid(t)
    ensures Unbreak(front + t + b + "" + ws) == Unbreak(front) + Unbreak(t) + Unbreak(b + ws) + "" + ""
  {
    assert front + t + b + "" + ws == front + t + (b + ws);
    UnbreakAround(front, t, b + ws);
  }

  lemma NextEntry(front: string, t: string, b: string, rest: string)
    requires Solid(t)
    ensures Unbreak(front + t + b + "," + rest) == Unbreak(front) + Unbreak(t) + Unbreak(b) + "," + Unbreak(rest)
  {
    UnbreakAround(front, t, b);
    UnbreakPlain(",");
    UnbreakAround(front + t + b, ",", rest);
  }

  lemma {:induction false} UnbreakPrintsElements(es: Elements)
    requires ValidElements(es) && UnbrokenElements(es)
    ensures Unbreak(PrintElements(es)) == PrintElements(RelaidElements(es))
    ensures ValidElements(RelaidElements(es)) && BareElements(RelaidElements(es)) == BareElements(es)
  {
    match es {
      case NoElements(ws) => UnbreakWs(ws);
      case Element(a, v, b, rest) =>
        PrintedSolid(v);
        UnbreakPrints(v);
        UnbreakWs(a);
        if rest.NoElements? {
          UnbreakWs(b + rest.ws);
          LastEntry(a, Print(v), b, rest.ws);
        } else {
          UnbreakWs(b);
          UnbreakPrintsElements(rest);
          NextEntry(a, Print(v), b, PrintElements(rest));
        }
    }
  }

  lemma {:induction false} UnbreakPrintsMembers(ms: Members)
    requires ValidMembers(ms) && UnbrokenMembers(ms)
    ensures Unbreak(PrintMembers(ms)) == PrintMembers(RelaidMembers(ms))
    ensures ValidMembers(RelaidMembers(ms)) && BareMembers(RelaidMembers(ms)) == BareMembers(ms)
  {
    match ms {
      case NoMembers(ws) => UnbreakWs(ws);
      case Member(a, k, b, c, v, d, rest) =>
        var key := a + Quoted(k) + b + ":" + c;
        UnbreakKey(a, k, b, c);
        PrintedSolid(v);
        UnbreakPrints(v);
        if rest.NoMembers? {
          UnbreakWs(d + rest.ws);
          LastEntry(key, Print(v), d, rest.ws);
        } else {
          UnbreakWs(d);
          UnbreakPrintsMembers(rest);
          NextEntry(key, Print(v), d, PrintMembers(rest));
        }
    }
  }

  lemma UnbreakKey(a: string, k: seq<Piece>, b: string, c: string)
    requires IsWs(a) && ValidPieces(k) && PiecesUnbroken(k) && IsWs(b) && IsWs(c)
    ensures Unbreak(a + Quoted(k) + b + ":" + c) == Unbreak(a) + Quoted(k) + Unbreak(b) + ":" + Unbreak(c)
    ensures IsWs(Unbreak(a)) && IsWs(Unbreak(b)) && IsWs(Unbreak(c))
  {
    UnbreakWs(a);
    UnbreakWs(b);
    UnbreakWs(c);
    QuotedUnbroken(k);
    UnbreakAround(a, Quoted(k), b);
    UnbreakPlain(":");
    UnbreakAround(a + Quoted(k) + b, ":", c);
  }

  // ----- broken ones do not

  lemma BreakStays(a: string, t: string, b: string)
    requires !NewlinesOnly(t)
    ensures !NewlinesOnly(a + t + b)
  {
    var i :| 0 <= i < |t| && IsBreak(t[i]) && t[i] != '\n';
    assert (a + t + b)[|a| + i] == t[i];
  }

  lemma {:induction false} BrokenPieces(ps: seq<Piece>)
    requires ValidPieces(ps) && !PiecesUnbroken(ps)
    ensures !NewlinesOnly(PrintPieces(ps))
  {
    assert ValidPiece(ps[0]);
    var rest := ps[1..];
    if ps[0].Raw? && IsBreak(ps[0].c) {
      assert PrintPieces(ps)[0] == ps[0].c;
    } else {
      assert forall i | 0 <= i < |rest| :: rest[i] == ps[i + 1];
      assert !PiecesUnbroken(rest) by {
        var i :| 0 <= i < |ps| && ps[i].Raw? && IsBreak(ps[i].c);
        assert rest[i - 1] == ps[i];
      }
      BrokenPieces(rest);
      BreakStays(PrintPiece(ps[0]), PrintPieces(rest), "");
      assert PrintPiece(ps[0]) + PrintPieces(rest) + "" == PrintPieces(ps);
    }
  }

  lemma BrokenQuoted(ps: seq<Piece>)
    requires ValidPieces(ps) && !PiecesUnbroken(ps)
    ensures !NewlinesOnly(Quoted(ps))
  {
    BrokenPieces(ps);
    BreakStays("\"", PrintPieces(ps), "\"");
  }

  /** However it is laid out, a broken value is printed with a break that is no newline. */
  lemma {:induction false} BrokenPrint(j: Json)
    requires Valid(j) && !Unbroken(j)
    ensures !NewlinesOnly(Print(j))
  {
    match j {
      case JString(ps) => BrokenQuoted(ps);
      case JArray(es) =>
        BrokenElements(es);
        BreakStays("[", PrintElements(es), "]");
      case JObject(ms) =>
        BrokenMembers(ms);
        BreakStays("{", PrintMembers(ms), "}");
    }
  }

  lemma {:induction false} BrokenElements(es: Elements)
    requires ValidElements(es) && !UnbrokenElements(es)
    ensures !NewlinesOnly(PrintElements(es))
  {
    var Element(a, v, b, rest) := es;
    var comma := if rest.Element? then "," else "";
    if !Unbroken(v) {
      BrokenPrint(v);
      BreakStays(a, Print(v), b);
      BreakBefore(a + Print(v) + b, comma, PrintElements(rest));
    } else {
      BrokenElements(rest);
      BreakAfter(a + Print(v) + b + comma, PrintElements(rest));
    }
  }

  lemma BreakBefore(t: string, comma: string, rest: string)
    requires !NewlinesOnly(t)
    ensures !NewlinesOnly(t + comma + rest)
  {
    var i :| 0 <= i < |t| && IsBreak(t[i]) && t[i] != '\n';
    assert (t + comma + rest)[i] == t[i];
  }

  lemma BreakAfter(front: string, t: string)
    requires !NewlinesOnly(t)
    ensures !NewlinesOnly(front + t)
  {
    var i :| 0 <= i < |t| && IsBreak(t[i]) && t[i] != '\n';
    assert (front + t)[|front| + i] == t[i];
  }

  lemma {:induction false} BrokenMembers(ms: Members)
    requires ValidMembers(ms) && !UnbrokenMembers(ms)
    ensures !NewlinesOnly(PrintMembers(ms))
  {
    var Member(a, k, b, c, v, d, rest) := ms;
    var comma := if rest.Member? then "," else "";
    var front := a + Quoted(k) + b + ":" + c + Print(v) + d;
    if !PiecesUnbroken(k) {
      BrokenQuoted(k);
      BreakStays(a, Quoted(k), b);
      BreakBefore(a + Quoted(k) + b, ":", c);
      BreakBefore(a + Quoted(k) + b + ":" + c, Print(v), d);
      BreakBefore(front, comma, PrintMembers(rest));
    } else if !Unbroken(v) {
      BrokenPrint(v);
      BreakStays(a + Quoted(k) + b + ":" + c, Print(v), d);
      BreakBefore(front, comma, PrintMembers(rest));
    } else {
      BrokenMembers(rest);
      BreakAfter(front + comma, PrintMembers(rest));
    }
  }

  // ----- the exact condition

  /** The text is a layout of this object. */
  ghost predicate Says(text: string, ms: Members) {
    exists laid :: ValidMembers(laid) && BareMembers(laid) == BareMembers(ms) && text == Print(JObject(laid))
  }

  lemma RelaidSays(ms: Members)
    requires ValidMembers(ms) && UnbrokenMembers(ms)
    ensures Strip(Print(Relaid(JObject(ms)))) == Print(Relaid(JObject(ms))) && Says(Print(Relaid(JObject(ms))), ms)
  {
    UnbreakPrints(JObject(ms));
    var laid := RelaidMembers(ms);
    var text := Print(JObject(laid));
    assert text[0] == '{' && text[|text| - 1] == '}';
    StripFixed(text);
    assert ValidMembers(laid) && BareMembers(laid) == BareMembers(ms);
  }

  lemma BrokenUnsaid(ms: Members, text: string)
    requires ValidMembers(ms) && !UnbrokenMembers(ms) && NewlinesOnly(text)
    ensures !Says(text, ms)
  {
    BareUnbrokenMembers(ms);
    forall laid | ValidMembers(laid) && BareMembers(laid) == BareMembers(ms)
      ensures text != Print(JObject(laid))
    {
      BareUnbrokenMembers(laid);
      BrokenPrint(JObject(laid));
    }
  }

  /** Inside a fence a JSON object keeps its value, whatever becomes of its layout, if and
      only if no string in it holds a line break. */
  lemma FencedValueExactly(tag: string, ms: Members)
    requires NoBreaks(tag) && ValidMembers(ms)
    ensures Says(StripFences(FENCE + tag + "\n" + Print(JObject(ms)) + "\n" + FENCE), ms) <==> UnbrokenMembers(ms)
  {
    var printed := Print(JObject(ms));
    assert printed[0] == '{' && printed[|printed| - 1] == '}';
    FencedBody(tag, printed);
    if UnbrokenMembers(ms) {
      JoinSplitUnbreaks(printed);
      UnbreakPrints(JObject(ms));
      RelaidSays(ms);
    } else {
      UnfencedNewlines(printed);
      BrokenUnsaid(ms, Strip(Join("\n", SplitLines(printed))));
    }
  }
}
