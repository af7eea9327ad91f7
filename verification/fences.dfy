/** Markdown fences around a guard answer: _strip_markdown_fences of app/llm_guard.py,
    and when a fenced JSON object comes out of it unchanged. */
module Fences {
  import opened Records
  import opened Text
  import opened JsonExtract

  /** The characters at which str.splitlines breaks a line. */
  predicate IsBreak(c: char) {
    var n := c as int;
    10 <= n <= 13 || 28 <= n <= 30 || n == 0x85 || n == 0x2028 || n == 0x2029
  }

  /** What follows the line break at index k; a carriage return and a newline are one. */
  function After(s: string, k: nat): (rest: string)
    requires k < |s|
    ensures |rest| < |s|
  {
    if k + 1 < |s| && s[k] == '\r' && s[k + 1] == '\n' then s[k + 2..] else s[k + 1..]
  }

  /** The characters before the first line break. */
  function LineLength(s: string): (k: nat)
    ensures k <= |s| && (k < |s| ==> IsBreak(s[k]))
    ensures forall i | 0 <= i < k :: !IsBreak(s[i])
  {
    if s == [] || IsBreak(s[0]) then 0 else 1 + LineLength(s[1..])
  }

  /** What follows the first line break. */
  function Remainder(s: string): (rest: string)
    requires LineLength(s) < |s|
    ensures |rest| < |s|
  {
    After(s, LineLength(s))
  }

  /** The lines of a text, without their breaks. */
  function SplitLines(s: string): seq<string>
    decreases |s|
  {
    if s == "" then []
    else if LineLength(s) == |s| then [s]
    else [s[..LineLength(s)]] + SplitLines(Remainder(s))
  }

  const FENCE := "```"

  predicate StartsWith(s: string, p: string) {
    p <= s
  }

  /** The lines without an opening and a closing fence. */
  function InnerLines(lines: seq<string>): seq<string> {
    var body := if lines != [] && StartsWith(lines[0], FENCE) then lines[1..] else lines;
    if body != [] && StartsWith(body[|body| - 1], FENCE) then body[..|body| - 1] else body
  }

  function StripFences(raw: string): string {
    var text := Strip(raw);
    if StartsWith(text, FENCE) then Strip(Join("\n", InnerLines(SplitLines(text)))) else text
  }

  predicate NoBreaks(s: string) {
    forall i | 0 <= i < |s| :: !IsBreak(s[i])
  }

  /** A text whose only line breaks are newlines. */
  predicate NewlinesOnly(s: string) {
    forall i | 0 <= i < |s| && IsBreak(s[i]) :: s[i] == '\n'
  }

  lemma LineLengthIs(s: string, k: nat)
    requires k <= |s| && (k < |s| ==> IsBreak(s[k])) && forall i | 0 <= i < k :: !IsBreak(s[i])
    ensures LineLength(s) == k
  {
  }

  /** The text of the first line, and the lines after a newline. */
  lemma SplitFirst(line: string, rest: string)
    requires NoBreaks(line)
    ensures SplitLines(line + "\n" + rest) == [line] + SplitLines(rest)
  {
    var s := line + "\n" + rest;
    assert s[|line|] == '\n';
    assert forall i | 0 <= i < |line| :: s[i] == line[i];
    LineLengthIs(s, |line|);
    assert s[..|line|] == line;
    assert s[|line| + 1..] == rest;
  }

  lemma SplitOne(line: string)
    requires NoBreaks(line) && line != ""
    ensures SplitLines(line) == [line]
  {
    LineLengthIs(line, |line|);
  }

  /** A text that does not end at its line break keeps what it ends in. */
  lemma AfterTail(body: string, tail: string, k: nat)
    requires k < |body| && IsBreak(body[k]) && !IsBreak(body[|body| - 1])
    ensures After(body, k) != "" && After(body, k)[|After(body, k)| - 1] == body[|body| - 1]
    ensures After(body + tail, k) == After(body, k) + tail
  {
    var s := body + tail;
    assert s[k] == body[k] && s[k + 1] == body[k + 1];
    assert s[k + 1..] == body[k + 1..] + tail;
    assert k + 2 <= |body| && s[k + 2..] == body[k + 2..] + tail;
  }

  lemma SameLine(body: string, tail: string)
    requires LineLength(body) < |body|
    ensures LineLength(body + tail) == LineLength(body)
    ensures (body + tail)[..LineLength(body)] == body[..LineLength(body)]
  {
    assert forall i | 0 <= i < |body| :: (body + tail)[i] == body[i];
    LineLengthIs(body + tail, LineLength(body));
  }

  lemma SplitTail(s: string, t: string, last: seq<string>)
    requires LineLength(s) == LineLength(t) < |s| && LineLength(t) < |t|
    requires s[..LineLength(s)] == t[..LineLength(t)]
    requires SplitLines(Remainder(t)) == SplitLines(Remainder(s)) + last
    ensures SplitLines(t) == SplitLines(s) + last
  {
  }

  lemma SplitSingle(body: string)
    requires body != "" && NoBreaks(body)
    ensures SplitLines(body + ("\n" + FENCE)) == SplitLines(body) + [FENCE]
  {
    assert body + ("\n" + FENCE) == body + "\n" + FENCE;
    SplitFirst(body, FENCE);
    SplitOne(body);
    SplitOne(FENCE);
  }

  /** A closing fence on a line of its own is one more line. */
  lemma {:induction false} SplitLast(body: string)
    requires body != "" && !IsBreak(body[|body| - 1])
    ensures SplitLines(body + ("\n" + FENCE)) == SplitLines(body) + [FENCE]
    decreases |body|
  {
    if LineLength(body) == |body| {
      SplitSingle(body);
    } else {
      SameLine(body, "\n" + FENCE);
      AfterTail(body, "\n" + FENCE, LineLength(body));
      SplitLast(Remainder(body));
      SplitTail(body, body + ("\n" + FENCE), [FENCE]);
    }
  }

  lemma NewlinesOnlySlice(s: string, lo: nat, hi: nat)
    requires NewlinesOnly(s) && lo <= hi <= |s|
    ensures NewlinesOnly(s[lo..hi])
  {
    forall i | 0 <= i < hi - lo && IsBreak(s[lo..hi][i])
      ensures s[lo..hi][i] == '\n'
    {
      assert s[lo..hi][i] == s[lo + i];
    }
  }

  /** The text in front of a newline, the newline, and the text after it. */
  lemma CutAtNewline(s: string, k: nat)
    requires NewlinesOnly(s) && k < |s| && IsBreak(s[k]) && !IsBreak(s[|s| - 1])
    ensures s == s[..k] + "\n" + After(s, k)
    ensures NewlinesOnly(After(s, k)) && After(s, k) != "" && !IsBreak(After(s, k)[|After(s, k)| - 1])
  {
    assert s[k] == '\n' && k + 1 < |s|;
    var rest := s[k + 1..|s|];
    assert After(s, k) == rest && rest[|rest| - 1] == s[|s| - 1];
    NewlinesOnlySlice(s, k + 1, |s|);
  }

  lemma JoinFirst(line: string, lines: seq<string>)
    ensures Join("\n", [line] + lines) == if lines == [] then line else line + "\n" + Join("\n", lines)
  {
    assert ([line] + lines)[1..] == lines;
  }

  /** Splitting and joining again leaves a text alone when its only line breaks are
      newlines and it does not end in one. */
  lemma {:induction false} JoinSplitSame(s: string)
    requires NewlinesOnly(s) && s != "" && !IsBreak(s[|s| - 1])
    ensures Join("\n", SplitLines(s)) == s && SplitLines(s) != []
    decreases |s|
  {
    var k := LineLength(s);
    if k < |s| {
      CutAtNewline(s, k);
      JoinSplitSame(Remainder(s));
      JoinFirst(s[..k], SplitLines(Remainder(s)));
    }
  }

  /** Joined lines have no break but newlines, whatever was split. */
  lemma {:induction false} JoinSplitNewlines(s: string)
    ensures NewlinesOnly(Join("\n", SplitLines(s)))
    decreases |s|
  {
    var k := LineLength(s);
    if k < |s| {
      JoinSplitNewlines(Remainder(s));
      JoinFirst(s[..k], SplitLines(Remainder(s)));
    }
  }

  lemma FencedLines(tag: string, body: string)
    requires NoBreaks(tag) && body != "" && !IsBreak(body[|body| - 1])
    ensures SplitLines(FENCE + tag + "\n" + body + "\n" + FENCE) == [FENCE + tag] + (SplitLines(body) + [FENCE])
  {
    var rest := body + ("\n" + FENCE);
    assert FENCE + tag + "\n" + body + "\n" + FENCE == (FENCE + tag) + "\n" + rest;
    assert NoBreaks(FENCE + tag);
    SplitFirst(FENCE + tag, rest);
    SplitLast(body);
  }

  lemma FencedStripped(tag: string, body: string)
    ensures Strip(FENCE + tag + "\n" + body + "\n" + FENCE) == FENCE + tag + "\n" + body + "\n" + FENCE
    ensures StartsWith(FENCE + tag + "\n" + body + "\n" + FENCE, FENCE)
  {
    var t := FENCE + tag + "\n" + body + "\n" + FENCE;
    assert t[0] == '`' && t[|t| - 1] == '`';
    StripFixed(t);
  }

  lemma InnerLinesOf(first: string, lines: seq<string>)
    requires StartsWith(first, FENCE)
    ensures InnerLines([first] + (lines + [FENCE])) == lines
  {
    assert ([first] + (lines + [FENCE]))[1..] == lines + [FENCE];
  }

  /** What is left of a fenced text is its body, split into lines and joined again. */
  lemma FencedBody(tag: string, body: string)
    requires NoBreaks(tag) && body != "" && !IsBreak(body[|body| - 1])
    ensures StripFences(FENCE + tag + "\n" + body + "\n" + FENCE) == Strip(Join("\n", SplitLines(body)))
  {
    FencedLines(tag, body);
    FencedStripped(tag, body);
    InnerLinesOf(FENCE + tag, SplitLines(body));
  }

  lemma UnfencedNewlines(s: string)
    ensures NewlinesOnly(Strip(Join("\n", SplitLines(s))))
  {
    JoinSplitNewlines(s);
    var lo, hi := StripCut(Join("\n", SplitLines(s)));
    NewlinesOnlySlice(Join("\n", SplitLines(s)), lo, hi);
  }

  /** A fenced JSON object comes out of the fences unchanged if and only if its only
      line breaks are newlines. JSON allows a string to hold other line separators, such
      as U+2028, unescaped; inside a fence those are turned into newlines. */
  lemma FencedObjectExactly(tag: string, ms: Members)
    requires NoBreaks(tag) && ValidMembers(ms)
    ensures var printed := Print(JObject(ms));
            StripFences(FENCE + tag + "\n" + printed + "\n" + FENCE) == printed <==> NewlinesOnly(printed)
  {
    var printed := Print(JObject(ms));
    assert printed[0] == '{' && printed[|printed| - 1] == '}';
    FencedBody(tag, printed);
    if NewlinesOnly(printed) {
      JoinSplitSame(printed);
      StripFixed(printed);
    } else {
      UnfencedNewlines(printed);
    }
  }

  /** From fence to object: such an object is then what the extractor finds. */
  lemma FencedObjectIsExtracted(tag: string, ms: Members, found: Option<string>)
    requires NoBreaks(tag) && ValidMembers(ms) && NewlinesOnly(Print(JObject(ms)))
    requires IsExtraction(StripFences(FENCE + tag + "\n" + Print(JObject(ms)) + "\n" + FENCE), found)
    ensures found == Some(Print(JObject(ms)))
  {
    FencedObjectExactly(tag, ms);
    var printed := Print(JObject(ms));
    assert "" + printed + "" == printed;
    PrintedObjectIsExtracted("", ms, "", found);
  }

  const SEPARATOR: char := '\U{2028}'

  /** An object with one member, whose value is a string of one line separator. */
  const SEPARATOR_OBJECT: Members :=
    Member("", [Raw('a')], "", "", JString([Raw(SEPARATOR)]), "", NoMembers(""))

  lemma SeparatorPrinted()
    ensures ValidMembers(SEPARATOR_OBJECT)
    ensures Print(JObject(SEPARATOR_OBJECT)) == "{\"a\":\"" + [SEPARATOR] + "\"}"
  {
    assert PrintPieces([Raw('a')]) == "a" && PrintPieces([Raw(SEPARATOR)]) == [SEPARATOR] by {
      assert [Raw('a')][1..] == [] && [Raw(SEPARATOR)][1..] == [];
    }
    assert Quoted([Raw('a')]) == "\"a\"" && Quoted([Raw(SEPARATOR)]) == "\"" + [SEPARATOR] + "\"";
    assert PrintMembers(NoMembers("")) == "";
    assert PrintMembers(SEPARATOR_OBJECT) == "\"a\":\"" + [SEPARATOR] + "\"";
  }

  lemma SeparatorLines()
    ensures SplitLines(Print(JObject(SEPARATOR_OBJECT))) == ["{\"a\":\"", "\"}"]
  {
    var front, back, printed := "{\"a\":\"", "\"}", Print(JObject(SEPARATOR_OBJECT));
    SeparatorPrinted();
    LineLengthIs(printed, |front|);
    assert printed[..|front|] == front && After(printed, |front|) == back;
    SplitOne(back);
    assert [front] + [back] == [front, back];
  }

  /** Out of a fence this object comes with a newline inside its string, where JSON does
      not allow one. */
  lemma SeparatorLost()
    ensures StripFences(FENCE + "json" + "\n" + Print(JObject(SEPARATOR_OBJECT)) + "\n" + FENCE)
            == "{\"a\":\"" + "\n" + "\"}"
  {
    var front, back, printed := "{\"a\":\"", "\"}", Print(JObject(SEPARATOR_OBJECT));
    SeparatorPrinted();
    SeparatorLines();
    FencedBody("json", printed);
    JoinFirst(front, [back]);
    assert [front] + [back] == [front, back];
    StripFixed(front + "\n" + back);
  }
}
