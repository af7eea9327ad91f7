/** The two multi-pass text rewrites: _normalize_text of app/normalizer.py on every
    incoming message, and sanitize_for_prompt of app/prompt_builder.py on everything
    that enters a prompt. */
module Normalize {
  import opened Text

  predicate IsControl(c: char) {
    var n := c as int;
    n <= 8 || n == 11 || n == 12 || 14 <= n <= 31
  }

  /** s with every character of a class deleted. */
  function Without(s: string, drop: char -> bool): string {
    if s == [] then []
    else if drop(s[0]) then Without(s[1..], drop)
    else [s[0]] + Without(s[1..], drop)
  }

  /** Every carriage return that a newline follows is dropped. */
  function ReplaceCrLf(s: string): string {
    if s == [] then []
    else if |s| >= 2 && s[0] == '\r' && s[1] == '\n' then ['\n'] + ReplaceCrLf(s[2..])
    else [s[0]] + ReplaceCrLf(s[1..])
  }

  /** Every carriage return becomes a newline. */
  function ReplaceCr(s: string): string {
    if s == [] then [] else [if s[0] == '\r' then '\n' else s[0]] + ReplaceCr(s[1..])
  }

  predicate IsBlank(c: char) { c == ' ' || c == '\t' }

  /** Every run of blanks and tabs becomes one blank. */
  function CollapseBlanks(s: string): string {
    if s == [] then []
    else if IsBlank(s[0]) then
      if |s| > 1 && IsBlank(s[1]) then CollapseBlanks(s[1..]) else [' '] + CollapseBlanks(s[1..])
    else [s[0]] + CollapseBlanks(s[1..])
  }

  predicate IsNul(c: char) { c as int == 0 }

  function NormalizeText(s: string): (string, bool) {
    (Strip(ReplaceCr(ReplaceCrLf(Without(s, IsControl)))), exists i | 0 <= i < |s| :: IsControl(s[i]))
  }

  function SanitizeForPrompt(s: string): string {
    Strip(ReplaceCr(ReplaceCrLf(CollapseBlanks(Without(s, IsNul)))))
  }

  // ----- what the passes keep

  predicate NoneOf(s: string, bad: char -> bool) {
    forall i | 0 <= i < |s| :: !bad(s[i])
  }

  predicate IsCr(c: char) { c == '\r' }

  predicate NoDoubleBlank(s: string) {
    forall i | 0 <= i < |s| - 1 :: !(IsBlank(s[i]) && IsBlank(s[i + 1]))
  }

  lemma {:induction false} WithoutRemoves(s: string, drop: char -> bool)
    ensures NoneOf(Without(s, drop), drop)
    ensures NoneOf(s, drop) ==> Without(s, drop) == s
  {
    if s != [] {
      WithoutRemoves(s[1..], drop);
      if NoneOf(s, drop) {
        assert NoneOf(s[1..], drop);
      }
    }
  }

  /** The line-end passes leave no carriage return, add no character but a newline, and
      leave text without carriage returns alone. */
  lemma {:induction false} LineEnds(s: string, bad: char -> bool)
    requires NoneOf(s, bad) && !bad('\n')
    ensures NoneOf(ReplaceCrLf(s), bad) && NoneOf(ReplaceCr(s), bad)
    ensures NoneOf(ReplaceCr(s), IsCr)
    ensures NoneOf(s, IsCr) ==> ReplaceCrLf(s) == s && ReplaceCr(s) == s
    decreases |s|
  {
    if s != [] {
      assert NoneOf(s[1..], bad);
      assert NoneOf(s, IsCr) ==> NoneOf(s[1..], IsCr) && !IsCr(s[0]);
      LineEnds(s[1..], bad);
      if |s| >= 2 && s[0] == '\r' && s[1] == '\n' {
        assert NoneOf(s[2..], bad);
        LineEnds(s[2..], bad);
      }
    }
  }

  lemma StripKeeps(s: string, bad: char -> bool)
    requires NoneOf(s, bad)
    ensures NoneOf(Strip(s), bad) && Stripped(Strip(s))
  {
    var lo, hi := StripCut(s);
  }

  // ----- message normalisation

  /** The texts that normalisation leaves alone. */
  predicate NormalText(s: string) {
    NoneOf(s, IsControl) && NoneOf(s, IsCr) && Stripped(s)
  }

  /** No character below the blank but tabs and newlines, and no outer whitespace. */
  lemma NormalTextMeans(s: string)
    ensures NormalText(s) <==>
              (forall i | 0 <= i < |s| :: s[i] as int >= 32 || s[i] == '\t' || s[i] == '\n') && Stripped(s)
  {
  }

  lemma NormalizeTextIsNormal(s: string)
    ensures NormalText(NormalizeText(s).0)
  {
    var a := Without(s, IsControl);
    WithoutRemoves(s, IsControl);
    LineEnds(a, IsControl);
    LineEnds(ReplaceCrLf(a), IsControl);
    StripKeeps(ReplaceCr(ReplaceCrLf(a)), IsControl);
    StripKeeps(ReplaceCr(ReplaceCrLf(a)), IsCr);
  }

  /** Normalisation fixes exactly the texts without control characters, carriage
      returns and outer whitespace; and it reports control characters truly. */
  lemma NormalizeTextFixpoints(s: string)
    ensures NormalizeText(s).0 == s <==> NormalText(s)
    ensures NormalizeText(s).1 <==> Without(s, IsControl) != s
  {
    NormalizeTextIsNormal(s);
    WithoutRemoves(s, IsControl);
    if NormalText(s) {
      LineEnds(s, IsControl);
      StripFixed(s);
    }
    if NormalizeText(s).1 {
      assert !NoneOf(s, IsControl);
    } else {
      assert NoneOf(s, IsControl);
    }
  }

  /** Normalising twice is normalising once, and the second pass reports nothing. */
  lemma NormalizeTextIdempotent(s: string)
    ensures NormalizeText(NormalizeText(s).0) == (NormalizeText(s).0, false)
  {
    NormalizeTextIsNormal(s);
    NormalizeTextFixpoints(NormalizeText(s).0);
    WithoutRemoves(NormalizeText(s).0, IsControl);
  }

  // ----- prompt sanitisation

  predicate IsTab(c: char) { c == '\t' }

  /** The texts that sanitisation leaves alone. */
  predicate PromptText(s: string) {
    NoneOf(s, IsNul) && NoneOf(s, IsTab) && NoneOf(s, IsCr) && NoDoubleBlank(s) && Stripped(s)
  }

  /** Collapsing leaves no tab and no two adjacent blanks, starts with a blank exactly
      when its input does, and is the identity on text that is already so. */
  lemma {:induction false} CollapseClean(s: string)
    ensures var r := CollapseBlanks(s);
            && NoneOf(r, IsTab) && NoDoubleBlank(r)
            && (r == [] <==> s == [])
            && (s != [] ==> (IsBlank(r[0]) <==> IsBlank(s[0])))
    ensures NoneOf(s, IsNul) ==> NoneOf(CollapseBlanks(s), IsNul)
    ensures NoneOf(s, IsTab) && NoDoubleBlank(s) ==> CollapseBlanks(s) == s
  {
    if s != [] {
      var rest := s[1..];
      CollapseClean(rest);
      assert NoneOf(s, IsNul) ==> NoneOf(rest, IsNul);
      if NoneOf(s, IsTab) && NoDoubleBlank(s) {
        TailKeeps(s);
      }
      if !(IsBlank(s[0]) && |s| > 1 && IsBlank(s[1])) {
        PrependKeeps(if IsBlank(s[0]) then ' ' else s[0], CollapseBlanks(rest));
      }
    }
  }

  lemma PrependKeeps(c: char, r: string)
    requires NoneOf(r, IsTab) && NoDoubleBlank(r) && !IsTab(c)
    requires IsBlank(c) && r != [] ==> !IsBlank(r[0])
    ensures NoneOf([c] + r, IsTab) && NoDoubleBlank([c] + r)
  {
    var t := [c] + r;
    forall i | 0 <= i < |t| - 1
      ensures !(IsBlank(t[i]) && IsBlank(t[i + 1]))
    {
      if i > 0 {
        assert t[i] == r[i - 1] && t[i + 1] == r[i];
      }
    }
  }

  /** The line-end passes bring no two blanks together. */
  lemma {:induction false} LineEndsKeepBlanks(s: string)
    requires NoneOf(s, IsTab) && NoDoubleBlank(s)
    ensures NoDoubleBlank(ReplaceCrLf(s)) && NoDoubleBlank(ReplaceCr(s))
    ensures NoneOf(ReplaceCrLf(s), IsTab) && NoneOf(ReplaceCr(s), IsTab)
    ensures s != [] ==> ReplaceCrLf(s) != [] && ReplaceCr(s) != []
    ensures s != [] ==> (IsBlank(ReplaceCrLf(s)[0]) <==> IsBlank(s[0])) && (IsBlank(ReplaceCr(s)[0]) <==> IsBlank(s[0]))
    decreases |s|
  {
    if s != [] {
      TailKeeps(s);
      LineEndsKeepBlanks(s[1..]);
      PrependKeeps(if s[0] == '\r' then '\n' else s[0], ReplaceCr(s[1..]));
      if |s| >= 2 && s[0] == '\r' && s[1] == '\n' {
        TailKeeps(s[1..]);
        assert s[1..][1..] == s[2..];
        LineEndsKeepBlanks(s[2..]);
        PrependKeeps('\n', ReplaceCrLf(s[2..]));
      } else {
        PrependKeeps(s[0], ReplaceCrLf(s[1..]));
      }
    }
  }

  lemma TailKeeps(s: string)
    requires s != [] && NoneOf(s, IsTab) && NoDoubleBlank(s)
    ensures NoneOf(s[1..], IsTab) && NoDoubleBlank(s[1..]) && !IsTab(s[0])
    ensures |s| > 1 && IsBlank(s[0]) ==> !IsBlank(s[1..][0])
  {
    var t := s[1..];
    forall i | 0 <= i < |t| - 1
      ensures !(IsBlank(t[i]) && IsBlank(t[i + 1]))
    {
      assert t[i] == s[i + 1] && t[i + 1] == s[i + 2];
    }
  }

  lemma StripKeepsBlanks(d: string)
    requires NoDoubleBlank(d)
    ensures NoDoubleBlank(Strip(d))
  {
    var lo, hi := StripCut(d);
    var t := d[lo..hi];
    forall i | 0 <= i < |t| - 1
      ensures !(IsBlank(t[i]) && IsBlank(t[i + 1]))
    {
      assert t[i] == d[lo + i] && t[i + 1] == d[(lo + i) + 1];
    }
  }

  lemma SanitizedIsPromptText(s: string)
    ensures PromptText(SanitizeForPrompt(s))
  {
    var a := Without(s, IsNul);
    WithoutRemoves(s, IsNul);
    var b := CollapseBlanks(a);
    CollapseClean(a);
    var c := ReplaceCrLf(b);
    LineEnds(b, IsNul);
    LineEndsKeepBlanks(b);
    var d := ReplaceCr(c);
    LineEnds(c, IsNul);
    LineEndsKeepBlanks(c);
    StripKeeps(d, IsNul);
    StripKeeps(d, IsTab);
    StripKeeps(d, IsCr);
    StripKeepsBlanks(d);
  }

  /** Sanitisation fixes exactly the texts without null characters, tabs, carriage
      returns, double blanks and outer whitespace. */
  lemma SanitizeFixpoints(s: string)
    ensures SanitizeForPrompt(s) == s <==> PromptText(s)
  {
    SanitizedIsPromptText(s);
    if PromptText(s) {
      WithoutRemoves(s, IsNul);
      CollapseClean(s);
      LineEnds(s, IsNul);
      StripFixed(s);
    }
  }

  lemma SanitizeIdempotent(s: string)
    ensures SanitizeForPrompt(SanitizeForPrompt(s)) == SanitizeForPrompt(s)
  {
    SanitizedIsPromptText(s);
    SanitizeFixpoints(SanitizeForPrompt(s));
  }

  // ----- what the passes leave of a text

  function UniformBreaks(s: string): string {
    ReplaceCr(ReplaceCrLf(s))
  }

  /** Behind text without carriage returns each of the three line breaks becomes one
      newline. */
  lemma {:induction false} BreaksBecomeNewlines(a: string, b: string)
    requires NoneOf(a, IsCr)
    ensures UniformBreaks(a + "\r\n" + b) == a + "\n" + UniformBreaks(b)
    ensures UniformBreaks(a + "\n" + b) == a + "\n" + UniformBreaks(b)
    ensures b == "" || b[0] != '\n' ==> UniformBreaks(a + "\r" + b) == a + "\n" + UniformBreaks(b)
  {
    if a == "" {
      assert a + "\r\n" + b == "\r\n" + b && ("\r\n" + b)[2..] == b && (['\n'] + ReplaceCrLf(b))[1..] == ReplaceCrLf(b);
      assert a + "\n" + b == "\n" + b && ("\n" + b)[1..] == b;
      assert a + "\r" + b == "\r" + b && ("\r" + b)[1..] == b && (['\r'] + ReplaceCrLf(b))[1..] == ReplaceCrLf(b);
    } else {
      assert !IsCr(a[0]) && NoneOf(a[1..], IsCr);
      BreaksBecomeNewlines(a[1..], b);
      BreaksAfter(a, a[1..] + "\r\n" + b);
      BreaksAfter(a, a[1..] + "\n" + b);
      BreaksAfter(a, a[1..] + "\r" + b);
      assert a + "\r\n" + b == [a[0]] + (a[1..] + "\r\n" + b);
      assert a + "\n" + b == [a[0]] + (a[1..] + "\n" + b);
      assert a + "\r" + b == [a[0]] + (a[1..] + "\r" + b);
    }
  }

  lemma BreaksAfter(a: string, rest: string)
    requires a != "" && !IsCr(a[0])
    ensures UniformBreaks([a[0]] + rest) == [a[0]] + UniformBreaks(rest)
  {
    assert ([a[0]] + rest)[1..] == rest;
    assert ([a[0]] + ReplaceCrLf(rest))[1..] == ReplaceCrLf(rest);
  }

  lemma {:induction false} WithoutConcat(a: string, b: string, drop: char -> bool)
    ensures Without(a + b, drop) == Without(a, drop) + Without(b, drop)
  {
    if a == "" {
      assert a + b == b;
    } else {
      assert (a + b)[1..] == a[1..] + b;
      WithoutConcat(a[1..], b, drop);
    }
  }

  lemma {:induction false} RunAlone(run: string, b: string)
    requires run != "" && (forall i | 0 <= i < |run| :: IsBlank(run[i])) && (b == "" || !IsBlank(b[0]))
    ensures CollapseBlanks(run + b) == " " + CollapseBlanks(b)
  {
    assert (run + b)[1..] == run[1..] + b && (run + b)[0] == run[0];
    if |run| > 1 {
      RunAlone(run[1..], b);
      assert (run + b)[1] == run[1];
    } else {
      assert run[1..] + b == b;
    }
  }

  /** Behind text without blanks a run of blanks and tabs becomes one blank. */
  lemma {:induction false} RunBecomesBlank(a: string, run: string, b: string)
    requires NoneOf(a, IsBlank) && run != "" && (forall i | 0 <= i < |run| :: IsBlank(run[i]))
    requires b == "" || !IsBlank(b[0])
    ensures CollapseBlanks(a + run + b) == a + " " + CollapseBlanks(b)
  {
    if a == "" {
      RunAlone(run, b);
      assert a + run + b == run + b && a + " " + CollapseBlanks(b) == " " + CollapseBlanks(b);
    } else {
      assert !IsBlank(a[0]) && NoneOf(a[1..], IsBlank);
      RunBecomesBlank(a[1..], run, b);
      assert (a + run + b)[1..] == a[1..] + run + b;
      assert a + " " + CollapseBlanks(b) == [a[0]] + (a[1..] + " " + CollapseBlanks(b));
    }
  }

  // ----- nothing visible is lost

  predicate Invisible(c: char) { IsSpace(c) || IsControl(c) }

  function Visible(s: string): string { Without(s, Invisible) }

  lemma {:induction false} VisibleSpaces(s: string)
    requires forall i | 0 <= i < |s| :: Invisible(s[i])
    ensures Visible(s) == ""
  {
    if s != "" {
      VisibleSpaces(s[1..]);
    }
  }

  lemma {:induction false} VisibleWithout(s: string, drop: char -> bool)
    requires forall c | drop(c) :: Invisible(c)
    ensures Visible(Without(s, drop)) == Visible(s)
  {
    if s != "" {
      VisibleWithout(s[1..], drop);
      var rest := Without(s[1..], drop);
      assert ([s[0]] + rest)[1..] == rest;
    }
  }

  lemma {:induction false} VisibleBreaks(s: string)
    ensures Visible(ReplaceCrLf(s)) == Visible(s) && Visible(ReplaceCr(s)) == Visible(s)
    decreases |s|
  {
    if s != "" {
      VisibleBreaks(s[1..]);
      VisibleCons(if s[0] == '\r' then '\n' else s[0], ReplaceCr(s[1..]));
      if |s| >= 2 && s[0] == '\r' && s[1] == '\n' {
        VisibleBreaks(s[2..]);
        VisibleCons('\n', ReplaceCrLf(s[2..]));
        assert Visible(s) == Visible(s[1..]) == Visible(s[1..][1..]) && s[1..][1..] == s[2..];
      } else {
        VisibleCons(s[0], ReplaceCrLf(s[1..]));
      }
    }
  }

  lemma VisibleCons(c: char, rest: string)
    ensures Visible([c] + rest) == if Invisible(c) then Visible(rest) else [c] + Visible(rest)
  {
    assert ([c] + rest)[1..] == rest;
  }

  lemma {:induction false} VisibleCollapsed(s: string)
    ensures Visible(CollapseBlanks(s)) == Visible(s)
  {
    if s != "" {
      VisibleCollapsed(s[1..]);
      VisibleCons(' ', CollapseBlanks(s[1..]));
      VisibleCons(s[0], CollapseBlanks(s[1..]));
    }
  }

  lemma {:induction false} StripTakes(s: string) returns (l: string, r: string)
    ensures s == l + Strip(s) + r && AllSpace(l) && AllSpace(r)
  {
    var k := LeftTaken(s);
    var n := RightTaken(s[k..]);
    l, r := s[..k], s[k..][n..];
    assert s == s[..k] + (s[k..][..n] + s[k..][n..]);
  }

  lemma {:induction false} LeftTaken(s: string) returns (k: nat)
    ensures k <= |s| && TrimLeft(s) == s[k..] && AllSpace(s[..k])
  {
    if s != "" && IsSpace(s[0]) {
      var j := LeftTaken(s[1..]);
      k := j + 1;
      assert s[..k] == [s[0]] + s[1..][..j];
    } else {
      k := 0;
    }
  }

  lemma {:induction false} RightTaken(s: string) returns (k: nat)
    ensures k <= |s| && TrimRight(s) == s[..k] && AllSpace(s[k..])
  {
    if s != "" && IsSpace(s[|s| - 1]) {
      var n := |s| - 1;
      k := RightTaken(s[..n]);
      assert s[k..] == s[..n][k..] + [s[n]];
    } else {
      k := |s|;
    }
  }

  lemma VisibleStripped(s: string)
    ensures Visible(Strip(s)) == Visible(s)
  {
    var l, r := StripTakes(s);
    VisibleSpaces(l);
    VisibleSpaces(r);
    WithoutConcat(l + Strip(s), r, Invisible);
    WithoutConcat(l, Strip(s), Invisible);
  }

  /** Normalisation and sanitisation lose, add and reorder no visible character. */
  lemma VisibleKept(s: string)
    ensures Visible(NormalizeText(s).0) == Visible(s)
    ensures Visible(SanitizeForPrompt(s)) == Visible(s)
  {
    var a, b := Without(s, IsControl), Without(s, IsNul);
    VisibleWithout(s, IsControl);
    VisibleBreaks(a);
    VisibleBreaks(ReplaceCrLf(a));
    VisibleStripped(UniformBreaks(a));
    VisibleWithout(s, IsNul);
    VisibleCollapsed(b);
    VisibleBreaks(CollapseBlanks(b));
    VisibleBreaks(ReplaceCrLf(CollapseBlanks(b)));
    VisibleStripped(UniformBreaks(CollapseBlanks(b)));
  }

  lemma CrFreeConcat(a: string, b: string, bad: char -> bool)
    requires NoneOf(a, bad) && NoneOf(b, bad)
    ensures NoneOf(a + b, bad)
  {
  }

  /** Whitespace around a normal text goes, and the text stays. */
  lemma NormalizedMiddle(l: string, a: string, r: string)
    requires AllSpace(l) && AllSpace(r) && NormalText(a)
    requires NoneOf(l, IsControl) && NoneOf(r, IsControl) && NoneOf(l, IsCr) && NoneOf(r, IsCr)
    ensures NormalizeText(l + a + r).0 == a
  {
    CrFreeConcat(l, a, IsControl);
    CrFreeConcat(l + a, r, IsControl);
    CrFreeConcat(l, a, IsCr);
    CrFreeConcat(l + a, r, IsCr);
    WithoutRemoves(l + a + r, IsControl);
    LineEnds(l + a + r, IsControl);
    StripExactly(l, a, r);
  }

  lemma StrippedLines(a: string, b: string)
    requires a != "" && b != "" && Stripped(a) && Stripped(b)
    ensures Strip(a + "\n" + b) == a + "\n" + b
  {
    StripFixed(a + "\n" + b);
  }

  /** Between two normal texts a line break of any of the three kinds becomes a newline. */
  lemma NormalizedLines(a: string, b: string, end: string)
    requires NormalText(a) && NormalText(b) && a != "" && b != "" && end in {"\r\n", "\r", "\n"}
    ensures NormalizeText(a + end + b).0 == a + "\n" + b
  {
    CrFreeConcat(a, end, IsControl);
    CrFreeConcat(a + end, b, IsControl);
    WithoutRemoves(a + end + b, IsControl);
    BreaksBecomeNewlines(a, b);
    LineEnds(b, IsCr);
    StrippedLines(a, b);
  }
}
