/** Prompt rendering and budget truncation: render_prompt, truncate_to_budget and the
    trust-order check of app/prompt_builder.py, and the budget step of
    app/chat_pipeline.py. */
module Prompt {
  import opened Records
  import opened Text

  datatype Trust = Trusted | SemiTrusted | Untrusted

  datatype PromptSection = PromptSection(name: string, trust: Trust, content: string)

  datatype Package = Package(sections: seq<PromptSection>, text: string, tokens: nat,
                             exceeded: bool, truncated: bool, forcedSlice: bool)

  function Rank(t: Trust): int {
    match t case Trusted => 0 case SemiTrusted => 1 case Untrusted => 2
  }

  function EstimateTokens(text: string): nat {
    if |text| / 4 < 1 then 1 else |text| / 4
  }

  // ----- rendering

  function Opening(s: PromptSection): string { "[" + s.name + "]" }

  function Closing(s: PromptSection): string { "[/" + s.name + "]" }

  function Pieces(sections: seq<PromptSection>): seq<string> {
    if sections == [] then []
    else [Opening(sections[0]), sections[0].content, Closing(sections[0]), ""] + Pieces(sections[1..])
  }

  function Render(sections: seq<PromptSection>): string {
    Strip(Join("\n", Pieces(sections)))
  }

  method RenderPrompt(sections: seq<PromptSection>) returns (text: string)
    ensures text == Render(sections)
  {
    var rendered: seq<string> := [];
    for i := 0 to |sections|
      invariant rendered + Pieces(sections[i..]) == Pieces(sections)
    {
      var s := sections[i];
      assert sections[i..][1..] == sections[i + 1..];
      rendered := rendered + [Opening(s), s.content, Closing(s), ""];
    }
    assert rendered == Pieces(sections);
    text := Strip(Join("\n", rendered));
  }

  /** One section between its tags. */
  function Block(s: PromptSection): string {
    Opening(s) + "\n" + s.content + "\n" + Closing(s)
  }

  /** Blocks separated by blank lines. */
  function Layout(sections: seq<PromptSection>): string {
    if sections == [] then []
    else if |sections| == 1 then Block(sections[0])
    else Block(sections[0]) + "\n\n" + Layout(sections[1..])
  }

  function Weight(s: PromptSection): nat {
    2 * |s.name| + |s.content| + 9
  }

  function TotalWeight(sections: seq<PromptSection>): nat {
    if sections == [] then 0 else Weight(sections[0]) + TotalWeight(sections[1..])
  }

  lemma JoinFour(a: string, b: string, c: string, rest: seq<string>)
    ensures Join("\n", [a, b, c, ""] + rest)
         == a + "\n" + b + "\n" + c + "\n" + if rest == [] then "" else "\n" + Join("\n", rest)
  {
    var parts := [a, b, c, ""] + rest;
    var p1 := [b, c, ""] + rest;
    var p2 := [c, ""] + rest;
    var p3 := [""] + rest;
    assert parts[1..] == p1 && p1[1..] == p2 && p2[1..] == p3 && p3[1..] == rest;
    assert Join("\n", p3) == if rest == [] then "" else "\n" + Join("\n", rest);
    assert Join("\n", p2) == c + "\n" + Join("\n", p3);
    assert Join("\n", p1) == b + "\n" + Join("\n", p2);
    assert Join("\n", parts) == a + "\n" + Join("\n", p1);
  }

  lemma {:induction false} JoinedPieces(sections: seq<PromptSection>)
    requires sections != []
    ensures Join("\n", Pieces(sections)) == Layout(sections) + "\n"
  {
    var s, rest := sections[0], sections[1..];
    JoinFour(Opening(s), s.content, Closing(s), Pieces(rest));
    assert Join("\n", Pieces(sections))
           == Block(s) + "\n" + if Pieces(rest) == [] then "" else "\n" + Join("\n", Pieces(rest));
    if rest != [] {
      JoinedPieces(rest);
      assert Pieces(rest) != [];
      assert Block(s) + "\n" + ("\n" + (Layout(rest) + "\n")) == Block(s) + "\n\n" + Layout(rest) + "\n";
    }
  }

  lemma {:induction false} LayoutEnds(sections: seq<PromptSection>)
    requires sections != []
    ensures Layout(sections) != [] && Layout(sections)[0] == '[' && Layout(sections)[|Layout(sections)| - 1] == ']'
    ensures |Layout(sections)| == TotalWeight(sections) - 2
  {
    var b := Block(sections[0]);
    assert b[0] == '[' && b[|b| - 1] == ']';
    if |sections| > 1 {
      LayoutEnds(sections[1..]);
    } else {
      assert TotalWeight(sections[1..]) == 0;
    }
  }

  /** Whatever the sections contain, the final strip removes one newline and nothing
      else: the prompt is the tagged blocks separated by blank lines, and its length is
      the sum of 2|name| + |content| + 9 less 2. */
  lemma RenderingLaw(sections: seq<PromptSection>)
    ensures Render(sections) == Layout(sections)
    ensures |Render(sections)| == if sections == [] then 0 else TotalWeight(sections) - 2
  {
    if sections == [] {
      assert Join("\n", Pieces(sections)) == [];
    } else {
      JoinedPieces(sections);
      LayoutEnds(sections);
      var body := Layout(sections);
      var text := body + "\n";
      assert text[..|text| - 1] == body && text[|text| - 1] == '\n';
      assert TrimLeft(text) == text;
      assert TrimRight(text) == TrimRight(body) == body;
    }
  }

  // ----- stable sorting by trust

  function Key(s: PromptSection, reverse: bool): int {
    if reverse then -Rank(s.trust) else Rank(s.trust)
  }

  /** Before the first element whose key is not smaller. */
  function Insert(x: PromptSection, s: seq<PromptSection>, reverse: bool): seq<PromptSection> {
    if s == [] || Key(x, reverse) <= Key(s[0], reverse) then [x] + s
    else [s[0]] + Insert(x, s[1..], reverse)
  }

  /** Python's stable sort by trust rank, ascending or with reverse=True. */
  function SortByTrust(s: seq<PromptSection>, reverse: bool): seq<PromptSection> {
    if s == [] then [] else Insert(s[0], SortByTrust(s[1..], reverse), reverse)
  }

  /** The sections of one trust level, in order. */
  function OfTrust(s: seq<PromptSection>, t: Trust): seq<PromptSection> {
    if s == [] then []
    else if s[0].trust == t then [s[0]] + OfTrust(s[1..], t)
    else OfTrust(s[1..], t)
  }

  predicate StepInOrder(s: seq<PromptSection>, i: int, reverse: bool)
    requires 0 < i < |s|
  {
    Key(s[i - 1], reverse) <= Key(s[i], reverse)
  }

  predicate Ordered(s: seq<PromptSection>, reverse: bool) {
    forall i | 0 < i < |s| :: StepInOrder(s, i, reverse)
  }

  lemma OrderedTail(s: seq<PromptSection>, reverse: bool)
    requires s != [] && Ordered(s, reverse)
    ensures Ordered(s[1..], reverse)
    ensures |s| > 1 ==> Key(s[0], reverse) <= Key(s[1], reverse)
  {
    forall i | 0 < i < |s[1..]|
      ensures StepInOrder(s[1..], i, reverse)
    {
      assert StepInOrder(s, i + 1, reverse);
    }
    assert |s| > 1 ==> StepInOrder(s, 1, reverse);
  }

  lemma OrderedCons(x: PromptSection, s: seq<PromptSection>, reverse: bool)
    requires Ordered(s, reverse) && (s == [] || Key(x, reverse) <= Key(s[0], reverse))
    ensures Ordered([x] + s, reverse)
  {
    var r := [x] + s;
    forall i | 0 < i < |r|
      ensures StepInOrder(r, i, reverse)
    {
      assert i > 1 ==> StepInOrder(s, i - 1, reverse);
    }
  }

  lemma {:induction false} InsertOrdered(x: PromptSection, s: seq<PromptSection>, reverse: bool)
    requires Ordered(s, reverse)
    ensures var r := Insert(x, s, reverse);
            && Ordered(r, reverse) && |r| == |s| + 1
            && (r[0] == x || (s != [] && r[0] == s[0] && Key(s[0], reverse) <= Key(x, reverse)))
  {
    if s == [] || Key(x, reverse) <= Key(s[0], reverse) {
      OrderedCons(x, s, reverse);
    } else {
      OrderedTail(s, reverse);
      InsertOrdered(x, s[1..], reverse);
      OrderedCons(s[0], Insert(x, s[1..], reverse), reverse);
    }
  }

  lemma {:induction false} InsertKeeps(x: PromptSection, s: seq<PromptSection>, reverse: bool, t: Trust)
    ensures var r := Insert(x, s, reverse);
            && OfTrust(r, t) == (if x.trust == t then [x] else []) + OfTrust(s, t)
            && TotalWeight(r) == Weight(x) + TotalWeight(s)
  {
    var r := Insert(x, s, reverse);
    if s == [] || Key(x, reverse) <= Key(s[0], reverse) {
      assert r[1..] == s;
    } else {
      InsertKeeps(x, s[1..], reverse, t);
      assert r[0] == s[0] && r[1..] == Insert(x, s[1..], reverse);
      assert x.trust != s[0].trust;
    }
  }

  /** Sorting orders by key, keeps each trust level in its original order, and keeps
      the total weight. */
  lemma {:induction false} SortFacts(s: seq<PromptSection>, reverse: bool, t: Trust)
    ensures var r := SortByTrust(s, reverse);
            Ordered(r, reverse) && |r| == |s| && OfTrust(r, t) == OfTrust(s, t) && TotalWeight(r) == TotalWeight(s)
  {
    if s != [] {
      var rest := SortByTrust(s[1..], reverse);
      SortFacts(s[1..], reverse, t);
      InsertOrdered(s[0], rest, reverse);
      InsertKeeps(s[0], rest, reverse, t);
    }
  }

  lemma {:induction false} OfTrustAll(s: seq<PromptSection>, t: Trust)
    requires forall i :: 0 <= i < |s| ==> s[i].trust == t
    ensures OfTrust(s, t) == s
    ensures forall u | u != t :: OfTrust(s, u) == []
  {
    if s != [] {
      OfTrustAll(s[1..], t);
    }
  }

  lemma {:induction false} OfTrustConcat(a: seq<PromptSection>, b: seq<PromptSection>, t: Trust)
    ensures OfTrust(a + b, t) == OfTrust(a, t) + OfTrust(b, t)
  {
    if a == [] {
      assert a + b == b;
    } else {
      assert (a + b)[1..] == a[1..] + b;
      OfTrustConcat(a[1..], b, t);
    }
  }

  function FirstLevel(reverse: bool): Trust { if reverse then Untrusted else Trusted }

  function LastLevel(reverse: bool): Trust { if reverse then Trusted else Untrusted }

  /** The three levels one after the other, highest trust first or last. */
  function Grouped(s: seq<PromptSection>, reverse: bool): seq<PromptSection> {
    OfTrust(s, FirstLevel(reverse)) + OfTrust(s, SemiTrusted) + OfTrust(s, LastLevel(reverse))
  }

  /** Behind an element, no section of an earlier level is left. */
  lemma {:induction false} EarlierLevelEmpty(s: seq<PromptSection>, reverse: bool, t: Trust)
    requires s != [] && Ordered(s, reverse)
    requires if reverse then Rank(t) > Rank(s[0].trust) else Rank(t) < Rank(s[0].trust)
    ensures OfTrust(s, t) == []
  {
    if |s| > 1 {
      OrderedTail(s, reverse);
      EarlierLevelEmpty(s[1..], reverse, t);
    }
  }

  lemma OfTrustCons(x: PromptSection, r: seq<PromptSection>, t: Trust)
    ensures OfTrust([x] + r, t) == if x.trust == t then [x] + OfTrust(r, t) else OfTrust(r, t)
  {
    assert ([x] + r)[1..] == r;
  }

  lemma PrependThree<T>(x: T, a: seq<T>, b: seq<T>, c: seq<T>)
    ensures ([x] + a) + b + c == [x] + (a + b + c)
    ensures a == [] ==> a + ([x] + b) + c == [x] + (a + b + c)
    ensures a == [] && b == [] ==> a + b + ([x] + c) == [x] + (a + b + c)
  {
  }

  lemma GroupedCons(x: PromptSection, r: seq<PromptSection>, reverse: bool)
    requires x.trust != FirstLevel(reverse) ==> OfTrust(r, FirstLevel(reverse)) == []
    requires x.trust == LastLevel(reverse) ==> OfTrust(r, SemiTrusted) == []
    ensures Grouped([x] + r, reverse) == [x] + Grouped(r, reverse)
  {
    var first, last := FirstLevel(reverse), LastLevel(reverse);
    OfTrustCons(x, r, first);
    OfTrustCons(x, r, SemiTrusted);
    OfTrustCons(x, r, last);
    PrependThree(x, OfTrust(r, first), OfTrust(r, SemiTrusted), OfTrust(r, last));
  }

  /** An ordered sequence is its three levels one after the other. */
  lemma {:induction false} OrderedIsGrouped(s: seq<PromptSection>, reverse: bool)
    requires Ordered(s, reverse)
    ensures s == Grouped(s, reverse)
  {
    if s != [] {
      var x, rest := s[0], s[1..];
      OrderedTail(s, reverse);
      OrderedIsGrouped(rest, reverse);
      if rest != [] && x.trust != FirstLevel(reverse) {
        EarlierLevelEmpty(rest, reverse, FirstLevel(reverse));
      }
      if rest != [] && x.trust == LastLevel(reverse) {
        EarlierLevelEmpty(rest, reverse, SemiTrusted);
      }
      GroupedCons(x, rest, reverse);
      assert s == [x] + rest;
    }
  }

  /** Both sorts are the grouping of their input: this is what stability means here. */
  lemma SortIsGrouped(s: seq<PromptSection>, reverse: bool)
    ensures SortByTrust(s, reverse) == Grouped(s, reverse)
  {
    SortFacts(s, reverse, Trusted);
    SortFacts(s, reverse, SemiTrusted);
    SortFacts(s, reverse, Untrusted);
    OrderedIsGrouped(SortByTrust(s, reverse), reverse);
  }

  // ----- truncation

  /** The order in which sections are given up: lowest trust first. */
  function DropOrder(sections: seq<PromptSection>): seq<PromptSection> {
    SortByTrust(sections, true)
  }

  /** What is kept, in rendering order, after the first j sections of the drop order
      are gone. */
  function Keep(sections: seq<PromptSection>, j: nat): seq<PromptSection>
    requires j <= |DropOrder(sections)|
  {
    SortByTrust(DropOrder(sections)[j..], false)
  }

  predicate Fits(sections: seq<PromptSection>, maxChars: int) {
    |Render(sections)| <= maxChars
  }

  /** How many sections are dropped before the rest fits; all of them if nothing does. */
  function Dropped(sections: seq<PromptSection>, maxChars: int, from: nat): (j: nat)
    requires from <= |DropOrder(sections)|
    ensures from <= j <= |DropOrder(sections)|
    ensures j < |DropOrder(sections)| ==> Fits(Keep(sections, j), maxChars)
    ensures forall k :: from <= k < j ==> !Fits(Keep(sections, k), maxChars)
    decreases |DropOrder(sections)| - from
  {
    if from == |DropOrder(sections)| || Fits(Keep(sections, from), maxChars) then from
    else Dropped(sections, maxChars, from + 1)
  }

  function Truncate(p: Package, maxChars: int): Package {
    var j := Dropped(p.sections, maxChars, 0);
    if j < |DropOrder(p.sections)| then
      var kept := Keep(p.sections, j);
      Package(kept, Render(kept), EstimateTokens(Render(kept)), false, true, p.forcedSlice)
    else
      var text := Prefix(p.text, maxChars);
      Package([], text, EstimateTokens(text), false, true, true)
  }

  /** The drop-until-fits loop. */
  method TruncateToBudget(p: Package, maxChars: int) returns (r: Package)
    ensures r == Truncate(p, maxChars)
  {
    var sections := SortByTrust(p.sections, true);
    var kept := sections;
    ghost var j := 0;
    while kept != []
      invariant j <= |sections| && kept == sections[j..]
      invariant Dropped(p.sections, maxChars, 0) == Dropped(p.sections, maxChars, j)
    {
      var ascending := SortByTrust(kept, false);
      var rendered := RenderPrompt(ascending);
      if |rendered| <= maxChars {
        return Package(ascending, rendered, EstimateTokens(rendered), false, true, p.forcedSlice);
      }
      kept := kept[1..];
      j := j + 1;
    }
    var rendered := Prefix(p.text, maxChars);
    r := Package([], rendered, EstimateTokens(rendered), false, true, true);
  }

  lemma {:induction false} WeightSplit(s: seq<PromptSection>, j: nat)
    requires j <= |s|
    ensures TotalWeight(s) == TotalWeight(s[..j]) + TotalWeight(s[j..])
    ensures j > 0 ==> TotalWeight(s[j..]) < TotalWeight(s)
  {
    if j > 0 {
      WeightSplit(s[1..], j - 1);
      assert s[..j][1..] == s[1..][..j - 1] && s[1..][j - 1..] == s[j..];
    }
  }

  lemma KeepWeight(sections: seq<PromptSection>, j: nat)
    requires j <= |DropOrder(sections)|
    ensures TotalWeight(Keep(sections, j)) == TotalWeight(DropOrder(sections)[j..])
    ensures |Keep(sections, j)| == |DropOrder(sections)| - j
  {
    SortFacts(DropOrder(sections)[j..], false, Trusted);
  }

  /** Dropping one more section strictly shortens the prompt, whatever it contains. */
  lemma DroppingShortens(sections: seq<PromptSection>, j: nat, k: nat)
    requires j < k <= |DropOrder(sections)|
    ensures |Render(Keep(sections, k))| < |Render(Keep(sections, j))|
  {
    KeepWeight(sections, j);
    KeepWeight(sections, k);
    var tail := DropOrder(sections)[j..];
    WeightSplit(tail, k - j);
    assert tail[k - j..] == DropOrder(sections)[k..];
    RenderingLaw(Keep(sections, j));
    RenderingLaw(Keep(sections, k));
    if Keep(sections, k) == [] {
      LayoutEnds(Keep(sections, j));
    }
  }

  /** A choice as the loop makes it: of each level a final stretch, and nothing of a level
      unless all of every higher level. */
  ghost predicate FinalStretches(all: seq<PromptSection>, kept: seq<PromptSection>) {
    exists t: nat, m: nat, u: nat :: StretchesFrom(all, kept, t, m, u)
  }

  predicate StretchesFrom(all: seq<PromptSection>, kept: seq<PromptSection>, t: nat, m: nat, u: nat) {
    var ts, ms, us := OfTrust(all, Trusted), OfTrust(all, SemiTrusted), OfTrust(all, Untrusted);
    && t <= |ts| && m <= |ms| && u <= |us|
    && kept == ts[t..] + ms[m..] + us[u..]
    && (u < |us| ==> m == 0 && t == 0)
    && (m < |ms| ==> t == 0)
  }

  lemma OfTrustUniform(s: seq<PromptSection>, t: Trust, cut: nat)
    requires cut <= |OfTrust(s, t)|
    ensures OfTrust(OfTrust(s, t)[cut..], t) == OfTrust(s, t)[cut..]
    ensures forall u | u != t :: OfTrust(OfTrust(s, t)[cut..], u) == []
  {
    AllOfTrust(s, t);
    OfTrustAll(OfTrust(s, t)[cut..], t);
  }

  lemma {:induction false} AllOfTrust(s: seq<PromptSection>, t: Trust)
    ensures forall i :: 0 <= i < |OfTrust(s, t)| ==> OfTrust(s, t)[i].trust == t
  {
    if s != [] {
      AllOfTrust(s[1..], t);
    }
  }

  lemma OfTrustThree(a: seq<PromptSection>, b: seq<PromptSection>, c: seq<PromptSection>, t: Trust)
    ensures OfTrust(a + b + c, t) == OfTrust(a, t) + OfTrust(b, t) + OfTrust(c, t)
  {
    OfTrustConcat(a + b, c, t);
    OfTrustConcat(a, b, t);
  }

  /** Sorting cut levels back into rendering order puts them side by side. */
  lemma RegroupLevels(s: seq<PromptSection>, t: nat, m: nat, u: nat)
    requires t <= |OfTrust(s, Trusted)| && m <= |OfTrust(s, SemiTrusted)| && u <= |OfTrust(s, Untrusted)|
    ensures SortByTrust(OfTrust(s, Untrusted)[u..] + OfTrust(s, SemiTrusted)[m..] + OfTrust(s, Trusted)[t..], false)
         == OfTrust(s, Trusted)[t..] + OfTrust(s, SemiTrusted)[m..] + OfTrust(s, Untrusted)[u..]
  {
    var ts, ms, us := OfTrust(s, Trusted)[t..], OfTrust(s, SemiTrusted)[m..], OfTrust(s, Untrusted)[u..];
    var all := us + ms + ts;
    assert OfTrust(all, Trusted) == ts && OfTrust(all, SemiTrusted) == ms && OfTrust(all, Untrusted) == us by {
      OfTrustUniform(s, Trusted, t);
      OfTrustUniform(s, SemiTrusted, m);
      OfTrustUniform(s, Untrusted, u);
      OfTrustThree(us, ms, ts, Trusted);
      OfTrustThree(us, ms, ts, SemiTrusted);
      OfTrustThree(us, ms, ts, Untrusted);
    }
    SortIsGrouped(all, false);
  }

  /** Cutting a concatenation of three whose earlier parts are cut off first. */
  lemma CutThree<T>(a: seq<T>, b: seq<T>, c: seq<T>, i: nat, j: nat, k: nat)
    requires i <= |a| && j <= |b| && k <= |c|
    requires (i < |a| ==> j == 0 && k == 0) && (j < |b| ==> k == 0)
    ensures (a + b + c)[i + j + k..] == a[i..] + b[j..] + c[k..]
  {
  }

  function Min(a: nat, b: nat): nat { if a <= b then a else b }

  /** Dropping a prefix of the drop order always leaves such a choice. */
  lemma KeepIsFinalStretches(sections: seq<PromptSection>, j: nat)
    requires j <= |DropOrder(sections)|
    ensures FinalStretches(sections, Keep(sections, j))
  {
    SortIsGrouped(sections, true);
    var ts, ms, us := OfTrust(sections, Trusted), OfTrust(sections, SemiTrusted), OfTrust(sections, Untrusted);
    var u := Min(j, |us|);
    var m := Min(j - u, |ms|);
    var t := j - u - m;
    CutThree(us, ms, ts, u, m, t);
    RegroupLevels(sections, t, m, u);
    assert StretchesFrom(sections, Keep(sections, j), t, m, u);
  }

  /** And every such choice is left by dropping some prefix. */
  lemma FinalStretchesAreKept(sections: seq<PromptSection>, kept: seq<PromptSection>) returns (j: nat)
    requires FinalStretches(sections, kept)
    ensures j <= |DropOrder(sections)| && kept == Keep(sections, j)
  {
    SortIsGrouped(sections, true);
    var t: nat, m: nat, u: nat :| StretchesFrom(sections, kept, t, m, u);
    var ts, ms, us := OfTrust(sections, Trusted), OfTrust(sections, SemiTrusted), OfTrust(sections, Untrusted);
    j := u + m + t;
    CutThree(us, ms, ts, u, m, t);
    RegroupLevels(sections, t, m, u);
  }

  lemma DroppedIsLeast(sections: seq<PromptSection>, maxChars: int, k: nat)
    requires k <= |DropOrder(sections)| && Fits(Keep(sections, k), maxChars)
    ensures Dropped(sections, maxChars, 0) <= k
  {
  }

  /** Such a choice that fits has no more sections and no longer prompt than the first
      fit of the drop loop. */
  lemma FirstFitIsBest(sections: seq<PromptSection>, maxChars: int, other: seq<PromptSection>)
    requires FinalStretches(sections, other) && Fits(other, maxChars)
    ensures var best := Keep(sections, Dropped(sections, maxChars, 0));
            |other| <= |best| && |Render(other)| <= |Render(best)|
  {
    var j := Dropped(sections, maxChars, 0);
    var k := FinalStretchesAreKept(sections, other);
    DroppedIsLeast(sections, maxChars, k);
    LaterKeepIsSmaller(sections, j, k);
  }

  lemma LaterKeepIsSmaller(sections: seq<PromptSection>, j: nat, k: nat)
    requires j <= k <= |DropOrder(sections)|
    ensures |Keep(sections, k)| <= |Keep(sections, j)| && |Render(Keep(sections, k))| <= |Render(Keep(sections, j))|
  {
    KeepWeight(sections, j);
    KeepWeight(sections, k);
    if k > j {
      DroppingShortens(sections, j, k);
    }
  }

  /** Truncation without a forced slice keeps such a choice, renders it in trust order,
      fits the budget, and is the best one: any other that fits has no more sections and
      no longer prompt. */
  lemma TruncationIsOptimal(p: Package, maxChars: int)
    requires Truncate(p, maxChars).sections != []
    ensures var r := Truncate(p, maxChars);
            && r.text == Render(r.sections) && |r.text| <= maxChars
            && FinalStretches(p.sections, r.sections) && Ordered(r.sections, false)
            && forall other | FinalStretches(p.sections, other) && Fits(other, maxChars) ::
                 |other| <= |r.sections| && |Render(other)| <= |r.text|
  {
    var r := Truncate(p, maxChars);
    var j := Dropped(p.sections, maxChars, 0);
    assert r.sections == Keep(p.sections, j) && r.text == Render(r.sections);
    KeepIsFinalStretches(p.sections, j);
    SortFacts(DropOrder(p.sections)[j..], false, Trusted);
    forall other | FinalStretches(p.sections, other) && Fits(other, maxChars)
      ensures |other| <= |r.sections| && |Render(other)| <= |r.text|
    {
      FirstFitIsBest(p.sections, maxChars, other);
    }
  }

  /** Putting back the section dropped last would exceed the budget. */
  lemma LastDropWasNeeded(p: Package, maxChars: int)
    ensures var j := Dropped(p.sections, maxChars, 0);
            j > 0 ==> !Fits(Keep(p.sections, j - 1), maxChars)
  {
  }

  /** The slice of the original text is forced exactly when there is no section, or not
      even the one that would be dropped last fits alone. */
  lemma ForcedSliceExactly(p: Package, maxChars: int)
    requires !p.forcedSlice
    ensures Truncate(p, maxChars).forcedSlice <==>
              p.sections == [] || !Fits([DropOrder(p.sections)[|DropOrder(p.sections)| - 1]], maxChars)
  {
    var order := DropOrder(p.sections);
    SortFacts(p.sections, true, Trusted);
    var j := Dropped(p.sections, maxChars, 0);
    if order != [] {
      var last := |order| - 1;
      assert order[last..] == [order[last]] && [order[last]][1..] == [];
      assert SortByTrust([], false) == [];
      assert Keep(p.sections, last) == [order[last]];
      if j < last {
        DroppingShortens(p.sections, j, last);
      }
    }
  }

  /** The text that is left when no section is kept: the beginning of the original one, of the
      length of the budget; a negative budget cuts off as many characters at its end. */
  lemma SlicedText(p: Package, maxChars: int)
    requires Truncate(p, maxChars).sections == []
    ensures var text := Truncate(p, maxChars).text;
            && (|p.text| <= maxChars ==> text == p.text)
            && (0 <= maxChars < |p.text| ==> text == p.text[..maxChars])
            && (-|p.text| <= maxChars < 0 ==> text == p.text[..|p.text| + maxChars])
            && (maxChars < -|p.text| ==> text == "")
  {
    var j := Dropped(p.sections, maxChars, 0);
    if j < |DropOrder(p.sections)| {
      KeepWeight(p.sections, j);
    }
  }

  /** The truncated text is within the budget if and only if the budget is not negative. */
  lemma TruncationWithinBudget(p: Package, maxChars: int)
    ensures |Truncate(p, maxChars).text| <= maxChars <==> maxChars >= 0
  {
  }

  // ----- the trust-order check

  /** The names of the sections that come right after one of lower trust. */
  function Misplaced(sections: seq<PromptSection>): seq<string> {
    if |sections| <= 1 then []
    else
      var n := |sections| - 1;
      Misplaced(sections[..n]) + if StepInOrder(sections, n, false) then [] else [sections[n].name]
  }

  /** Section k comes right after one of lower trust. */
  predicate MisplacedAt(sections: seq<PromptSection>, k: int) {
    0 < k < |sections| && !StepInOrder(sections, k, false)
  }

  lemma MisplacedBefore(sections: seq<PromptSection>, n: nat)
    requires n <= |sections|
    ensures forall k | 0 <= k < n :: MisplacedAt(sections[..n], k) <==> MisplacedAt(sections, k)
  {
  }

  lemma {:induction false} MisplacedNames(sections: seq<PromptSection>, name: string)
    ensures name in Misplaced(sections) <==>
              exists k | 0 <= k < |sections| :: MisplacedAt(sections, k) && sections[k].name == name
  {
    if |sections| > 1 {
      var n := |sections| - 1;
      var init := sections[..n];
      MisplacedNames(init, name);
      MisplacedBefore(sections, n);
      assert forall k | 0 <= k < n :: init[k] == sections[k];
      assert MisplacedAt(sections, n) <==> !StepInOrder(sections, n, false);
    }
  }

  lemma {:induction false} NoneMisplaced(sections: seq<PromptSection>)
    ensures Misplaced(sections) == [] <==> forall k | 0 <= k < |sections| :: !MisplacedAt(sections, k)
  {
    if |sections| > 1 {
      var n := |sections| - 1;
      NoneMisplaced(sections[..n]);
      MisplacedBefore(sections, n);
      assert StepInOrder(sections, n, false) <==> !MisplacedAt(sections, n);
    }
  }

  lemma OrderedIsUnmisplaced(sections: seq<PromptSection>)
    ensures Ordered(sections, false) <==> forall k | 0 <= k < |sections| :: !MisplacedAt(sections, k)
  {
    if Ordered(sections, false) {
      forall k | 0 < k < |sections|
        ensures !MisplacedAt(sections, k)
      {
        assert StepInOrder(sections, k, false);
      }
    } else {
      var k :| 0 < k < |sections| && !StepInOrder(sections, k, false);
      assert MisplacedAt(sections, k);
    }
  }

  /** The loop that remembers the previous rank reports exactly these, and so nothing exactly
      when the sections are in trust order. */
  method OrderingViolations(sections: seq<PromptSection>) returns (violations: seq<string>)
    ensures violations == Misplaced(sections)
    ensures violations == [] <==> Ordered(sections, false)
  {
    violations := [];
    var lastRank: int := -1;
    for i := 0 to |sections|
      invariant lastRank == if i == 0 then -1 else Rank(sections[i - 1].trust)
      invariant violations == Misplaced(sections[..i])
    {
      assert sections[..i + 1][..i] == sections[..i];
      var rank: int := Rank(sections[i].trust);
      if rank < lastRank {
        violations := violations + [sections[i].name];
      }
      lastRank := rank;
    }
    assert sections[..|sections|] == sections;
    NoneMisplaced(sections);
    OrderedIsUnmisplaced(sections);
  }

  function Optional(name: string, trust: Trust, content: string, wanted: bool): seq<PromptSection> {
    if content != [] && wanted then [PromptSection(name, trust, content)] else []
  }

  /** The section list that build assembles from its blocks. */
  function BuildSections(policy: string, task: string, retrieved: string, assistant: string, user: string,
                         attachments: string, restricted: bool): seq<PromptSection> {
    [PromptSection("TRUSTED_SYSTEM_POLICY", Trusted, policy), PromptSection("DEVELOPER_TASK", Trusted, task)]
    + Optional("SEMI_TRUSTED_RETRIEVED_CONTEXT", SemiTrusted, retrieved, true)
    + Optional("SEMI_TRUSTED_ASSISTANT_HISTORY", SemiTrusted, assistant, !restricted)
    + Optional("UNTRUSTED_USER_INPUT", Untrusted, user, true)
    + Optional("UNTRUSTED_ATTACHMENTS_METADATA", Untrusted, attachments, true)
  }

  /** Which sections build makes: policy and task always, the others exactly when their block
      is not empty, and the assistant's history never in restricted mode. */
  lemma BuiltExactly(policy: string, task: string, retrieved: string, assistant: string, user: string,
                     attachments: string, restricted: bool, s: PromptSection)
    ensures s in BuildSections(policy, task, retrieved, assistant, user, attachments, restricted) <==>
              || s == PromptSection("TRUSTED_SYSTEM_POLICY", Trusted, policy)
              || s == PromptSection("DEVELOPER_TASK", Trusted, task)
              || (s == PromptSection("SEMI_TRUSTED_RETRIEVED_CONTEXT", SemiTrusted, retrieved) && retrieved != "")
              || (s == PromptSection("SEMI_TRUSTED_ASSISTANT_HISTORY", SemiTrusted, assistant) && assistant != ""
                  && !restricted)
              || (s == PromptSection("UNTRUSTED_USER_INPUT", Untrusted, user) && user != "")
              || (s == PromptSection("UNTRUSTED_ATTACHMENTS_METADATA", Untrusted, attachments) && attachments != "")
  {
  }

  lemma TruncatedIsOrdered(p: Package, maxChars: int)
    ensures Ordered(Truncate(p, maxChars).sections, false)
  {
    var j := Dropped(p.sections, maxChars, 0);
    SortFacts(DropOrder(p.sections)[j..], false, Trusted);
  }

  /** Whatever the blocks, build's sections pass the order check, and so does what
      truncation keeps of any package. */
  lemma BuiltAndTruncatedAreOrdered(policy: string, task: string, retrieved: string, assistant: string, user: string,
                                    attachments: string, restricted: bool, p: Package, maxChars: int)
    ensures Ordered(BuildSections(policy, task, retrieved, assistant, user, attachments, restricted), false)
    ensures Ordered(Truncate(p, maxChars).sections, false)
  {
    TruncatedIsOrdered(p, maxChars);
  }

  // ----- enforcing the budget

  datatype BudgetSettings = BudgetSettings(maxChars: int, enforce: bool, truncateMode: bool)

  /** What goes on to the upstream step, or None when the request is refused. */
  function EnforceBudget(settings: BudgetSettings, decisionEnforces: bool, p: Package): Option<Package> {
    if p.exceeded && (settings.enforce || decisionEnforces) then
      if settings.truncateMode then Some(Truncate(p, settings.maxChars)) else None
    else Some(p)
  }

  function BuildPackage(settings: BudgetSettings, sections: seq<PromptSection>): Package {
    var text := Render(sections);
    Package(sections, text, EstimateTokens(text), |text| > settings.maxChars, false, false)
  }

  /** Which of the three ways a built prompt goes: refused if and only if it is too long, the
      budget is enforced and the mode is not to truncate; truncated if and only if it is to
      truncate; otherwise sent on as it is. What goes upstream under enforcement is within
      the budget if and only if the budget is not negative. */
  lemma EnforcedBudgetHolds(settings: BudgetSettings, decisionEnforces: bool, sections: seq<PromptSection>)
    ensures var built, out := BuildPackage(settings, sections),
                              EnforceBudget(settings, decisionEnforces, BuildPackage(settings, sections));
            var over := |Render(sections)| > settings.maxChars;
            var enforced := settings.enforce || decisionEnforces;
            && (out.None? <==> over && enforced && !settings.truncateMode)
            && (out == Some(Truncate(built, settings.maxChars)) <==> over && enforced && settings.truncateMode)
            && (out == Some(built) <==> !over || !enforced)
            && (enforced && out.Some? ==> (|out.value.text| <= settings.maxChars <==> settings.maxChars >= 0))
  {
    TruncationWithinBudget(BuildPackage(settings, sections), settings.maxChars);
    assert Truncate(BuildPackage(settings, sections), settings.maxChars).truncated;
  }

  /** The token estimate of whatever goes upstream is a quarter of its length, at least 1,
      and its flags say whether it was too long, was truncated, and was sliced. */
  lemma EstimateAndFlags(p: Package, maxChars: int, settings: BudgetSettings, sections: seq<PromptSection>)
    ensures var r := Truncate(p, maxChars);
            && r.tokens == EstimateTokens(r.text) && r.truncated && !r.exceeded
            && (r.forcedSlice <==> p.forcedSlice || r.sections == [])
    ensures var b := BuildPackage(settings, sections);
            b.tokens == EstimateTokens(b.text) && b.text == Render(sections)
            && (b.exceeded <==> |b.text| > settings.maxChars)
    ensures var t := EstimateTokens(p.text);
            4 * t <= |p.text| < 4 * t + 4 || (t == 1 && |p.text| < 4)
  {
    var j := Dropped(p.sections, maxChars, 0);
    if j < |DropOrder(p.sections)| {
      KeepWeight(p.sections, j);
    }
  }
}
