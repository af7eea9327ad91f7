/** Whether a rendered prompt determines its sections: render_prompt of
    app/prompt_builder.py puts contents between tags without escaping either. */
module Rendering {
  import opened Text
  import opened Prompt

  /** Names and contents, which is all that is rendered: the trust of a section is not. */
  function Labels(s: seq<PromptSection>): (r: seq<(string, string)>)
    ensures |r| == |s|
  {
    if s == [] then [] else [(s[0].name, s[0].content)] + Labels(s[1..])
  }

  /** A newline and the closing tag: what ends a section's content. */
  function Ending(name: string): string {
    "\n[/" + name + "]"
  }

  predicate PlainName(name: string) {
    forall i | 0 <= i < |name| :: name[i] != ']' && name[i] != '\n'
  }

  /** The content does not hold the end of its own section. */
  predicate Closed(s: PromptSection) {
    PlainName(s.name) && !Contains(s.content, Ending(s.name))
  }

  /** What follows the first block. */
  function After(rest: seq<PromptSection>): string {
    if rest == [] then "" else "\n\n" + Layout(rest)
  }

  lemma Assoc(a: string, b: string, c: string)
    ensures (a + b) + c == a + (b + c)
  {
  }

  lemma Reassociate(o: string, n: string, c: string, line: string, body: string, end: string, tail: string)
    ensures ((o + n + c) + line + body + line + end) + tail == o + (n + c + (line + (body + (line + end) + tail)))
  {
    Assoc(o, n, c);
    Assoc(o, n + c, line);
    Assoc(o, n + c + line, body);
    Assoc(o, n + c + line + body, line);
    Assoc(o, n + c + line + body + line, end);
    Assoc(o, n + c + line + body + line + end, tail);
    Assoc(n + c, line, body);
    Assoc(n + c, line + body, line);
    Assoc(n + c, line + body + line, end);
    Assoc(n + c, line + body + line + end, tail);
    Assoc(line, body, line);
    Assoc(line, body + line, end);
    Assoc(line, body + line + end, tail);
    Assoc(body, line, end);
  }

  lemma BlockSpread(x: PromptSection, tail: string)
    ensures Block(x) + tail == "[" + (x.name + "]" + ("\n" + (x.content + ("\n" + Closing(x)) + tail)))
  {
    Reassociate("[", x.name, "]", "\n", x.content, Closing(x), tail);
  }

  lemma LayoutIsBlock(s: seq<PromptSection>)
    requires s != []
    ensures Layout(s) == Block(s[0]) + After(s[1..])
  {
    if |s| > 1 {
      Assoc(Block(s[0]), "\n\n", Layout(s[1..]));
    }
  }

  lemma EndingIs(x: PromptSection)
    ensures Ending(x.name) == "\n" + Closing(x)
  {
  }

  lemma LayoutFirst(s: seq<PromptSection>)
    requires s != []
    ensures Layout(s) == "[" + (s[0].name + "]" + ("\n" + (s[0].content + Ending(s[0].name) + After(s[1..]))))
  {
    LayoutIsBlock(s);
    BlockSpread(s[0], After(s[1..]));
    EndingIs(s[0]);
  }

  lemma BracketNotLater(a: string, x: string, b: string, y: string)
    requires PlainName(b) && a + "]" + x == b + "]" + y
    ensures |b| <= |a|
  {
    assert (a + "]" + x)[|a|] == ']';
  }

  /** A text is cut at its first closing bracket in one way. */
  lemma FirstBracket(a: string, x: string, b: string, y: string)
    requires PlainName(a) && PlainName(b) && a + "]" + x == b + "]" + y
    ensures a == b && x == y
  {
    BracketNotLater(a, x, b, y);
    BracketNotLater(b, y, a, x);
    var s := a + "]" + x;
    assert s[..|a|] == a && (b + "]" + y)[..|b|] == b && s[|a| + 1..] == x && (b + "]" + y)[|b| + 1..] == y;
  }

  /** An ending that starts inside a text and leaves it would hold a second newline. */
  lemma EndingInside(a: string, x: string, b: string, y: string, name: string)
    requires PlainName(name) && a + Ending(name) + x == b + Ending(name) + y
    ensures |b| <= |a| || |a| + |Ending(name)| <= |b|
  {
    var d := Ending(name);
    assert forall k | 0 < k < |d| :: d[k] != '\n';
    assert (b + d + y)[|b|] == '\n';
    assert forall k | 0 <= k < |d| :: (a + d + x)[|a| + k] == d[k];
  }

  /** Two contents that do not hold the ending cannot end at different places. */
  lemma NotShorter(a: string, x: string, b: string, y: string, name: string)
    requires PlainName(name) && !Contains(b, Ending(name)) && a + Ending(name) + x == b + Ending(name) + y
    ensures |b| <= |a|
  {
    var d := Ending(name);
    EndingInside(a, x, b, y, name);
    assert (a + d + x)[|a|..|a| + |d|] == d;
    assert |a| + |d| <= |b| ==> (b + d + y)[|a|..|a| + |d|] == b[|a|..|a| + |d|];
    assert !OccursAt(b, d, |a|);
  }

  lemma SameContent(a: string, x: string, b: string, y: string, name: string)
    requires PlainName(name) && !Contains(a, Ending(name)) && !Contains(b, Ending(name))
    requires a + Ending(name) + x == b + Ending(name) + y
    ensures a == b && x == y
  {
    NotShorter(a, x, b, y, name);
    NotShorter(b, y, a, x, name);
    var s := a + Ending(name) + x;
    assert s[..|a|] == a && (b + Ending(name) + y)[..|b|] == b;
    assert s[|a| + |Ending(name)|..] == x && (b + Ending(name) + y)[|b| + |Ending(name)|..] == y;
  }

  predicate AllClosed(s: seq<PromptSection>) {
    forall i | 0 <= i < |s| :: Closed(s[i])
  }

  lemma FirstAgrees(a: seq<PromptSection>, b: seq<PromptSection>)
    requires a != [] && b != [] && Closed(a[0]) && Closed(b[0]) && Layout(a) == Layout(b)
    ensures a[0].name == b[0].name && a[0].content == b[0].content && After(a[1..]) == After(b[1..])
  {
    LayoutFirst(a);
    LayoutFirst(b);
    var p, q := a[0], b[0];
    var x, y := p.content + Ending(p.name) + After(a[1..]), q.content + Ending(q.name) + After(b[1..]);
    assert Layout(a)[1..] == p.name + "]" + ("\n" + x) && Layout(b)[1..] == q.name + "]" + ("\n" + y);
    FirstBracket(p.name, "\n" + x, q.name, "\n" + y);
    assert ("\n" + x)[1..] == x && ("\n" + y)[1..] == y;
    SameContent(p.content, After(a[1..]), q.content, After(b[1..]), p.name);
  }

  lemma {:induction false} LayoutInjective(a: seq<PromptSection>, b: seq<PromptSection>)
    requires AllClosed(a) && AllClosed(b) && Layout(a) == Layout(b)
    ensures Labels(a) == Labels(b)
  {
    if a != [] && b != [] {
      FirstAgrees(a, b);
      var p, q := a[1..], b[1..];
      if p != [] && q != [] {
        assert After(p)[2..] == Layout(p) && After(q)[2..] == Layout(q);
      }
      LayoutInjective(p, q);
    } else if a != [] {
      LayoutEnds(a);
    } else if b != [] {
      LayoutEnds(b);
    }
  }

  /** A prompt determines the names and contents of its sections, in order, as long as no
      name holds a bracket or newline and no content the end of its own section. */
  lemma RenderInjective(a: seq<PromptSection>, b: seq<PromptSection>)
    requires AllClosed(a) && AllClosed(b) && Render(a) == Render(b)
    ensures Labels(a) == Labels(b)
  {
    RenderingLaw(a);
    RenderingLaw(b);
    LayoutInjective(a, b);
  }

  /** A content that ends its section, opens another and its own again. */
  function Forged(user: string, name: string, other: string, fake: string, rest: string): string {
    user + Ending(name) + "\n\n[" + other + "]\n" + fake + Ending(other) + "\n\n[" + name + "]\n" + rest
  }

  lemma ForgedBlock(user: string, name: string, other: string, fake: string, rest: string)
    ensures Block(PromptSection(name, Untrusted, Forged(user, name, other, fake, rest)))
         == Block(PromptSection(name, Untrusted, user)) + ("\n\n" + (Block(PromptSection(other, Trusted, fake))
            + ("\n\n" + Block(PromptSection(name, Untrusted, rest)))))
  {
    var front, back := "[" + name + "]\n", Ending(name);
    var whole := front + Forged(user, name, other, fake, rest) + back;
    var middle := "[" + other + "]\n" + fake + Ending(other);
    var end := "\n\n" + (front + rest + back);
    assert Forged(user, name, other, fake, rest) == user + back + ("\n\n" + (middle + ("\n\n" + (front + rest))));
    assert whole == (front + user + back) + ("\n\n" + (middle + end));
    BlockIs(PromptSection(name, Untrusted, Forged(user, name, other, fake, rest)));
    BlockIs(PromptSection(name, Untrusted, user));
    BlockIs(PromptSection(other, Trusted, fake));
    BlockIs(PromptSection(name, Untrusted, rest));
  }

  lemma BlockIs(s: PromptSection)
    ensures Block(s) == "[" + s.name + "]\n" + s.content + Ending(s.name)
  {
    assert Opening(s) + "\n" == "[" + s.name + "]\n";
    assert "\n" + Closing(s) == Ending(s.name);
    Assoc("[" + s.name + "]\n" + s.content, "\n", Closing(s));
  }

  /** Without that it does not: one section of untrusted content can render as three, the
      middle one of any name and content. */
  lemma ForgedSection(user: string, name: string, other: string, fake: string, rest: string)
    ensures Render([PromptSection(name, Untrusted, Forged(user, name, other, fake, rest))])
         == Render([PromptSection(name, Untrusted, user), PromptSection(other, Trusted, fake),
                    PromptSection(name, Untrusted, rest)])
  {
    var one := PromptSection(name, Untrusted, Forged(user, name, other, fake, rest));
    var x, y, z := PromptSection(name, Untrusted, user), PromptSection(other, Trusted, fake),
        PromptSection(name, Untrusted, rest);
    ForgedBlock(user, name, other, fake, rest);
    RenderingLaw([one]);
    RenderingLaw([x, y, z]);
    ThreeBlocks(x, y, z);
  }

  lemma ThreeBlocks(x: PromptSection, y: PromptSection, z: PromptSection)
    ensures Layout([x, y, z]) == Block(x) + ("\n\n" + (Block(y) + ("\n\n" + Block(z))))
  {
    assert [x, y, z][1..] == [y, z] && [y, z][1..] == [z];
    Assoc(Block(x), "\n\n", Layout([y, z]));
    Assoc(Block(y), "\n\n", Layout([z]));
  }
}
