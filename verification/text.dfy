/** Strings as the gateway's Python sees them: substring search, whitespace, strip,
    join and slicing. */
module Text {

  /** p occurs in s at index i. */
  predicate OccursAt(s: string, p: string, i: int) {
    0 <= i <= |s| - |p| && s[i..i + |p|] == p
  }

  predicate Contains(s: string, p: string) {
    exists i | 0 <= i <= |s| :: OccursAt(s, p, i)
  }

  lemma ContainsMiddle(s: string, before: string, word: string, after: string)
    requires s == before + word + after
    ensures Contains(s, word)
  {
    assert s[|before|..|before| + |word|] == word;
    assert OccursAt(s, word, |before|);
  }

  /** The characters that str.isspace accepts. */
  predicate IsSpace(c: char) {
    var n := c as int;
    || 9 <= n <= 13 || 28 <= n <= 32 || n == 0x85 || n == 0xA0 || n == 0x1680
    || 0x2000 <= n <= 0x200A || n == 0x2028 || n == 0x2029 || n == 0x202F || n == 0x205F || n == 0x3000
  }

  function TrimLeft(s: string): string {
    if s != [] && IsSpace(s[0]) then TrimLeft(s[1..]) else s
  }

  function TrimRight(s: string): string {
    if s != [] && IsSpace(s[|s| - 1]) then TrimRight(s[..|s| - 1]) else s
  }

  /** Without whitespace at either end. */
  function Strip(s: string): string {
    TrimRight(TrimLeft(s))
  }

  /** No whitespace at either end. */
  predicate Stripped(s: string) {
    s == [] || (!IsSpace(s[0]) && !IsSpace(s[|s| - 1]))
  }

  lemma {:induction false} TrimLeftCut(s: string) returns (k: nat)
    ensures k <= |s| && TrimLeft(s) == s[k..]
    ensures TrimLeft(s) == [] || !IsSpace(TrimLeft(s)[0])
  {
    if s != [] && IsSpace(s[0]) {
      var j := TrimLeftCut(s[1..]);
      k := j + 1;
    } else {
      k := 0;
    }
  }

  lemma {:induction false} TrimRightCut(s: string) returns (k: nat)
    ensures k <= |s| && TrimRight(s) == s[..k]
    ensures k == 0 || !IsSpace(s[k - 1])
  {
    if s != [] && IsSpace(s[|s| - 1]) {
      k := TrimRightCut(s[..|s| - 1]);
    } else {
      k := |s|;
    }
  }

  /** Stripping cuts out one contiguous part, and that part is stripped. */
  lemma StripCut(s: string) returns (lo: nat, hi: nat)
    ensures lo <= hi <= |s| && Strip(s) == s[lo..hi]
    ensures Stripped(Strip(s))
  {
    lo := TrimLeftCut(s);
    var k := TrimRightCut(s[lo..]);
    hi := lo + k;
    assert s[lo..][..k] == s[lo..hi];
  }

  lemma StripFixed(s: string)
    requires Stripped(s)
    ensures Strip(s) == s
  {
  }

  predicate AllSpace(s: string) {
    forall i | 0 <= i < |s| :: IsSpace(s[i])
  }

  lemma {:induction false} TrimLeftSkips(l: string, s: string)
    requires AllSpace(l)
    ensures TrimLeft(l + s) == TrimLeft(s)
  {
    if l == [] {
      assert l + s == s;
    } else {
      assert (l + s)[1..] == l[1..] + s;
      TrimLeftSkips(l[1..], s);
    }
  }

  lemma {:induction false} TrimRightSkips(s: string, r: string)
    requires AllSpace(r)
    ensures TrimRight(s + r) == TrimRight(s)
  {
    if r == [] {
      assert s + r == s;
    } else {
      assert (s + r)[..|s + r| - 1] == s + r[..|r| - 1];
      TrimRightSkips(s, r[..|r| - 1]);
    }
  }

  /** Stripping removes the whitespace around a stripped text and nothing else. */
  lemma StripExactly(l: string, m: string, r: string)
    requires AllSpace(l) && Stripped(m) && AllSpace(r)
    ensures Strip(l + m + r) == m
  {
    assert l + m + r == l + (m + r);
    TrimLeftSkips(l, m + r);
    if m == [] {
      TrimLeftSkips(r, []);
      assert m + r == r && r + [] == r;
    } else {
      assert TrimLeft(m + r) == m + r;
      TrimRightSkips(m, r);
    }
  }

  /** Python's text[:n] for any integer n. */
  function Prefix(s: string, n: int): string {
    if n >= |s| then s
    else if n >= 0 then s[..n]
    else if |s| + n >= 0 then s[..|s| + n]
    else []
  }

  /** The parts with a separator between neighbours. */
  function Join(separator: string, parts: seq<string>): string {
    if parts == [] then []
    else if |parts| == 1 then parts[0]
    else parts[0] + separator + Join(separator, parts[1..])
  }
}
