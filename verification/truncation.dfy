/** How good truncate_to_budget of app/prompt_builder.py is against any selection that
    keeps nothing while something of strictly higher trust is dropped. Within a level the
    drop loop gives up the earlier sections first; a selection need not. */
module Truncation {
  import opened Text
  import opened Prompt

  // ----- selections

  /** a is some of the elements of b, in their order. */
  predicate Picks<T(==)>(a: seq<T>, b: seq<T>)
    decreases |b|
  {
    a == [] || (b != [] && ((a[0] == b[0] && Picks(a[1..], b[1..])) || Picks(a, b[1..])))
  }

  /** What is kept of each trust level. */
  datatype Selection = Selection(trusted: seq<PromptSection>, semi: seq<PromptSection>, untrusted: seq<PromptSection>)

  function Flat(s: Selection): seq<PromptSection> {
    s.trusted + s.semi + s.untrusted
  }

  function LevelOf(s: Selection, t: Trust): seq<PromptSection> {
    match t case Trusted => s.trusted case SemiTrusted => s.semi case Untrusted => s.untrusted
  }

  /** Any sections of a level, but none unless all of every higher level. */
  predicate HigherTrustFirst(all: seq<PromptSection>, s: Selection) {
    && Picks(s.trusted, OfTrust(all, Trusted)) && Picks(s.semi, OfTrust(all, SemiTrusted))
    && Picks(s.untrusted, OfTrust(all, Untrusted))
    && (s.semi != [] || s.untrusted != [] ==> s.trusted == OfTrust(all, Trusted))
    && (s.untrusted != [] ==> s.semi == OfTrust(all, SemiTrusted))
  }

  lemma {:induction false} PicksSelf<T>(s: seq<T>)
    ensures Picks(s, s)
  {
    if s != [] {
      PicksSelf(s[1..]);
    }
  }

  /** A final stretch without one of its elements. */
  lemma {:induction false} PicksWithout<T>(s: seq<T>, i: nat, j: nat)
    requires i <= j < |s|
    ensures Picks(s[i..j] + s[j + 1..], s)
    decreases |s|
  {
    if i > 0 {
      PicksWithout(s[1..], i - 1, j - 1);
      assert s[1..][i - 1..j - 1] == s[i..j] && s[1..][j..] == s[j + 1..];
    } else if j == 0 {
      PicksSelf(s[1..]);
      assert s[0..0] + s[1..] == s[1..];
      assert s[1..] == [] || Picks(s[1..], s[1..]);
    } else {
      PicksWithout(s[1..], 0, j - 1);
      var a := s[0..j] + s[j + 1..];
      assert a[0] == s[0] && a[1..] == s[1..][0..j - 1] + s[1..][j..];
    }
  }

  lemma {:induction false} PicksLength<T>(a: seq<T>, b: seq<T>)
    requires Picks(a, b)
    ensures |a| <= |b| && (|a| == |b| ==> a == b)
    decreases |b|
  {
    if a != [] {
      if a[0] == b[0] && Picks(a[1..], b[1..]) {
        PicksLength(a[1..], b[1..]);
        assert a == [a[0]] + a[1..] && b == [b[0]] + b[1..];
      } else {
        PicksLength(a, b[1..]);
      }
    }
  }

  /** The last n elements. */
  function LastN(s: seq<PromptSection>, n: nat): seq<PromptSection>
    requires n <= |s|
  {
    s[|s| - n..]
  }

  // ----- weights

  lemma {:induction false} WeightConcat(a: seq<PromptSection>, b: seq<PromptSection>)
    ensures TotalWeight(a + b) == TotalWeight(a) + TotalWeight(b)
  {
    if a == [] {
      assert a + b == b;
    } else {
      assert (a + b)[1..] == a[1..] + b;
      WeightConcat(a[1..], b);
    }
  }

  lemma WeightThree(a: seq<PromptSection>, b: seq<PromptSection>, c: seq<PromptSection>)
    ensures TotalWeight(a + b + c) == TotalWeight(a) + TotalWeight(b) + TotalWeight(c)
  {
    WeightConcat(a + b, c);
    WeightConcat(a, b);
  }

  /** A selection fits exactly when its weight does. */
  lemma FitsByWeight(s: seq<PromptSection>, maxChars: int)
    requires s != []
    ensures Fits(s, maxChars) <==> TotalWeight(s) - 2 <= maxChars
  {
    RenderingLaw(s);
  }

  lemma LastFrom(s: seq<PromptSection>, from: nat, n: nat)
    requires from + n == |s|
    ensures LastN(s, n) == s[from..] && (from == 0 ==> s[from..] == s)
  {
  }

  lemma LastTail(s: seq<PromptSection>, n: nat)
    requires 0 < n <= |s|
    ensures LastN(s, n)[1..] == LastN(s[1..], n - 1) && LastN(s, n)[0] == s[|s| - n]
  {
  }

  lemma LastOfTail(s: seq<PromptSection>, n: nat)
    requires n < |s|
    ensures LastN(s[1..], n) == LastN(s, n)
  {
  }

  /** No section is followed by a longer one. */
  predicate HeaviestFirst(s: seq<PromptSection>) {
    forall i, j | 0 <= i < j < |s| :: Weight(s[i]) >= Weight(s[j])
  }

  /** Then a final stretch is the lightest selection of its size. */
  lemma {:induction false} LastAreLightest(a: seq<PromptSection>, b: seq<PromptSection>)
    requires Picks(a, b) && HeaviestFirst(b)
    ensures |a| <= |b| && TotalWeight(LastN(b, |a|)) <= TotalWeight(a)
    decreases |b|
  {
    PicksLength(a, b);
    if a != [] {
      var rest := b[1..];
      assert forall i | 0 <= i < |rest| :: rest[i] == b[i + 1];
      if a[0] == b[0] && Picks(a[1..], rest) {
        LastAreLightest(a[1..], rest);
        var tail := LastN(b, |a|);
        LastTail(b, |a|);
        assert Weight(tail[0]) <= Weight(b[0]);
      } else {
        LastAreLightest(a, rest);
        LastOfTail(b, |a|);
      }
    }
  }

  /** Without the heavier of two sections a stretch is lighter than without the first. */
  lemma LighterWithout(s: seq<PromptSection>, i: nat, j: nat)
    requires i < j < |s| && Weight(s[i]) < Weight(s[j])
    ensures TotalWeight(s[i..j] + s[j + 1..]) < TotalWeight(s[i + 1..])
  {
    var before, after := s[i + 1..j], s[j + 1..];
    assert s[i..j] + after == [s[i]] + before + after;
    assert s[i + 1..] == before + [s[j]] + after;
    WeightThree([s[i]], before, after);
    WeightThree(before, [s[j]], after);
    assert TotalWeight([s[i]]) == Weight(s[i]) && TotalWeight([s[j]]) == Weight(s[j]);
  }

  // ----- the loop's candidates

  /** The last n sections of the drop order. */
  function LastOf(all: seq<PromptSection>, n: nat): seq<PromptSection>
    requires n <= |DropOrder(all)|
  {
    LastN(DropOrder(all), n)
  }

  lemma DropOrderLevels(all: seq<PromptSection>)
    ensures DropOrder(all) == OfTrust(all, Untrusted) + OfTrust(all, SemiTrusted) + OfTrust(all, Trusted)
  {
    SortIsGrouped(all, true);
  }

  /** The end of a concatenation of three is a final stretch of one of them, followed by
      the rest. */
  lemma LastOfThree(a: seq<PromptSection>, b: seq<PromptSection>, c: seq<PromptSection>, i: nat, j: nat, k: nat)
    requires i <= |a| && j <= |b| && k <= |c|
    requires (i > 0 ==> j == |b| && k == |c|) && (j > 0 ==> k == |c|)
    ensures TotalWeight(LastN(a + b + c, i + j + k))
            == TotalWeight(LastN(a, i)) + TotalWeight(LastN(b, j)) + TotalWeight(LastN(c, k))
  {
    CutThree(a, b, c, |a| - i, |b| - j, |c| - k);
    WeightThree(LastN(a, i), LastN(b, j), LastN(c, k));
    var from := |a + b + c| - (i + j + k);
    assert from == |a| - i + (|b| - j) + (|c| - k);
  }

  /** The candidate that keeps these many sections of each level. */
  lemma LastOfSizes(all: seq<PromptSection>, u: nat, m: nat, t: nat, n: nat)
    requires u <= |OfTrust(all, Untrusted)| && m <= |OfTrust(all, SemiTrusted)| && t <= |OfTrust(all, Trusted)|
    requires (u > 0 ==> m == |OfTrust(all, SemiTrusted)| && t == |OfTrust(all, Trusted)|)
             && (m > 0 ==> t == |OfTrust(all, Trusted)|)
    requires n == u + m + t
    ensures n <= |DropOrder(all)|
    ensures TotalWeight(LastOf(all, n)) == TotalWeight(LastN(OfTrust(all, Untrusted), u))
              + TotalWeight(LastN(OfTrust(all, SemiTrusted), m)) + TotalWeight(LastN(OfTrust(all, Trusted), t))
  {
    DropOrderLevels(all);
    LastOfThree(OfTrust(all, Untrusted), OfTrust(all, SemiTrusted), OfTrust(all, Trusted), u, m, t);
  }

  /** How many of each level a selection leaves out. */
  lemma SelectionSizes(all: seq<PromptSection>, s: Selection)
    requires HigherTrustFirst(all, s)
    ensures |s.untrusted| <= |OfTrust(all, Untrusted)| && |s.semi| <= |OfTrust(all, SemiTrusted)|
    ensures |s.trusted| <= |OfTrust(all, Trusted)|
    ensures |Flat(s)| <= |DropOrder(all)|
    ensures TotalWeight(Flat(s)) == TotalWeight(s.untrusted) + TotalWeight(s.semi) + TotalWeight(s.trusted)
  {
    PicksLength(s.trusted, OfTrust(all, Trusted));
    PicksLength(s.semi, OfTrust(all, SemiTrusted));
    PicksLength(s.untrusted, OfTrust(all, Untrusted));
    DropOrderLevels(all);
    WeightThree(s.trusted, s.semi, s.untrusted);
  }

  predicate HeaviestFirstPerLevel(all: seq<PromptSection>) {
    HeaviestFirst(OfTrust(all, Trusted)) && HeaviestFirst(OfTrust(all, SemiTrusted))
        && HeaviestFirst(OfTrust(all, Untrusted))
  }

  /** With the heaviest first in every level, the candidate of a selection's size is no
      heavier than the selection. */
  lemma CandidateIsLighter(all: seq<PromptSection>, s: Selection)
    requires HigherTrustFirst(all, s) && HeaviestFirstPerLevel(all)
    ensures |Flat(s)| <= |DropOrder(all)| && TotalWeight(LastOf(all, |Flat(s)|)) <= TotalWeight(Flat(s))
  {
    SelectionSizes(all, s);
    LastAreLightest(s.untrusted, OfTrust(all, Untrusted));
    LastAreLightest(s.semi, OfTrust(all, SemiTrusted));
    LastAreLightest(s.trusted, OfTrust(all, Trusted));
    LastOfSizes(all, |s.untrusted|, |s.semi|, |s.trusted|, |Flat(s)|);
  }

  /** The candidate with n sections is what the loop keeps when it has dropped the rest. */
  lemma CandidateKept(all: seq<PromptSection>, n: nat, maxChars: int)
    requires 0 < n <= |DropOrder(all)|
    ensures Fits(Keep(all, |DropOrder(all)| - n), maxChars) <==> TotalWeight(LastOf(all, n)) - 2 <= maxChars
  {
    KeepWeight(all, |DropOrder(all)| - n);
    FitsByWeight(Keep(all, |DropOrder(all)| - n), maxChars);
  }

  lemma TruncatedSize(p: Package, maxChars: int)
    ensures |Truncate(p, maxChars).sections| == |DropOrder(p.sections)| - Dropped(p.sections, maxChars, 0)
  {
    KeepWeight(p.sections, Dropped(p.sections, maxChars, 0));
  }

  // ----- as many sections as possible

  /** At every budget truncation keeps as many sections as any selection that fits. */
  ghost predicate KeepsMost(p: Package) {
    forall maxChars: int, s: Selection | HigherTrustFirst(p.sections, s) && Fits(Flat(s), maxChars) ::
      |Flat(s)| <= |Truncate(p, maxChars).sections|
  }

  /** A candidate light enough bounds the result from below. */
  lemma CandidateFits(p: Package, n: nat, maxChars: int)
    requires 0 < n <= |DropOrder(p.sections)| && TotalWeight(LastOf(p.sections, n)) - 2 <= maxChars
    ensures n <= |Truncate(p, maxChars).sections|
  {
    TruncatedSize(p, maxChars);
    CandidateKept(p.sections, n, maxChars);
    DroppedIsLeast(p.sections, maxChars, |DropOrder(p.sections)| - n);
  }

  lemma KeepsMostWhenHeaviestFirst(p: Package, maxChars: int, s: Selection)
    requires HeaviestFirstPerLevel(p.sections) && HigherTrustFirst(p.sections, s) && Fits(Flat(s), maxChars)
    ensures |Flat(s)| <= |Truncate(p, maxChars).sections|
  {
    if Flat(s) != [] {
      CandidateIsLighter(p.sections, s);
      FitsByWeight(Flat(s), maxChars);
      CandidateFits(p, |Flat(s)|, maxChars);
    }
  }

  /** A selection lighter than the candidate of its size beats the loop at its own length. */
  lemma LighterSelectionWins(p: Package, s: Selection)
    requires HigherTrustFirst(p.sections, s) && Flat(s) != []
    requires |Flat(s)| <= |DropOrder(p.sections)| && TotalWeight(Flat(s)) < TotalWeight(LastOf(p.sections, |Flat(s)|))
    ensures !KeepsMost(p)
  {
    var maxChars := TotalWeight(Flat(s)) - 2;
    FitsByWeight(Flat(s), maxChars);
    var n, j := |Flat(s)|, Dropped(p.sections, maxChars, 0);
    CandidateKept(p.sections, n, maxChars);
    FirstFitLater(p.sections, maxChars, |DropOrder(p.sections)| - n);
    TruncatedSize(p, maxChars);
  }

  /** What does not fit is not kept, nor is anything longer. */
  lemma FirstFitLater(sections: seq<PromptSection>, maxChars: int, k: nat)
    requires k < |DropOrder(sections)| && !Fits(Keep(sections, k), maxChars)
    ensures k < Dropped(sections, maxChars, 0)
  {
    var j := Dropped(sections, maxChars, 0);
    if j < k {
      DroppingShortens(sections, j, k);
    }
  }

  /** The selection that keeps a final stretch of one level without one of its sections,
      and all of the higher levels. */
  function Without(all: seq<PromptSection>, t: Trust, i: nat, j: nat): Selection
    requires i <= j < |OfTrust(all, t)|
  {
    var some := OfTrust(all, t)[i..j] + OfTrust(all, t)[j + 1..];
    match t
    case Trusted => Selection(some, [], [])
    case SemiTrusted => Selection(OfTrust(all, Trusted), some, [])
    case Untrusted => Selection(OfTrust(all, Trusted), OfTrust(all, SemiTrusted), some)
  }

  lemma WithoutIsSelection(all: seq<PromptSection>, t: Trust, i: nat, j: nat)
    requires i <= j < |OfTrust(all, t)|
    ensures HigherTrustFirst(all, Without(all, t, i, j))
  {
    PicksWithout(OfTrust(all, t), i, j);
    PicksSelf(OfTrust(all, Trusted));
    PicksSelf(OfTrust(all, SemiTrusted));
  }

  lemma WithoutIsLighter(all: seq<PromptSection>, t: Trust, i: nat, j: nat)
    requires i < j < |OfTrust(all, t)| && Weight(OfTrust(all, t)[i]) < Weight(OfTrust(all, t)[j])
    ensures var s := Without(all, t, i, j);
            && Flat(s) != [] && |Flat(s)| <= |DropOrder(all)|
            && TotalWeight(Flat(s)) < TotalWeight(LastOf(all, |Flat(s)|))
  {
    var s := Without(all, t, i, j);
    WithoutIsSelection(all, t, i, j);
    SelectionSizes(all, s);
    LighterWithout(OfTrust(all, t), i, j);
    LastOfSizes(all, |s.untrusted|, |s.semi|, |s.trusted|, |Flat(s)|);
    LastFrom(OfTrust(all, t), i + 1, |LevelOf(s, t)|);
    LastFrom(OfTrust(all, Trusted), 0, |OfTrust(all, Trusted)|);
    LastFrom(OfTrust(all, SemiTrusted), 0, |OfTrust(all, SemiTrusted)|);
    LastFrom(OfTrust(all, SemiTrusted), |OfTrust(all, SemiTrusted)|, 0);
    LastFrom(OfTrust(all, Untrusted), |OfTrust(all, Untrusted)|, 0);
  }

  lemma LightBeforeHeavyLoses(p: Package, t: Trust)
    requires !HeaviestFirst(OfTrust(p.sections, t))
    ensures !KeepsMost(p)
  {
    var level := OfTrust(p.sections, t);
    var i, j :| 0 <= i < j < |level| && Weight(level[i]) < Weight(level[j]);
    WithoutIsSelection(p.sections, t, i, j);
    WithoutIsLighter(p.sections, t, i, j);
    LighterSelectionWins(p, Without(p.sections, t, i, j));
  }

  /** Truncation keeps as many sections as any selection that fits, at every budget, if
      and only if in no trust level a section is followed by a longer one. */
  lemma KeepsMostExactly(p: Package)
    ensures KeepsMost(p) <==> HeaviestFirstPerLevel(p.sections)
  {
    if HeaviestFirstPerLevel(p.sections) {
      forall maxChars: int, s: Selection | HigherTrustFirst(p.sections, s) && Fits(Flat(s), maxChars)
        ensures |Flat(s)| <= |Truncate(p, maxChars).sections|
      {
        KeepsMostWhenHeaviestFirst(p, maxChars, s);
      }
    } else if !HeaviestFirst(OfTrust(p.sections, Trusted)) {
      LightBeforeHeavyLoses(p, Trusted);
    } else if !HeaviestFirst(OfTrust(p.sections, SemiTrusted)) {
      LightBeforeHeavyLoses(p, SemiTrusted);
    } else {
      LightBeforeHeavyLoses(p, Untrusted);
    }
  }

  // ----- what truncation keeps

  lemma {:induction false} PicksSuffix<T>(s: seq<T>, from: nat)
    requires from <= |s|
    ensures Picks(s[from..], s)
    decreases |s|
  {
    if from == 0 {
      PicksSelf(s);
      assert s[0..] == s;
    } else {
      PicksSuffix(s[1..], from - 1);
      assert s[1..][from - 1..] == s[from..];
    }
  }

  /** The result is such a selection, which fits when the slice is not forced. */
  lemma TruncatedIsSelection(p: Package, maxChars: int) returns (s: Selection)
    ensures HigherTrustFirst(p.sections, s) && Flat(s) == Truncate(p, maxChars).sections
    ensures Flat(s) != [] ==> Truncate(p, maxChars).text == Render(Flat(s)) && Fits(Flat(s), maxChars)
  {
    var all, j := p.sections, Dropped(p.sections, maxChars, 0);
    TruncatedSize(p, maxChars);
    if j == |DropOrder(all)| {
      s := Selection([], [], []);
    } else {
      KeepIsFinalStretches(all, j);
      var t: nat, m: nat, u: nat :| StretchesFrom(all, Keep(all, j), t, m, u);
      s := Selection(OfTrust(all, Trusted)[t..], OfTrust(all, SemiTrusted)[m..], OfTrust(all, Untrusted)[u..]);
      PicksSuffix(OfTrust(all, Trusted), t);
      PicksSuffix(OfTrust(all, SemiTrusted), m);
      PicksSuffix(OfTrust(all, Untrusted), u);
    }
  }

  lemma {:induction false} NoneOfTrust(s: seq<PromptSection>, t: Trust)
    requires forall i | 0 <= i < |s| :: s[i].trust != t
    ensures OfTrust(s, t) == []
  {
    if s != [] {
      NoneOfTrust(s[1..], t);
    }
  }

  /** How many sections of lower levels there are. */
  function LowerCount(all: seq<PromptSection>, t: Trust): nat {
    match t
    case Trusted => |OfTrust(all, Untrusted)| + |OfTrust(all, SemiTrusted)|
    case SemiTrusted => |OfTrust(all, Untrusted)|
    case Untrusted => 0
  }

  /** What is dropped first is of lower levels. */
  lemma LowerFirst(all: seq<PromptSection>, t: Trust, d: nat)
    requires d <= LowerCount(all, t)
    ensures d <= |DropOrder(all)| && OfTrust(DropOrder(all)[..d], t) == []
  {
    var us, ms := OfTrust(all, Untrusted), OfTrust(all, SemiTrusted);
    DropOrderLevels(all);
    AllOfTrust(all, Untrusted);
    AllOfTrust(all, SemiTrusted);
    var first := DropOrder(all)[..d];
    forall i | 0 <= i < |first|
      ensures first[i].trust != t
    {
      assert first[i] == if i < |us| then us[i] else ms[i - |us|];
    }
    NoneOfTrust(first, t);
  }

  /** A level of which nothing has been dropped yet, or which is empty, is kept whole. */
  lemma KeptWhole(all: seq<PromptSection>, t: Trust, d: nat)
    requires d <= |DropOrder(all)| && (d <= LowerCount(all, t) || OfTrust(all, t) == [])
    ensures OfTrust(Keep(all, d), t) == OfTrust(all, t)
  {
    var order := DropOrder(all);
    SortFacts(all, true, t);
    SortFacts(order[d..], false, t);
    OfTrustConcat(order[..d], order[d..], t);
    assert order == order[..d] + order[d..];
    if d <= LowerCount(all, t) {
      LowerFirst(all, t, d);
    }
  }

  /** The weight of the levels from t upwards is part of any selection that keeps t whole. */
  lemma WholeLevelsWeigh(all: seq<PromptSection>, s: Selection, t: Trust)
    requires HigherTrustFirst(all, s) && LevelOf(s, t) == OfTrust(all, t) != []
    ensures LowerCount(all, t) < |DropOrder(all)|
    ensures TotalWeight(LastOf(all, |DropOrder(all)| - LowerCount(all, t))) <= TotalWeight(Flat(s))
  {
    SelectionSizes(all, s);
    DropOrderLevels(all);
    var u := if t == Untrusted then |OfTrust(all, Untrusted)| else 0;
    var m := if t == Trusted then 0 else |OfTrust(all, SemiTrusted)|;
    LastOfSizes(all, u, m, |OfTrust(all, Trusted)|, |DropOrder(all)| - LowerCount(all, t));
    LastFrom(OfTrust(all, Trusted), 0, |OfTrust(all, Trusted)|);
    LastFrom(OfTrust(all, SemiTrusted), |OfTrust(all, SemiTrusted)| - m, m);
    LastFrom(OfTrust(all, Untrusted), |OfTrust(all, Untrusted)| - u, u);
  }

  /** Every level that some selection within the budget keeps whole, truncation keeps
      whole, whatever the lengths. */
  lemma WholeLevelsStayWhole(p: Package, maxChars: int, s: Selection, t: Trust)
    requires HigherTrustFirst(p.sections, s) && Fits(Flat(s), maxChars)
    requires LevelOf(s, t) == OfTrust(p.sections, t)
    ensures OfTrust(Truncate(p, maxChars).sections, t) == OfTrust(p.sections, t)
  {
    var all, d := p.sections, Dropped(p.sections, maxChars, 0);
    if OfTrust(all, t) != [] {
      WholeLevelReached(p, maxChars, s, t);
    }
    KeptWhole(all, t, d);
    TruncatedSize(p, maxChars);
  }

  lemma WholeLevelReached(p: Package, maxChars: int, s: Selection, t: Trust)
    requires HigherTrustFirst(p.sections, s) && Fits(Flat(s), maxChars)
    requires LevelOf(s, t) == OfTrust(p.sections, t) != []
    ensures Dropped(p.sections, maxChars, 0) <= LowerCount(p.sections, t)
  {
    var all := p.sections;
    WholeLevelsWeigh(all, s, t);
    FitsByWeight(Flat(s), maxChars);
    CandidateFits(p, |DropOrder(all)| - LowerCount(all, t), maxChars);
    TruncatedSize(p, maxChars);
  }

  // ----- what truncation loses

  function Filler(n: nat): string {
    seq(n, i => 'x')
  }

  /** Trusted sections, then untrusted ones. */
  lemma TwoLevels(ts: seq<PromptSection>, us: seq<PromptSection>)
    requires (forall i :: 0 <= i < |ts| ==> ts[i].trust == Trusted)
             && (forall i :: 0 <= i < |us| ==> us[i].trust == Untrusted)
    ensures var all := ts + us;
            && OfTrust(all, Trusted) == ts && OfTrust(all, SemiTrusted) == [] && OfTrust(all, Untrusted) == us
            && DropOrder(all) == us + ts
  {
    OfTrustAll(ts, Trusted);
    OfTrustAll(us, Untrusted);
    OfTrustConcat(ts, us, Trusted);
    OfTrustConcat(ts, us, SemiTrusted);
    OfTrustConcat(ts, us, Untrusted);
    DropOrderLevels(ts + us);
    assert us + [] + ts == us + ts;
  }

  lemma PairWeight(a: PromptSection, b: PromptSection)
    ensures TotalWeight([a]) == Weight(a) && TotalWeight([a, b]) == Weight(a) + Weight(b)
  {
    assert [a, b][1..] == [b] && [a][1..] == [] && [b][1..] == [];
  }

  /** Two untrusted sections of which the second alone is over the budget: the first one
      would fit, but it is given up first, and then the slice is forced. */
  lemma SmallSectionLost(p: Package, small: PromptSection, big: PromptSection, maxChars: int)
    requires p.sections == [small, big] && small.trust == big.trust == Untrusted
    requires Weight(small) - 2 <= maxChars < Weight(big) - 2 && !p.forcedSlice
    ensures HigherTrustFirst(p.sections, Selection([], [], [small])) && Fits([small], maxChars)
    ensures Truncate(p, maxChars).sections == [] && Truncate(p, maxChars).forcedSlice
  {
    TwoLevels([], [small, big]);
    assert [] + [small, big] == [small, big] && [small, big] + [] == [small, big];
    ForcedSliceExactly(p, maxChars);
    PairWeight(big, small);
    PairWeight(small, big);
    FitsByWeight([big], maxChars);
    FitsByWeight([small], maxChars);
    assert Picks([small][1..], [small, big][1..]);
  }

  /** That does occur. */
  lemma SmallSectionLostExample()
    ensures var p := Package([PromptSection("a", Untrusted, "x"), PromptSection("b", Untrusted, Filler(1000))], "",
                             1, true, false, false);
            Truncate(p, 100).sections == [] && Fits([p.sections[0]], 100)
  {
    var small, big := PromptSection("a", Untrusted, "x"), PromptSection("b", Untrusted, Filler(1000));
    SmallSectionLost(Package([small, big], "", 1, true, false, false), small, big, 100);
  }

  lemma FourWeights(a: PromptSection, b: PromptSection, c: PromptSection, d: PromptSection)
    ensures TotalWeight([a, b, c, d]) == Weight(a) + Weight(b) + Weight(c) + Weight(d)
    ensures TotalWeight([b, c, d]) == Weight(b) + Weight(c) + Weight(d)
  {
    PairWeight(c, d);
    assert [a, b, c, d][1..] == [b, c, d] && [b, c, d][1..] == [c, d];
  }

  lemma FourDropOrder(policy: PromptSection, task: PromptSection, user: PromptSection, files: PromptSection)
    requires policy.trust == task.trust == Trusted && user.trust == files.trust == Untrusted
    ensures var all := [policy, task, user, files];
            && OfTrust(all, Trusted) == [policy, task] && OfTrust(all, SemiTrusted) == []
            && OfTrust(all, Untrusted) == [user, files]
            && DropOrder(all) == [user, files, policy, task]
  {
    assert [policy, task] + [user, files] == [policy, task, user, files];
    assert [user, files] + [policy, task] == [user, files, policy, task];
    TwoLevels([policy, task], [user, files]);
  }

  lemma TwoKept(all: seq<PromptSection>, policy: PromptSection, task: PromptSection)
    requires |DropOrder(all)| == 4 && DropOrder(all)[2..] == [policy, task] && policy.trust == task.trust == Trusted
    ensures Keep(all, 2) == [policy, task]
  {
    OfTrustAll([policy, task], Trusted);
    SortIsGrouped([policy, task], false);
    assert [policy, task] + [] + [] == [policy, task];
  }

  /** Four sections as build makes them, of which the last is too long even after the
      third has been given up for it: both go, although the third would fit. */
  lemma ThirdSectionLost(p: Package, policy: PromptSection, task: PromptSection, user: PromptSection,
                         files: PromptSection, maxChars: int)
    requires p.sections == [policy, task, user, files]
    requires policy.trust == task.trust == Trusted && user.trust == files.trust == Untrusted
    requires Weight(policy) + Weight(task) + Weight(user) - 2 <= maxChars
             < Weight(files) + Weight(policy) + Weight(task) - 2
    ensures Truncate(p, maxChars).sections == [policy, task] && Fits([policy, task, user], maxChars)
    ensures HigherTrustFirst(p.sections, Selection([policy, task], [], [user]))
  {
    FourDropOrder(policy, task, user, files);
    PicksSelf([policy, task]);
    assert Picks([user][1..], [user, files][1..]);
    FourWeights(files, policy, task, user);
    assert TotalWeight([policy, task, user]) == Weight(policy) + Weight(task) + Weight(user);
    FitsByWeight([policy, task, user], maxChars);
    FourWeights(user, files, policy, task);
    PairWeight(policy, task);
    var order := DropOrder(p.sections);
    assert LastOf(p.sections, 4) == order && LastOf(p.sections, 3) == [files, policy, task];
    assert LastOf(p.sections, 2) == [policy, task];
    CandidateKept(p.sections, 4, maxChars);
    CandidateKept(p.sections, 3, maxChars);
    CandidateKept(p.sections, 2, maxChars);
    TwoKept(p.sections, policy, task);
  }

  /** Of what build makes, whatever the policy and task blocks: with attachment metadata
      no shorter than the user's input, at the very budget that policy, task and input
      need, the input is given up for the metadata, which is then given up too. */
  lemma UserInputLost(p: Package, policy: string, task: string, user: string, files: string)
    requires p.sections == BuildSections(policy, task, "", "", user, files, false) && user != "" && |user| <= |files|
    ensures |p.sections| == 4
    ensures var maxChars := |Render(p.sections[..3])|;
            Fits(p.sections[..3], maxChars) && Truncate(p, maxChars).sections == p.sections[..2]
  {
    var x := PromptSection("TRUSTED_SYSTEM_POLICY", Trusted, policy);
    var y := PromptSection("DEVELOPER_TASK", Trusted, task);
    var z := PromptSection("UNTRUSTED_USER_INPUT", Untrusted, user);
    var w := PromptSection("UNTRUSTED_ATTACHMENTS_METADATA", Untrusted, files);
    assert p.sections == [x, y] + [z, w] == [x, y, z, w];
    assert p.sections[..2] == [x, y] && p.sections[..3] == [x, y, z];
    RenderingLaw([x, y, z]);
    FourWeights(w, x, y, z);
    ThirdSectionLost(p, x, y, z, w, |Render([x, y, z])|);
  }
}
