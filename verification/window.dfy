/** Timestamps kept by a sliding window, and the bound such a window enforces.
    The rate limiter and the guard-model call window share these definitions. */
module Window {

  predicate Sorted(s: seq<real>) {
    forall i, j :: 0 <= i < j < |s| ==> s[i] <= s[j]
  }

  lemma ConcatAssoc<T>(a: seq<T>, b: seq<T>, c: seq<T>)
    ensures a + (b + c) == (a + b) + c
  {
  }

  lemma SortedTail(s: seq<real>)
    requires s != [] && Sorted(s)
    ensures Sorted(s[1..]) && (|s| > 1 ==> s[0] <= s[1])
  {
  }

  /** The timestamps of s that are at least lo, in order: what a delete by
      timestamp leaves behind. */
  function Since(s: seq<real>, lo: real): seq<real> {
    if s == [] then []
    else if lo <= s[0] then [s[0]] + Since(s[1..], lo)
    else Since(s[1..], lo)
  }

  /** What remains after popping stale timestamps from the front only. */
  function DropOld(s: seq<real>, now: real, width: real): seq<real> {
    if s != [] && now - s[0] > width then DropOld(s[1..], now, width) else s
  }

  /** How many timestamps lie in the closed interval lo..hi. */
  function CountIn(s: seq<real>, lo: real, hi: real): nat {
    if s == [] then 0 else (if lo <= s[0] <= hi then 1 else 0) + CountIn(s[1..], lo, hi)
  }

  lemma {:induction false} SinceConcat(a: seq<real>, b: seq<real>, lo: real)
    ensures Since(a + b, lo) == Since(a, lo) + Since(b, lo)
  {
    if a == [] {
      assert a + b == b;
    } else {
      assert (a + b)[1..] == a[1..] + b;
      SinceConcat(a[1..], b, lo);
      assert Since(a, lo) + Since(b, lo)
          == (if lo <= a[0] then [a[0]] else []) + (Since(a[1..], lo) + Since(b, lo));
    }
  }

  lemma {:induction false} CountConcat(a: seq<real>, b: seq<real>, lo: real, hi: real)
    ensures CountIn(a + b, lo, hi) == CountIn(a, lo, hi) + CountIn(b, lo, hi)
  {
    if a == [] {
      assert a + b == b;
    } else {
      assert (a + b)[1..] == a[1..] + b;
      CountConcat(a[1..], b, lo, hi);
    }
  }

  /** Pruning twice is pruning at the later threshold. */
  lemma {:induction false} SinceSince(s: seq<real>, a: real, b: real)
    requires a <= b
    ensures Since(Since(s, a), b) == Since(s, b)
  {
    if s != [] {
      var rest := Since(s[1..], a);
      SinceSince(s[1..], a, b);
      if a <= s[0] {
        var kept := [s[0]] + rest;
        assert kept[0] == s[0] && kept[1..] == rest;
        assert Since(s, a) == kept;
        assert Since(kept, b) == if b <= s[0] then [s[0]] + Since(rest, b) else Since(rest, b);
      }
    }
  }

  lemma {:induction false} SinceAll(s: seq<real>, lo: real)
    requires forall i :: 0 <= i < |s| ==> lo <= s[i]
    ensures Since(s, lo) == s
  {
    if s != [] {
      assert lo <= s[0];
      assert forall i :: 0 <= i < |s[1..]| ==> s[1..][i] == s[i + 1];
      SinceAll(s[1..], lo);
    }
  }

  /** On a sorted deque, popping from the front is deleting by timestamp. */
  lemma {:induction false} DropOldIsSince(s: seq<real>, now: real, width: real)
    requires Sorted(s)
    ensures DropOld(s, now, width) == Since(s, now - width)
  {
    if s != [] {
      if now - s[0] > width {
        DropOldIsSince(s[1..], now, width);
      } else {
        SinceAll(s, now - width);
      }
    }
  }

  /** Pruning a sorted sequence leaves a sorted one, with the same upper bounds. */
  lemma {:induction false} SinceSorted(s: seq<real>, lo: real)
    requires Sorted(s)
    ensures Sorted(Since(s, lo))
    ensures |Since(s, lo)| > 0 ==> |s| > 0 && s[0] <= Since(s, lo)[0] && Since(s, lo)[|Since(s, lo)| - 1] <= s[|s| - 1]
  {
    if s != [] {
      SinceSorted(s[1..], lo);
      var rest := Since(s[1..], lo);
      if rest != [] {
        assert forall i :: 0 <= i < |rest| ==> rest[0] <= rest[i];
      }
    }
  }

  /** Everything counted in an interval survives a prune at or before its start. */
  lemma {:induction false} CountBelowSince(s: seq<real>, lo: real, hi: real, cut: real)
    requires cut <= lo
    ensures CountIn(s, lo, hi) <= |Since(s, cut)|
  {
    if s != [] {
      CountBelowSince(s[1..], lo, hi, cut);
    }
  }

  /** No closed interval of the given width holds more than max timestamps. */
  ghost predicate Bounded(log: seq<real>, width: real, max: int) {
    forall a: real :: AtMostFrom(log, a, width, max)
  }

  predicate AtMostFrom(log: seq<real>, a: real, width: real, max: int) {
    CountIn(log, a, a + width) <= max
  }

  /** The window invariant at time now: the kept timestamps answer every question
      about the last `width` seconds that the full log would, and the log of
      everything ever admitted obeys the bound. */
  ghost predicate Covers(kept: seq<real>, log: seq<real>, now: real, width: real, max: int) {
    && Since(kept, now - width) == Since(log, now - width)
    && Bounded(log, width, max)
  }

  /** Waiting and pruning lose nothing that a later call needs. */
  lemma CoversLater(kept: seq<real>, log: seq<real>, now: real, later: real, width: real, max: int)
    requires Covers(kept, log, now, width, max)
    requires now <= later
    ensures Covers(kept, log, later, width, max)
    ensures Covers(Since(kept, later - width), log, later, width, max)
  {
    SinceSince(kept, now - width, later - width);
    SinceSince(log, now - width, later - width);
    SinceSince(kept, later - width, later - width);
  }

  /** Admitting one more timestamp while fewer than max are kept keeps the bound. */
  lemma CoversAdmit(kept: seq<real>, log: seq<real>, now: real, width: real, max: int)
    requires Covers(kept, log, now, width, max)
    requires |Since(kept, now - width)| < max
    ensures Covers(Since(kept, now - width) + [now], log + [now], now, width, max)
  {
    var pruned := Since(kept, now - width);
    SinceSince(kept, now - width, now - width);
    SinceConcat(pruned, [now], now - width);
    SinceConcat(log, [now], now - width);
    forall a: real
      ensures AtMostFrom(log + [now], a, width, max)
    {
      assert AtMostFrom(log, a, width, max);
      CountConcat(log, [now], a, a + width);
      assert CountIn([now], a, a + width) <= 1;
      if a <= now <= a + width {
        CountBelowSince(log, a, a + width, now - width);
      }
    }
  }
}
