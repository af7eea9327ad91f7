/** The limiter's verdicts, told from the calls and the answers already given. Nothing here
    mentions the limiter's state: the state is shown to be one way of keeping this log. */
module Verdicts {
  import opened Window
  import opened RateLimit
  import opened Backends

  /** Call i comes before time 0, or less than an hour after an earlier call of its key was
      refused as an aggressive attacker's. */
  predicate CoolingDown(calls: seq<Call>, vs: seq<Verdict>, i: nat)
    requires i < |calls| == |vs|
  {
    || calls[i].now < 0.0
    || exists j | 0 <= j < i ::
         vs[j].AggressiveAttacker? && calls[j].key == calls[i].key && calls[i].now < calls[j].now + 3600.0
  }

  /** The earlier calls of call i's key that were admitted no earlier than lo. */
  function AdmittedSince(calls: seq<Call>, vs: seq<Verdict>, i: nat, lo: real): set<nat>
    requires i < |calls| == |vs|
  {
    set j: nat | 0 <= j < i && vs[j].Allowed? && calls[j].key == calls[i].key && lo <= calls[j].now
  }

  /** Verdict i is the one that the log before it calls for. */
  predicate Explained(cfg: Config, calls: seq<Call>, vs: seq<Verdict>, i: nat)
    requires i < |calls| == |vs|
  {
    var c := calls[i];
    vs[i] == if CoolingDown(calls, vs, i) then CooldownActive
             else if c.attempts >= 3 then AggressiveAttacker
             else if |AdmittedSince(calls, vs, i, c.now - cfg.window)|
                     < EffectiveLimit(cfg.maxRequests, c.severity, c.attempts, c.multiplier) then Allowed
             else RateExceeded
  }

  ghost predicate AllExplained(cfg: Config, calls: seq<Call>, vs: seq<Verdict>) {
    |calls| == |vs| && forall i: nat | i < |calls| :: Explained(cfg, calls, vs, i)
  }

  // ----- a run up to one call

  lemma {:induction false} RunUpTo(cfg: Config, st: Limiter, calls: seq<Call>, i: nat)
    requires i < |calls|
    ensures |Run(cfg, st, calls).1| == |calls| && Run(cfg, st, calls[..i]).1 == Run(cfg, st, calls).1[..i]
    ensures Run(cfg, st, calls).1[i] == Allow(cfg, Run(cfg, st, calls[..i]).0, calls[i]).1
    decreases |calls|
  {
    AnswersAreAdmissions(cfg, st, calls, "");
    if i > 0 {
      var st1 := Allow(cfg, st, calls[0]).0;
      RunUpTo(cfg, st1, calls[1..], i - 1);
      assert calls[..i][1..] == calls[1..][..i - 1] && calls[..i][0] == calls[0];
    }
  }

  lemma {:induction false} ClockUpTo(now: real, calls: seq<Call>, i: nat)
    requires ClockFrom(now, calls) && i < |calls|
    ensures ClockFrom(now, calls[..i]) && LastTime(now, calls[..i]) <= calls[i].now
    decreases |calls|
  {
    if i > 0 {
      ClockUpTo(calls[0].now, calls[1..], i - 1);
      assert calls[..i][1..] == calls[1..][..i - 1] && calls[..i][0] == calls[0];
    }
  }

  /** A key's deadline lies ahead exactly when it did before the run or some refusal of the
      run as an aggressive attacker's is less than an hour old. */
  lemma {:induction false} DeadlineFromLog(cfg: Config, st: Limiter, calls: seq<Call>, key: string, now: real)
    ensures |Run(cfg, st, calls).1| == |calls|
    ensures now < DeadlineOf(Run(cfg, st, calls).0.cooldown, key) <==>
              || now < DeadlineOf(st.cooldown, key)
              || exists j | 0 <= j < |calls| ::
                   Run(cfg, st, calls).1[j].AggressiveAttacker? && calls[j].key == key && now < calls[j].now + 3600.0
    decreases |calls|
  {
    if calls != [] {
      var (st1, v) := Allow(cfg, st, calls[0]);
      var vs1, vs := Run(cfg, st1, calls[1..]).1, Run(cfg, st, calls).1;
      DeadlineFromLog(cfg, st1, calls[1..], key, now);
      assert vs == [v] + vs1;
      assert forall j | 0 < j < |calls| :: vs[j] == vs1[j - 1] && calls[j] == calls[1..][j - 1];
      assert forall j | 0 <= j < |calls| - 1 :: vs1[j] == vs[j + 1] && calls[1..][j] == calls[j + 1];
    }
  }

  // ----- admissions of a key, counted by the calls that made them

  function AdmittedIn(calls: seq<Call>, vs: seq<Verdict>, key: string, lo: real): set<nat>
    requires |calls| == |vs|
  {
    set j: nat | 0 <= j < |calls| && vs[j].Allowed? && calls[j].key == key && lo <= calls[j].now
  }

  lemma AdmittedInLast(calls: seq<Call>, vs: seq<Verdict>, key: string, lo: real)
    requires |calls| == |vs| && calls != []
    ensures var n := |calls| - 1;
            && (forall j | j in AdmittedIn(calls[..n], vs[..n], key, lo) :: j < n)
            && AdmittedIn(calls, vs, key, lo)
               == AdmittedIn(calls[..n], vs[..n], key, lo)
                  + if vs[n].Allowed? && calls[n].key == key && lo <= calls[n].now then {n} else {}
  {
  }

  lemma {:induction false} AnsweredLast(calls: seq<Call>, vs: seq<Verdict>, key: string)
    requires |calls| == |vs| && calls != []
    ensures var n := |calls| - 1;
            TimesAnswered(calls, vs, key)
            == TimesAnswered(calls[..n], vs[..n], key)
               + if vs[n].Allowed? && calls[n].key == key then [calls[n].now] else []
    decreases |calls|
  {
    var n := |calls| - 1;
    if n == 0 {
      assert calls[1..] == [] && vs[1..] == [] && calls[..0] == [] && vs[..0] == [];
    } else {
      AnsweredLast(calls[1..], vs[1..], key);
      assert calls[1..][..n - 1] == calls[..n][1..] && vs[1..][..n - 1] == vs[..n][1..];
      var first := if vs[0].Allowed? && calls[0].key == key then [calls[0].now] else [];
      var last := if vs[n].Allowed? && calls[n].key == key then [calls[n].now] else [];
      assert TimesAnswered(calls[..n], vs[..n], key) == first + TimesAnswered(calls[..n][1..], vs[..n][1..], key);
      ConcatAssoc(first, TimesAnswered(calls[1..][..n - 1], vs[1..][..n - 1], key), last);
    }
  }

  lemma {:induction false} CountedByCalls(calls: seq<Call>, vs: seq<Verdict>, key: string, lo: real)
    requires |calls| == |vs|
    ensures |Since(TimesAnswered(calls, vs, key), lo)| == |AdmittedIn(calls, vs, key, lo)|
    decreases |calls|
  {
    if calls == [] {
      assert AdmittedIn(calls, vs, key, lo) == {};
    } else {
      var n := |calls| - 1;
      CountedByCalls(calls[..n], vs[..n], key, lo);
      AdmittedInLast(calls, vs, key, lo);
      AnsweredLast(calls, vs, key);
      var last := if vs[n].Allowed? && calls[n].key == key then [calls[n].now] else [];
      SinceConcat(TimesAnswered(calls[..n], vs[..n], key), last, lo);
    }
  }

  // ----- the run is the log

  lemma VerdictExplained(cfg: Config, start: real, calls: seq<Call>, i: nat)
    requires ClockFrom(start, calls) && i < |calls|
    ensures |Run(cfg, EMPTY, calls).1| == |calls| && Explained(cfg, calls, Run(cfg, EMPTY, calls).1, i)
  {
    var vs, c, before := Run(cfg, EMPTY, calls).1, calls[i], calls[..i];
    var st := Run(cfg, EMPTY, before).0;
    RunUpTo(cfg, EMPTY, calls, i);
    ClockUpTo(start, calls, i);
    AllowedExactly(cfg, start, before, c);
    AnswersAreAdmissions(cfg, EMPTY, before, c.key);
    CountedByCalls(before, vs[..i], c.key, c.now - cfg.window);
    assert AdmittedIn(before, vs[..i], c.key, c.now - cfg.window) == AdmittedSince(calls, vs, i, c.now - cfg.window);
    DeadlineFromLog(cfg, EMPTY, before, c.key, c.now);
    assert forall j | 0 <= j < i :: before[j] == calls[j] && vs[..i][j] == vs[j];
    assert c.now < DeadlineOf(st.cooldown, c.key) <==> CoolingDown(calls, vs, i);
  }

  /** Under a clock that does not run back every verdict of a run is the one that the calls
      and answers before it call for: cooling down for an hour after each refusal as an
      aggressive attacker's, that refusal exactly at three attempts or more outside a
      cooldown, and otherwise admission exactly while fewer calls than the limit were
      admitted in the last window. */
  lemma RunIsExplained(cfg: Config, start: real, calls: seq<Call>)
    requires ClockFrom(start, calls)
    ensures AllExplained(cfg, calls, Run(cfg, EMPTY, calls).1)
  {
    AnswersAreAdmissions(cfg, EMPTY, calls, "");
    forall i: nat | i < |calls|
      ensures Explained(cfg, calls, Run(cfg, EMPTY, calls).1, i)
    {
      VerdictExplained(cfg, start, calls, i);
    }
  }

  /** And no other answers are explained: the log determines them all. */
  lemma {:induction false} ExplanationIsUnique(cfg: Config, calls: seq<Call>, vs: seq<Verdict>, ws: seq<Verdict>,
                                               n: nat)
    requires AllExplained(cfg, calls, vs) && AllExplained(cfg, calls, ws) && n <= |calls|
    ensures vs[..n] == ws[..n]
    decreases n
  {
    if n > 0 {
      var i := n - 1;
      ExplanationIsUnique(cfg, calls, vs, ws, i);
      assert forall j | 0 <= j < i :: vs[j] == vs[..i][j] && ws[j] == ws[..i][j];
      assert Explained(cfg, calls, vs, i) && Explained(cfg, calls, ws, i);
      assert AdmittedSince(calls, vs, i, calls[i].now - cfg.window)
          == AdmittedSince(calls, ws, i, calls[i].now - cfg.window);
      assert vs[..n] == vs[..i] + [vs[i]] && ws[..n] == ws[..i] + [ws[i]];
    }
  }

  /** So the answers of either backend are exactly the explained ones. */
  lemma BackendsExplained(cfg: Config, start: real, calls: seq<Call>, vs: seq<Verdict>)
    requires ClockFrom(start, calls)
    ensures AllExplained(cfg, calls, vs) <==> vs == MemRun(cfg, EMPTY, calls).1
    ensures AllExplained(cfg, calls, vs) <==> vs == SqlRun(cfg, EMPTY_TABLES, calls).1
  {
    BackendsAgree(cfg, start, calls);
    RunIsExplained(cfg, start, calls);
    var run := Run(cfg, EMPTY, calls).1;
    if AllExplained(cfg, calls, vs) {
      ExplanationIsUnique(cfg, calls, vs, run, |calls|);
      assert vs[..|calls|] == vs && run[..|calls|] == run;
    }
  }

  // ----- one call at any state

  /** Which of the four verdicts a call gets at any state, and what becomes of every
      deadline: only a refusal as an aggressive attacker's moves one, its own key's, to an
      hour from now. */
  lemma VerdictExactly(cfg: Config, st: Limiter, c: Call, key: string)
    ensures var (st1, v) := Allow(cfg, st, c);
            var ahead := c.now < DeadlineOf(st.cooldown, c.key);
            && (v.CooldownActive? <==> ahead)
            && (v.AggressiveAttacker? <==> !ahead && c.attempts >= 3)
            && DeadlineOf(st1.cooldown, key)
               == if !ahead && c.attempts >= 3 && key == c.key then c.now + 3600.0 else DeadlineOf(st.cooldown, key)
  {
  }
}
