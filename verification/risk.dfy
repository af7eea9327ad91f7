/** Session risk: the additive score and bands of app/risk_engine.py. */
module RiskEngine {
  import opened Records
  import opened Policy

  /** What the engine reads of the request besides its scan. */
  datatype Facts = Facts(controlChars: bool, systemMessages: bool, developerMessages: bool)

  function HistoryPoints(s: SessionRecord): nat {
    (if s.refusals >= 3 then 40 else 0) + (if s.toolRequests >= 5 then 20 else 0) + (if s.requests >= 20 then 15 else 0)
    + (if s.attempts >= 2 then 20 else 0) + (if s.escalations >= 1 then 25 else 0)
  }

  function RequestPoints(scan: Option<Scan>, f: Facts): nat {
    (if scan.Some? && scan.value.score >= 70 then 20 else 0) + (if f.controlChars then 10 else 0)
    + (if f.systemMessages then 15 else 0) + (if f.developerMessages then 15 else 0)
  }

  /** The score before it is capped. */
  function RawScore(s: SessionRecord, scan: Option<Scan>, f: Facts): nat {
    HistoryPoints(s) + RequestPoints(scan, f)
  }

  function Band(score: int): RiskState {
    if score >= 80 then Blocked else if score >= 50 then Restricted else if score >= 20 then Elevated else Normal
  }

  function Capped(score: int): int { if score < 100 then score else 100 }

  function Assess(s: SessionRecord, scan: Option<Scan>, f: Facts): Risk {
    Risk(Capped(RawScore(s, scan, f)), Band(RawScore(s, scan, f)))
  }

  // ----- the reasons given with a score

  datatype RiskReason =
    | PriorRefusals | ToolVolume | RequestVolume | RepeatedAttempts | EscalationPattern
    | RiskyInput | ControlCharacters | SystemMessage | DeveloperMessage

  /** When a reason applies. */
  predicate Applies(r: RiskReason, s: SessionRecord, scan: Option<Scan>, f: Facts) {
    match r
    case PriorRefusals => s.refusals > 2
    case ToolVolume => s.toolRequests > 4
    case RequestVolume => s.requests > 19
    case RepeatedAttempts => s.attempts > 1
    case EscalationPattern => s.escalations > 0
    case RiskyInput => scan.Some? && scan.value.score > 69
    case ControlCharacters => f.controlChars
    case SystemMessage => f.systemMessages
    case DeveloperMessage => f.developerMessages
  }

  /** What a reason is worth. */
  function Points(r: RiskReason): nat {
    match r
    case PriorRefusals => 40
    case ToolVolume => 20
    case RequestVolume => 15
    case RepeatedAttempts => 20
    case EscalationPattern => 25
    case RiskyInput => 20
    case ControlCharacters => 10
    case SystemMessage => 15
    case DeveloperMessage => 15
  }

  function Worth(r: RiskReason, s: SessionRecord, scan: Option<Scan>, f: Facts): nat {
    if Applies(r, s, scan, f) then Points(r) else 0
  }

  /** The score is the sum of what the reasons that apply are worth, capped at 100, and its
      band is that of the sum: blocked from 80, restricted from 50, elevated from 20. */
  lemma ScoreIsItsReasons(s: SessionRecord, scan: Option<Scan>, f: Facts)
    ensures var sum :=
              Worth(PriorRefusals, s, scan, f) + Worth(ToolVolume, s, scan, f) + Worth(RequestVolume, s, scan, f)
              + Worth(RepeatedAttempts, s, scan, f) + Worth(EscalationPattern, s, scan, f)
              + Worth(RiskyInput, s, scan, f) + Worth(ControlCharacters, s, scan, f)
              + Worth(SystemMessage, s, scan, f) + Worth(DeveloperMessage, s, scan, f);
            && Assess(s, scan, f).score == (if sum <= 100 then sum else 100)
            && (Assess(s, scan, f).state == Blocked <==> 80 <= sum)
            && (Assess(s, scan, f).state == Restricted <==> 50 <= sum < 80)
            && (Assess(s, scan, f).state == Elevated <==> 20 <= sum < 50)
  {
    assert HistoryPoints(s)
           == Worth(PriorRefusals, s, scan, f) + Worth(ToolVolume, s, scan, f) + Worth(RequestVolume, s, scan, f)
              + Worth(RepeatedAttempts, s, scan, f) + Worth(EscalationPattern, s, scan, f);
    assert RequestPoints(scan, f)
           == Worth(RiskyInput, s, scan, f) + Worth(ControlCharacters, s, scan, f)
              + Worth(SystemMessage, s, scan, f) + Worth(DeveloperMessage, s, scan, f);
  }

  /** The place of a reason in the order in which they are given. */
  function Place(r: RiskReason): nat {
    match r
    case PriorRefusals => 0
    case ToolVolume => 1
    case RequestVolume => 2
    case RepeatedAttempts => 3
    case EscalationPattern => 4
    case RiskyInput => 5
    case ControlCharacters => 6
    case SystemMessage => 7
    case DeveloperMessage => 8
  }

  /** Of the first k reasons exactly those that apply, each once and in order. */
  predicate Listed(reasons: seq<RiskReason>, k: nat, s: SessionRecord, scan: Option<Scan>, f: Facts) {
    && (forall r :: r in reasons <==> Place(r) < k && Applies(r, s, scan, f))
    && (forall i, j | 0 <= i < j < |reasons| :: Place(reasons[i]) < Place(reasons[j]))
  }

  lemma NextReason(reasons: seq<RiskReason>, r: RiskReason, s: SessionRecord, scan: Option<Scan>, f: Facts)
    requires Listed(reasons, Place(r), s, scan, f)
    ensures Listed(if Applies(r, s, scan, f) then reasons + [r] else reasons, Place(r) + 1, s, scan, f)
  {
    assert forall i | 0 <= i < |reasons| :: reasons[i] in reasons;
    forall q | Place(q) == Place(r)
      ensures q == r
    {
    }
  }

  /** One `if` of the chain: when the reason applies, its points are added and it is
      given. */
  method Note(before: nat, given: seq<RiskReason>, r: RiskReason, points: nat, applies: bool,
              ghost s: SessionRecord, ghost scan: Option<Scan>, ghost f: Facts)
    returns (score: nat, reasons: seq<RiskReason>)
    requires Listed(given, Place(r), s, scan, f) && applies == Applies(r, s, scan, f)
    ensures score == before + (if applies then points else 0) && Listed(reasons, Place(r) + 1, s, scan, f)
  {
    score, reasons := before, given;
    NextReason(given, r, s, scan, f);
    if applies {
      score, reasons := score + points, reasons + [r];
    }
  }

  /** The part of the score that the session's history earns. */
  method HistoryScore(s: SessionRecord, ghost scan: Option<Scan>, ghost f: Facts)
    returns (score: nat, reasons: seq<RiskReason>)
    ensures score == HistoryPoints(s) && Listed(reasons, 5, s, scan, f)
  {
    score, reasons := 0, [];
    score, reasons := Note(score, reasons, PriorRefusals, 40, s.refusals >= 3, s, scan, f);
    score, reasons := Note(score, reasons, ToolVolume, 20, s.toolRequests >= 5, s, scan, f);
    score, reasons := Note(score, reasons, RequestVolume, 15, s.requests >= 20, s, scan, f);
    score, reasons := Note(score, reasons, RepeatedAttempts, 20, s.attempts >= 2, s, scan, f);
    score, reasons := Note(score, reasons, EscalationPattern, 25, s.escalations >= 1, s, scan, f);
  }

  /** The part that the request at hand earns, added to it. */
  method AddRequestScore(before: nat, given: seq<RiskReason>, ghost s: SessionRecord, scan: Option<Scan>, f: Facts)
    returns (score: nat, reasons: seq<RiskReason>)
    requires Listed(given, 5, s, scan, f)
    ensures score == before + RequestPoints(scan, f) && Listed(reasons, 9, s, scan, f)
  {
    var risky := scan.Some? && scan.value.score >= 70;
    score, reasons := Note(before, given, RiskyInput, 20, risky, s, scan, f);
    score, reasons := Note(score, reasons, ControlCharacters, 10, f.controlChars, s, scan, f);
    score, reasons := Note(score, reasons, SystemMessage, 15, f.systemMessages, s, scan, f);
    score, reasons := Note(score, reasons, DeveloperMessage, 15, f.developerMessages, s, scan, f);
  }

  /** The chain of ifs that adds up score and reasons, then the band, then the cap: the
      reasons given are exactly those that apply, each once and in order. */
  method AssessSession(s: SessionRecord, scan: Option<Scan>, f: Facts) returns (risk: Risk, reasons: seq<RiskReason>)
    ensures risk == Assess(s, scan, f)
    ensures Listed(reasons, 9, s, scan, f)
  {
    var score: nat;
    score, reasons := HistoryScore(s, scan, f);
    score, reasons := AddRequestScore(score, reasons, s, scan, f);
    var state: RiskState;
    if score >= 80 {
      state := Blocked;
    } else if score >= 50 {
      state := Restricted;
    } else if score >= 20 {
      state := Elevated;
    } else {
      state := Normal;
    }
    risk := Risk(if score < 100 then score else 100, state);
  }

  /** The stored score is in 0..100 and its band is the band that was assigned, although
      the band is chosen before the score is capped. */
  lemma StoredScoreKeepsBand(s: SessionRecord, scan: Option<Scan>, f: Facts)
    ensures var risk := Assess(s, scan, f); 0 <= risk.score <= 100 && risk.state == Band(risk.score)
  {
  }
}
