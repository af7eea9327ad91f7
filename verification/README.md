# SafetyGuard: verified model

SafetyGuard is a gateway in front of a language model. Each request is normalised, rate
limited, scored, shown to a guard model, classified and decided by policy; an admitted
request then runs its tools and is rendered into a prompt. This project models the state
that requests leave behind and the algorithms that decide, and proves what every run keeps.

| file | component |
|---|---|
| `window.dfy` | sliding windows of timestamps, shared by the limiter and the guard's call window |
| `rate_limit.dfy`, `backends.dfy`, `verdicts.dfy`, `rate_limiter.dfy` | the adaptive limiter: abstract window, the two backends side by side, the verdicts told from the log, the object |
| `sqlite_store.dfy`, `write_through.dfy` | the persistent tables, and a dictionary in front of a table |
| `sessions.dfy`, `profiles.dfy`, `risk.dfy` | session manager, attacker profiler, risk engine |
| `policy.dfy`, `default_policy.dfy` | content classifier, rule evaluation, the default bundle; what both answer, in terms of the envelope alone |
| `pipeline.dfy`, `attempts.dfy` | the gateway as a state machine: begin, guard answer, tools, clock, eviction, restart |
| `provenance.dfy`, `history.dfy`, `pressure.dfy`, `pressure_run.dfy` | its states told from the events of the run: requests in flight, sessions, limiter calls, multipliers |
| `policy_step.dfy` | the imperative policy step over the objects, shown to refine the machine |
| `json_extract.dfy`, `fences.dfy`, `fenced_value.dfy`, `guard.dfy` | what becomes of a guard answer |
| `encoding.dfy`, `text.dfy`, `normalize.dfy` | nested encodings and text clean-up |
| `prompt.dfy`, `rendering.dfy`, `truncation.dfy`, `tools.dfy` | rendering, truncation and budget; tool decisions and records |

The state machine and the objects meet in `policy_step.dfy`: the methods of
`PolicyServices` run the session manager, the limiter and the profiler, over one store or in
memory, and their contracts say that the objects go from showing one machine state to
showing the next. Theorems about runs of the machine are therefore about those objects: in
memory for all clients, and with a store for any set of clients in use of which no two share
a profile row. Code between two awaits is one step, and requests interleave only at the
awaits.

Time is a real number that never runs back where a theorem says so. Confidences and
multipliers are exact reals, which for the multipliers means integers from 1 to 20. A
pattern list is an arbitrary predicate on text, a guard answer is any value, and the
scanners' results are part of a request.

## What the model shows about the code

Several statements one would like to make are not true of the code as it stands. For each
the project has the exact condition, for all inputs, except that for the reading of a
rendered prompt it has a sufficient one.

* A guard answer can turn the denial of an injection or jailbreak label into a restricted
  allow (`InjectionCanEscapeDeny`); `InjectionDeniedExactly` says when. Tools and retrieval
  stay off in any case.
* An accusation by the guard alone does not stop a request: an attack that nothing in the
  scan bears out counts as suspicion, and suspicion is allowed (`AllowedExactly` in
  `default_policy.dfy`, with `Harmless` as its condition).
* The graver state of a session can get the more lenient answer. What an elevated session
  has restricted is allowed outright in a restricted one, if and only if nothing else speaks
  against it and the caller has stepped up (`RestrictedStateIsMoreLenient`).
* A blocked session is not always denied. Content that is merely insulting escapes the block
  (`InsultEscapesBlock`); `DeniedExactly` says what else does.
* The payload normaliser is not total: a number too large for a float, or an infinite risk
  score, raises `OverflowError` (`NormalizeRaisesExactly`). The caller catches it, so the
  analysis that results is always well formed.
* Truncation stays within the budget if and only if the budget is not negative
  (`TruncationWithinBudget`): Python slices from the end otherwise.
* Truncation does not keep as much as it could. Within a trust level the earlier section is
  given up first, so the user's input is lost for attachment metadata that is then lost too
  (`UserInputLost`), and a slice is forced although a section would fit
  (`SmallSectionLost`). `KeepsMostExactly`: it keeps as many sections as any selection that
  fits, at every budget, if and only if in no level a section is followed by a longer one.
  Whole levels are never lost this way (`WholeLevelsStayWhole`).
* The keywords by which an unknown guard label is inferred are looked for inside words:
  whatever mentions a danger is taken for a jailbreak attempt (`DangerIsJailbreak`, with
  `InferredExactly`).
* Sanitising tool arguments is not idempotent: the cut after a thousand characters can leave
  whitespace at the end (`SanitizedTwiceExactly`).
* A tool asked for twice runs twice with the arguments of the second item
  (`RepeatedLookupExample`); `OwnArgumentsExactly` says when records carry their own.
* A requested tool can end the request with an error. Evaluation and execution complete if
  and only if every item is a dictionary, its name is missing or a string, and its
  arguments are a dictionary if the item gets as far as having them searched
  (`OneRecordPerItem`); a name of 5 fails early and a name of false late (`NamesThatRaise`).
* The maximum number of cached profiles is no bound when there is a store
  (`StoredCacheOutgrows`). `LoadBoundedExactly` and `RefusalBoundedExactly` say which calls
  keep it.
* A rendered prompt need not determine its sections: untrusted content can render as a
  trusted section (`ForgedSection`). It does determine them when no content holds the end
  of its own section (`RenderInjective`).
* Profiles act as one map through evictions and restarts if and only if no two of the pairs
  in use share a row (`ProfilesActAsMapExactly`). A pair shares its row with some other
  pair if and only if the separator occurs again in the joined name
  (`RowIsSharedIffAmbiguous`); subjects without it that do not start with a colon are safe
  whatever the clients (`PlainSubjectsAreInjective`).
* The two limiter backends can differ when the clock steps back, but need not. They agree on
  all calls at given clock readings if and only if no reading finds a stale timestamp
  behind a fresh one (`BackendsAgreeExactly`).
* A JSON object inside a Markdown fence keeps its text if and only if newlines are its only
  line breaks (`FencedObjectExactly`, with `SeparatorLost` as an input that fails). Its
  value survives if and only if no string in it holds a line break (`FencedValueExactly`).
* Four rules of the default bundle never decide behind the classifier: both obfuscation
  rules, the challenge for confident suspicion, and the high-scan-score rule. The risk
  engine's 40 points for three refusals are never given either (`AssessedSessionsAreLow`), and
  no reason code of the bundle counts as an escalation or as tool abuse, so a client's
  multiplier is 1, 2, 5 or 10 (`DefaultMultipliers`).

The security notes under `docs/security/` call the session store in-memory only. The code
persists sessions, profiles and limiter state whenever the state backend is SQLite, which
is the default; the model follows the code, and covers the in-memory mode as well. The
rule table of `docs/architecture/components.md` is not the bundle's: it has 14 rules where
the bundle has 30, and denies all exploit and exfiltration intents and all secrets, which
the bundle partly restricts only. Its risk table lacks the points for attempts, escalations
and risky input. The model follows bundle and code here too.

## Model

| member | source | states |
|---|---|---|
| RateLimit.LimitIsOneQuotient | app/rate_limit.py:51-71 | for a maximum of at least 1, the clamped floor divisions equal one clamped division by the product of three divisors: 1, 2, 5 or 10 by severity (from 30, 50 and 80), the multiplier, and 2 from the second attempt on |
| RateLimit.LimitInRange | app/rate_limit.py:51-71 | the limit stays between 1 and the configured maximum for every combination of signals |
| RateLimit.LimitAntitone | app/rate_limit.py:51-71 | raising severity, attempts or multiplier never raises the limit |
| RateLimit.MemStep | app/rate_limit.py:43-80 | under a clock that does not run back, the deque backend, which pops from the front only, is the abstract limiter, and its deques stay sorted |
| RateLimit.SqlStep | app/rate_limit.py:36-80 | the table backend gives the abstract verdict on every call, under any clock, and its rows per key stay the abstract window |
| Backends.BackendsAgree | app/rate_limit.py:35-80 | both backends return the same verdicts on every call sequence under a non-decreasing clock |
| Backends.BackendsAgreeExactly | app/rate_limit.py:35-80 | for any clock readings: the backends agree on all calls made at them, with any maximum, if and only if no reading finds a stale timestamp behind one that is still fresh |
| Backends.StaleBehindFreshSeparates | app/rate_limit.py:46-48 | at any such readings a run of calls on which the verdicts differ |
| Backends.BackwardClockSeparates | app/rate_limit.py:46-48 | an instance: readings 100, 50 and 70 under a window of 10 |
| RateLimit.SlidingWindowBound | app/rate_limit.py:35-80 | along any run no closed interval of one window holds more than the configured maximum of admissions of a key, for any severities, attempts and multipliers |
| Backends.BothBackendsBounded | app/rate_limit.py:35-80 | the same bound, read off the answers that callers of either backend get |
| RateLimit.DeadlineNeverFallsInRun | app/rate_limit.py:35-69 | a key's cooldown deadline never moves back along any run, under any clock |
| RateLimit.CooldownLasts | app/rate_limit.py:37-69 | a call at t with three attempts or more, outside a cooldown, is refused as an aggressive attacker's, and every call of the key before t + 3600 as cooling down, whatever comes between |
| RateLimit.AllowedExactly | app/rate_limit.py:35-80 | after any run under a non-decreasing clock a call is admitted if and only if its key's deadline has passed, its session has fewer than three attempts, and fewer admissions of the key lie in the last window than its limit allows |
| Verdicts.RunIsExplained | app/rate_limit.py:35-80 | under a non-decreasing clock every verdict is the one that the earlier calls and answers call for: cooling down for an hour after each refusal as an aggressive attacker's, that refusal exactly at three attempts outside a cooldown, else admission exactly while fewer calls than the limit were admitted in the last window; no limiter state is mentioned |
| Verdicts.ExplanationIsUnique | app/rate_limit.py:35-80 | no other sequence of answers is so explained |
| Verdicts.BackendsExplained | app/rate_limit.py:35-80 | the answers of either backend are exactly the explained ones |
| Verdicts.VerdictExactly | app/rate_limit.py:37-69 | at any state, which calls are cooling down and which are refused as an aggressive attacker's; only the latter move a deadline, their own key's, to 3600 seconds from now |
| Verdicts.DeadlineFromLog | app/rate_limit.py:37-69 | a key's deadline lies ahead exactly when it did before or some refusal of the run as an aggressive attacker's is less than an hour old, under any clock |
| Window.CoversLater | app/rate_limit.py:45-48 | pruning never discards a timestamp that a later call would need |
| Window.CoversAdmit | app/rate_limit.py:73-80 | one more admission below the maximum keeps every window of the whole log within it |
| Window.DropOldIsSince | app/rate_limit.py:46-47 | on a sorted deque, popping from the front is deleting by timestamp |
| RateLimiterService.RateLimiter.Allow | app/rate_limit.py:15-80 | the object's call is exactly its backend's transition and verdict, and leaves the other backend's fields alone |
| SqliteStore.StateStore.PruneHits | app/sqlite_store.py:127-130 | deletes exactly the key's rows before the threshold: the key keeps the timestamps from it on, every other key keeps all |
| SqliteStore.StateStore.CountHits | app/sqlite_store.py:132-138 | counts the key's timestamps from the threshold on |
| WriteThrough.AccessRepresents | app/session_manager.py:15-33 | load, update and save over dictionary and table act as on one plain map, and keep the write-through invariant |
| WriteThrough.EvictionIsInvisible | app/attacker_profiler.py:110-142 | every run of lookups and updates answers as one plain map does, whatever is evicted in between |
| WriteThrough.ActsAsMapExactly | app/attacker_profiler.py:107-142 | that holds of a set of keys if and only if no two of them share a row name |
| WriteThrough.SharedNameLeaks | app/attacker_profiler.py:107-121 | of two keys with one row name, the second finds what was saved under the first |
| Sessions.SessionManager.Save | app/session_manager.py:15-18 | writes the record to the dictionary and, with a store, to the table |
| Sessions.SessionManager.Load | app/session_manager.py:20-33 | finds what the two levels hold and caches a hit from the table |
| Sessions.SessionManager.GetOrCreate | app/session_manager.py:35-60 | an existing session is touched and kept, a missing one is created under the given or the fresh id, and the result is what a later lookup finds |
| Sessions.SessionManager.UpdateFromRequest | app/session_manager.py:62-67 | counts request, messages and attachments and saves the record |
| Sessions.SessionManager.AppendRiskScore | app/session_manager.py:69-75 | appends the score and sets the state of an existing session, and does nothing for an unknown one |
| Sessions.SessionManager.RecordInjectionAttempt | app/session_manager.py:89-104 | counts the attempt, and an escalation from the second attempt on when the score is at least 60 |
| Sessions.SessionManager.GetInjectionAttemptCount | app/session_manager.py:113-118 | the recorded attempts of the session as both levels show it |
| Sessions.RestartIsInvisible | app/session_manager.py:15-60 | with the store, dropping live sessions at any point changes nothing a later operation finds |
| Profiles.AttackerProfile.FromDict | app/attacker_profiler.py:81-96 | rebuilding a profile from its document keeps everything but reasons beyond the newest hundred |
| Profiles.DictRoundTrip | app/attacker_profiler.py:67-96 | a document survives the rebuild exactly when its reason list has at most a hundred entries |
| Profiles.AttackerProfile.RecordRefusal | app/attacker_profiler.py:28-40 | the in-place loop over the codes is the fold that the history lemmas are about |
| Profiles.CodesAdd | app/attacker_profiler.py:31-40 | absorbing codes adds the number of matching codes to each counter and keeps the newest hundred reasons |
| Profiles.ProfileIsItsHistory | app/attacker_profiler.py:28-40 | each counter is the number of matching codes in the whole refusal history, and the deque is exactly its last hundred codes |
| Profiles.InjectionsCoverJailbreaks | app/attacker_profiler.py:33-36 | jailbreak codes are never more than injection codes |
| Profiles.CounterWords | app/attacker_profiler.py:33-40 | whatever stands around its words, each counter counts them |
| Profiles.MultiplierInRange | app/attacker_profiler.py:166-180 | the multiplier is an integer from 1 to 20 |
| Profiles.MultiplierIsItsHistory | app/attacker_profiler.py:166-180 | the multiplier is the product of 5 from the third jailbreak code on, 3 from the second escalation code on and 2 from the fifth injection code on, up to 20, counted over the whole refusal history |
| Profiles.PressureNeverFalls | app/attacker_profiler.py:166-180 | a further refusal never lowers the multiplier and so never raises the client's limit |
| Profiles.RowIsSharedIffAmbiguous | app/attacker_profiler.py:107-108 | another pair has the same row name if and only if the separator occurs at another place in it |
| Profiles.ProfilesActAsMapExactly | app/attacker_profiler.py:107-142 | from an empty store, runs of refusals, lookups, evictions and restarts answer as one plain map if and only if no two pairs in use share a row |
| Profiles.SharedRowLeaks | app/attacker_profiler.py:107-142 | of two pairs with one row the second finds the refusal recorded for the first |
| Profiles.PlainSubjectsAreInjective | app/attacker_profiler.py:107-108 | pairs whose subject holds no separator and does not start with a colon never share a row, whatever their clients |
| Profiles.SharedRowExample | app/attacker_profiler.py:107-108 | two pairs, no half of which holds the separator, that find each other's profile |
| Profiles.AttackerProfiler.LoadProfile | app/attacker_profiler.py:110-121 | finds what cache and table hold for the pair, also a profile of another owner, and caches an object for a hit |
| Profiles.AttackerProfiler.RecordRefusal | app/attacker_profiler.py:129-142 | evicts the oldest cached profile exactly when the pair is new and the cache full; then the object the pair reaches absorbs the refusal, and its row, its owner and every key that shares it show the result |
| Profiles.OwnRefusal | app/attacker_profiler.py:129-142 | for a pair that has its profile to itself that is an update of the pair in both levels and nothing else |
| Profiles.LoadBoundedExactly | app/attacker_profiler.py:110-121 | a lookup keeps a cache within its maximum if and only if the pair is cached or unknown, or there is room |
| Profiles.RefusalBoundedExactly | app/attacker_profiler.py:129-142 | a refusal does if and only if the pair is unknown, so that room is made, or the keys it adds fit |
| Profiles.StoredCacheOutgrows | app/attacker_profiler.py:110-142 | a run of two refusals and a lookup that caches two profiles under a maximum of 1 |
| Profiles.CacheStaysBounded | app/attacker_profiler.py:134-139 | without a store a refusal always keeps the maximum |
| Profiles.AttackerProfiler.GetAdaptiveRateLimitMultiplier | app/attacker_profiler.py:166-180 | the multiplier of the profile the pair's lookup finds, or 1 |
| RiskEngine.AssessSession | app/risk_engine.py:7-73 | the chain of ifs computes score and band, and gives as reasons exactly those that apply, each once and in order |
| RiskEngine.ScoreIsItsReasons | app/risk_engine.py:24-73 | the score is the sum of what the reasons that apply are worth, capped at 100; the band is that of the sum: blocked from 80, restricted from 50, elevated from 20 |
| RiskEngine.StoredScoreKeepsBand | app/risk_engine.py:59-73 | the stored score lies in 0..100 and its own band is the one assigned before capping |
| Policy.EvaluateBundle | app/policy_service.py:26-33 | the first enabled rule all of whose conditions hold decides, or the default; what that comes to for the default bundle is said without rules in the rows of DefaultPolicy |
| Policy.RemoveSubsumedRule | app/policy_service.py:28-41 | removing a rule whose conditions include all those of an earlier enabled rule changes no decision |
| Policy.UnreadableRuleNeverDecides | app/policy_service.py:26-39 | a rule that is disabled or has a condition of unknown key never decides |
| Policy.UnconditionalRuleEnds | app/policy_service.py:26-33 | behind an enabled rule without conditions neither rules nor default matter |
| DefaultPolicy.ClassifiedExactly | app/content_classifier.py:7-148 | for each label the evidence on which the classifier gives it, if and only if, whatever the order of its checks |
| DefaultPolicy.ConfidenceExactly | app/content_classifier.py:7-148 | and with which confidence |
| DefaultPolicy.AllowedExactly | app/policies/default_policy.json:1-506 | a request is allowed outright if and only if permission is there, no label, score, data finding or blocked session speaks against it, the guard is harmless to it, the caller has stepped up and the session is not elevated; in the envelope's own fields |
| DefaultPolicy.DeniedExactly | app/policies/default_policy.json:1-506 | it is denied if and only if there are grounds to deny it in any session, or the session is blocked and nothing in the request is answered first |
| DefaultPolicy.ChallengedExactly | app/policies/default_policy.json:1-506 | it is challenged if and only if there are no such grounds and it is hateful or discriminatory in an elevated session |
| DefaultPolicy.HarmlessDecision | app/policies/default_policy.json:464-506 | the whole decision, with its reason, on a request that nothing speaks against |
| DefaultPolicy.HarmfulDecision | app/policies/default_policy.json:1-446 | any other is not allowed outright, with tools and retrieval off, public data only and restricted answers |
| DefaultPolicy.ToolsAndRetrievalExactly | app/policies/default_policy.json:1-506 | tools are on exactly when a request is allowed outright, retrieval exactly when nothing speaks against it |
| DefaultPolicy.RestrictedStateIsMoreLenient | app/policies/default_policy.json:448-478 | an elevated session never has a request allowed outright; a restricted one does, if and only if nothing speaks against it and the caller has stepped up |
| DefaultPolicy.InsultEscapesBlock | app/policies/default_policy.json:336-446 | in a blocked session a request that nothing else speaks against is denied, and allowed with restrictions once it is insulting |
| DefaultPolicy.UnheededGuard | app/content_classifier.py:29-111 | an answer that neither accuses of an attack nor finds sensitive data leaves the decision of every bundle to the other signals |
| DefaultPolicy.CountedDenialsExactly | app/policies/default_policy.json:4-149 | which requests are denied for an injection or a jailbreak by name |
| Policy.NoGuardAnswerLiftsAttackLabel | app/content_classifier.py:25-148 | with any of six attack labels on the scan and any guard answer or none, the default bundle does not allow outright, disables tools and turns retrieval off |
| Policy.CorroboratedIsAttackClass | app/content_classifier.py:25-148 | a corroborating label or score is never classified as benign or merely suspicious, whatever the guard says |
| Policy.InjectionDeniedExactly | app/policies/default_policy.json:3-447 | an injection or jailbreak label is denied if and only if the guard does not put its own label in place of it or, with that label and confidence, another deny rule fires |
| Policy.InjectionCanEscapeDeny | app/content_classifier.py:25-148 | a request with an injection label that is allowed with restrictions |
| Policy.NotChallenged | app/policies/default_policy.json:236-301 | a corroborated request without hateful or discriminatory content is denied or restricted, never challenged |
| Policy.ObfuscationRulesAreRedundant | app/policies/default_policy.json:68-149 | neither obfuscation rule ever decides |
| Policy.SuspicionChallengeNeverFires | app/policies/default_policy.json:286-303 | behind the classifier the challenge for confident suspicion never matches |
| Policy.HighScoreRuleNeverDecides | app/policies/default_policy.json:448-463 | the high-scan-score rule never decides, and a score of 50 or more always ends with tools and retrieval off |
| Pipeline.StepKeepsInv | app/chat_pipeline.py:92-217 | every event of the gateway keeps the counter invariants of every session, with the requests in flight accounted for |
| Pipeline.ReachableSessionsOk | app/session_manager.py:62-104 | in every reachable state refusals equal attempts, escalations stay below attempts, refusals and tool uses stay within the risk history, that within the requests, scores lie in 0..100 and the state is the band of the last score |
| Pipeline.AssessedSessionsAreLow | app/risk_engine.py:23-25 | the risk engine only sees sessions with at most two refusals |
| Pressure.DefaultMultipliers | app/attacker_profiler.py:166-180 | under the default bundle, in every reachable state, with or without a store, a client's multiplier is 10, 5, 2 or 1, and which one follows from the jailbreak and injection codes of its refusals, four equivalences |
| Pressure.ReachableMultiplier | app/attacker_profiler.py:166-180 | under any bundle, in every reachable state, a client's multiplier is what its refusals have earned |
| Pressure.CountedReasons | app/attacker_profiler.py:33-40 | of the bundle's deny reasons exactly two count as jailbreaks, these and three more as injections, and none as escalation or tool abuse |
| PressureRun.PressureBites | app/attacker_profiler.py:166-180 | for any maximum of at least 3, a run of three denied jailbreaks that takes the multiplier from 1 to 5 and the limit strictly down |
| Provenance.StepFlight | app/chat_pipeline.py:93-190 | a request is in flight after an event exactly because the event left it alone, let it pass or started it |
| Provenance.FlightComesFrom | app/chat_pipeline.py:93-143 | along any run every request in flight comes from the event that began it: its envelope has that request's scan, data findings, permissions and step-up and the risk assessed at that moment, and if it proceeds, the bundle let it pass on these and its guard's answer |
| Provenance.AnswerDecides | app/chat_pipeline.py:138-190 | the guard's answer takes a waiting request to the decision the bundle makes on what the request brought and that answer; only a denial is recorded, with its codes |
| History.SessionIsItsHistory | app/session_manager.py:35-111 | in every reachable state a session exists exactly when a request began in it, in memory since the last restart, and every field of its record is told by that history: first and last coming, counts, scores and state of all admitted requests, one refusal and one attempt a denial, an escalation for each later denial scoring 60 or more, a tool request for each time a tool ran |
| History.CallIsItsHistory | app/chat_pipeline.py:106-115 | what a request makes the limiter see: its client and subject, the latest time, its own scan score, the number of denials in its session and the factors its refusals have earned |
| History.BeginIsExplained | app/chat_pipeline.py:106-125 | whatever the interleaving, the verdict on a request that begins is the one that the earlier calls and answers of the run call for |
| Pipeline.AttemptsBounded | app/chat_pipeline.py:105-163 | with at most c requests of a session between check and decision it never records more than 2 + c attempts |
| Pipeline.DenialsAllCount | app/chat_pipeline.py:158-163 | of requests that wait together every denied one is counted, however many attempts the session has by then |
| Attempts.BoundIsMet | app/chat_pipeline.py:105-163 | for every c of at least 1 a run with at most c waiting that records 2 + c attempts |
| Pipeline.SessionLockout | app/rate_limit.py:63-69 | after three recorded attempts no request of the session is ever admitted again, under any key, at any later time, across restarts with the store |
| Pipeline.CooldownHolds | app/rate_limit.py:37-69 | when a session with three recorded attempts makes a request outside a cooldown, it is refused as an aggressive attacker's, and every request of that client and subject within the hour as cooling down, in any session, whatever happens in between, across restarts with the store |
| Pipeline.LimiterSeesCalls | app/chat_pipeline.py:105-115 | along any run the limiter sees exactly the calls of the requests that begin, under a clock that never runs back |
| Pipeline.AdmissionsBounded | app/chat_pipeline.py:105-125 | over any interleaving, and across restarts with the store, no window admits more requests of a key than the configured maximum |
| Pipeline.ReachableProfileIsItsHistory | app/chat_pipeline.py:164-168 | in every reachable state a pair has a profile exactly when it was refused, without a store since its profile was last lost, with the counters and the last hundred codes of that refusal history |
| Pipeline.PressureNeverFallsInRun | app/chat_pipeline.py:106-115 | with the store no run lowers a client's multiplier or raises its limit |
| Provenance.AttacksNeverUseTools | app/chat_pipeline.py:207-217 | under the default bundle a request whose own scan has an attack label never changes a session by running tools, whatever the guard answers |
| PolicyStep.PolicyServices.constructor | app/session_manager.py:11-13 | objects newly made, over a store or in memory, show the restarted machine: nothing a store holds is lost |
| PolicyStep.PolicyServices.ShownIsStored | app/session_manager.py:15-18 | with a store, whatever the objects show is in it |
| PolicyStep.PolicyServices.TickShows | app/chat_pipeline.py:105-115 | while time passes the objects keep showing the machine |
| PolicyStep.PolicyServices.UntilGuard | app/chat_pipeline.py:95-138 | the first stretch, run on the objects in either mode, is the machine's begin step, with its verdict and risk |
| PolicyStep.PolicyServices.AfterGuard | app/chat_pipeline.py:146-168 | the stretch after the guard's answer is the machine's guard step, after the eviction that a full cache calls for, and returns the bundle's decision |
| PolicyStep.PolicyServices.AfterTools | app/chat_pipeline.py:207-217 | the tool record is the machine's tool step |
| PolicyStep.RefusalShows | app/attacker_profiler.py:129-142 | recording a refusal after an eviction updates the shown map at the pair and, but for the evicted profile in memory, nowhere else |
| JsonExtract.ExtractBalancedJsonObject | app/llm_guard.py:490-520 | returns the stretch from the first brace to where its string-aware depth first returns to 0, and None if and only if there is no such stretch |
| JsonExtract.ExtractionIsUnique | app/llm_guard.py:490-520 | that contract leaves exactly one answer for every text |
| JsonExtract.NeutralValue | app/llm_guard.py:500-518 | reading any printed JSON value outside strings returns to the same depth, never below it and outside strings |
| JsonExtract.PrintedObjectCloses | app/llm_guard.py:500-518 | an object printed per sections 4 to 7 of RFC 8259 closes at its end and nowhere before |
| JsonExtract.PrintedObjectIsExtracted | app/llm_guard.py:490-520 | behind any prefix without a brace and before any suffix, exactly the printed object is returned |
| Fences.JoinSplitSame | app/llm_guard.py:483-488 | splitting into lines and joining again leaves a text alone when newlines are its only line breaks and it does not end in one |
| Fences.FencedBody | app/llm_guard.py:478-488 | of a fenced text its body is left, with any language tag and any body not ending in a line break |
| Fences.FencedObjectExactly | app/llm_guard.py:478-488 | a fenced JSON object comes out unchanged if and only if newlines are its only line breaks |
| Fences.FencedObjectIsExtracted | app/llm_guard.py:478-520 | such an object goes through fences and extractor unchanged |
| Fences.SeparatorLost | app/llm_guard.py:478-488 | an object that does not: a line separator in its string becomes a newline |
| FencedValue.FencedValueExactly | app/llm_guard.py:478-488 | the JSON value of a fenced object survives, whatever becomes of its layout, if and only if no string in it holds a line break |
| FencedValue.JoinSplitUnbreaks | app/llm_guard.py:483-488 | splitting and joining turns every line break into one newline, a carriage return and newline together |
| GuardAnswer.NormalizedIsWellFormed | app/llm_guard.py:522-552 | a normalised answer has an allowed label and action, confidence in 0..1, risk in 0..100 and tidy, non-empty reasons |
| GuardAnswer.NormalizeRaisesExactly | app/llm_guard.py:665-675 | normalisation raises exactly for a number too large to convert or an infinite risk score |
| GuardAnswer.WellFormedIsFixpoint | app/llm_guard.py:522-552 | every well-formed answer is left alone |
| GuardAnswer.NormalizeIdempotent | app/llm_guard.py:522-552 | normalising twice is normalising once |
| GuardAnswer.InferredLabelAllowed | app/llm_guard.py:598-623 | the keyword cascade infers allowed labels only |
| GuardAnswer.InferredExactly | app/llm_guard.py:598-623 | the label inferred is that of the first family of keywords mentioned, unless the text calls itself safe and not unsafe |
| GuardAnswer.DangerIsJailbreak | app/llm_guard.py:601-604 | any text that mentions a danger is taken for a jailbreak attempt, unless it calls itself safe |
| GuardAnswer.DefaultActionExactly | app/llm_guard.py:639-655 | which labels get which action in place of an unknown one |
| GuardAnswer.NumbersAreNearest | app/llm_guard.py:532-536 | a finite confidence goes to the nearest in 0..1, a finite risk once truncated to the nearest percentage; what is no number counts as 0.5 and 50 |
| GuardAnswer.UnknownTagsReplaced | app/llm_guard.py:522-530 | an allowed label or action is kept, another replaced by the inferred label and its default action |
| GuardAnswer.MissingReasonsReplaced | app/llm_guard.py:538-541 | reasons are kept unless there are none or only the placeholder; then three name label, action and parser |
| GuardAnswer.AnalysisIsWellFormed | app/llm_guard.py:328-374 | whatever parsed answer comes back, even one that raises, the analysis is well formed |
| GuardAnswer.AnalysisExactly | app/llm_guard.py:328-374 | the analysis is the normalised answer, or mere suspicion with confidence 0.4 exactly when normalisation raised |
| GuardAnswer.HostExists | app/llm_guard.py:522-552 | what the fixpoint lemmas use of the host language can be met |
| GuardAnswer.CallWindow.TryCall | app/llm_guard.py:310-326 | the prune loop and the check are one step of the call window |
| GuardAnswer.GuardCallsBounded | app/llm_guard.py:310-326 | no closed second holds more admitted first attempts than the configured rate |
| GuardAnswer.CallAdmittedExactly | app/llm_guard.py:310-326 | a first attempt is admitted if and only if fewer calls than the rate were admitted in the last second |
| Encoding.Base64RoundTrip | app/input_scanner.py:102 | decoding undoes the encoding of section 4 of RFC 4648 for every byte sequence |
| Encoding.QuadDigits | app/input_scanner.py:102 | the four characters of a group are the base-64 digits of the number whose base-256 digits are its bytes |
| Encoding.DetectNestedEncoding | app/input_scanner.py:93-122 | the loop counts the layers that come off, never more than its maximum depth |
| Encoding.LayersCounted | app/input_scanner.py:93-122 | k layers of Base64 around ASCII text longer than ten characters count as k, or as the rounds if fewer, and then the text itself is looked at; for every k and any hexadecimal decoder |
| Encoding.BareLayersCounted | app/input_scanner.py:93-122 | around a text of which both decoders fail, give it back or give at most ten characters, k layers have depth exactly the smaller of k and the rounds |
| Encoding.DepthExactly | app/input_scanner.py:93-122 | the depth is n if and only if n removals, told by the decoders, lead to a text that no decoder makes anything new of, or use up the rounds |
| Encoding.ScanExactly | app/input_scanner.py:126-147 | a label comes from the patterns of some message or is obfuscation of a message from which two rounds each remove a layer, and the total has 20 points for exactly these messages |
| Encoding.ScanMessages | app/input_scanner.py:126-147 | the scan collects the labels and the capped total score of all messages |
| Encoding.LayeredMessageIsObfuscation | app/input_scanner.py:134-147 | two or more layers in any message always bring the obfuscation label and at least 20 points |
| Normalize.NormalizeTextFixpoints | app/normalizer.py:29-33 | normalisation leaves a text alone if and only if it has no control characters, no carriage returns and no outer whitespace, and reports control characters exactly when it removes some |
| Normalize.NormalTextMeans | app/normalizer.py:29-33 | in other words: it has no character below the blank but tabs and newlines |
| Normalize.NormalizeTextIsNormal | app/normalizer.py:29-33 | every result is such a text |
| Normalize.NormalizeTextIdempotent | app/normalizer.py:29-33 | a second pass changes and reports nothing |
| Normalize.VisibleKept | app/normalizer.py:29-33 | normalisation and sanitisation lose, add and reorder no visible character |
| Normalize.NormalizedLines | app/normalizer.py:32 | between two normal texts a line break of any of the three kinds becomes one newline |
| Normalize.NormalizedMiddle | app/normalizer.py:32 | whitespace around a normal text goes, and the text stays |
| Normalize.RunBecomesBlank | app/prompt_builder.py:35-39 | behind text without blanks a run of blanks and tabs becomes one blank |
| Normalize.SanitizeFixpoints | app/prompt_builder.py:35-39 | sanitisation leaves a text alone if and only if it has no nulls, tabs, carriage returns, double blanks or outer whitespace |
| Normalize.SanitizedIsPromptText | app/prompt_builder.py:35-39 | every result is such a text, although line ends are rewritten after blanks are collapsed |
| Normalize.SanitizeIdempotent | app/prompt_builder.py:35-39 | sanitising twice is sanitising once |
| Prompt.RenderPrompt | app/prompt_builder.py:135-139 | the loop that collects the pieces and joins them is the rendering the laws are about |
| Prompt.RenderingLaw | app/prompt_builder.py:135-139 | for any contents the final strip removes one newline: the prompt is the blocks between blank lines, of length the sum of 2 names + content + 9, less 2 |
| Rendering.RenderInjective | app/prompt_builder.py:135-139 | a prompt determines names and contents of its sections when no name holds a bracket or newline and no content the end of its own section |
| Rendering.ForgedSection | app/prompt_builder.py:135-139 | otherwise one section of untrusted content can render as three, the middle one of any name |
| Prompt.SortFacts | app/prompt_builder.py:206-215 | both sorts order by trust and keep each level's original order and the total weight |
| Prompt.SortIsGrouped | app/prompt_builder.py:206-215 | both sorts are the three levels one after the other |
| Prompt.TruncateToBudget | app/prompt_builder.py:203-231 | the drop loop returns the first fit of the drop order, or the forced slice |
| Prompt.DroppingShortens | app/prompt_builder.py:210-221 | dropping one more section strictly shortens the prompt, whatever it contains |
| Prompt.KeepIsFinalStretches | app/prompt_builder.py:204-221 | no section is kept while one of higher trust is dropped, and within a level the later ones stay |
| Prompt.FinalStretchesAreKept | app/prompt_builder.py:204-221 | every choice of final stretches of the levels is one the loop would try |
| Prompt.TruncationIsOptimal | app/prompt_builder.py:203-221 | without a forced slice the result fits, is rendered from its sections, and no fitting choice of final stretches has more sections or a longer prompt |
| Truncation.TruncatedIsSelection | app/prompt_builder.py:203-231 | the result keeps nothing while something of strictly higher trust is dropped, and fits unless the slice is forced |
| Truncation.WholeLevelsStayWhole | app/prompt_builder.py:203-231 | every trust level that some selection within the budget keeps whole, the result keeps whole |
| Truncation.KeepsMostExactly | app/prompt_builder.py:203-231 | at every budget the result keeps as many sections as any fitting selection that respects trust if and only if in no level a section is followed by a longer one |
| Truncation.SmallSectionLost | app/prompt_builder.py:206-231 | a list of two untrusted sections, which build itself does not make, of which only the first fits: the slice is forced |
| Truncation.SmallSectionLostExample | app/prompt_builder.py:206-231 | an instance: a one-character section in front of a thousand characters, with a budget of 100 |
| Truncation.UserInputLost | app/prompt_builder.py:203-291 | for any policy, task and user input and attachment metadata no shorter than the input: at the budget that policy, task and input need, the input is dropped |
| Prompt.LastDropWasNeeded | app/prompt_builder.py:210-221 | putting back the section dropped last would exceed the budget |
| Prompt.ForcedSliceExactly | app/prompt_builder.py:223-231 | the slice is forced exactly when there is no section or not even the last remaining one fits |
| Prompt.SlicedText | app/prompt_builder.py:223-231 | when no section is kept, the text is the beginning of the original one, of the length of the budget; a negative budget cuts off its end |
| Prompt.TruncationWithinBudget | app/prompt_builder.py:203-231 | the text is within the budget if and only if the budget is not negative |
| Prompt.OrderingViolations | app/prompt_builder.py:173-182 | the order check reports exactly the sections right after one of lower trust, and nothing if and only if the sections are in trust order |
| Prompt.BuiltAndTruncatedAreOrdered | app/prompt_builder.py:233-291 | the sections that build assembles, and those truncation keeps, pass the order check |
| Prompt.EnforcedBudgetHolds | app/chat_pipeline.py:222-246 | a built prompt is refused if and only if it is too long, the budget enforced and the mode not to truncate, truncated if and only if the mode is to truncate, and otherwise sent on as it is; under enforcement what goes upstream is within a non-negative budget |
| Prompt.EstimateAndFlags | app/prompt_builder.py:30-32 | the token estimate is a quarter of the length, at least 1, and the flags say whether a prompt was too long, truncated and sliced |
| Prompt.BuiltExactly | app/prompt_builder.py:233-291 | which sections build makes: policy and task always, the others exactly when their block is not empty, the assistant history never in restricted mode |
| Tools.DecisionIsPasses | app/tool_gateway.py:56-116 | the cascade decides exactly the items it does not fail on, allows exactly those that pass every check, and gives them their own name and sanitised arguments |
| Tools.RefusalReasonExactly | app/tool_gateway.py:62-110 | the reason of a refusal is the first of the eight checks that speaks against the item |
| Tools.SanitizedExactly | app/tool_gateway.py:118-125 | a text argument keeps what is left of it without nulls and outer whitespace, up to a thousand characters, and other values stay |
| Tools.SanitizedFixpoint | app/tool_gateway.py:118-125 | sanitising leaves a text alone if and only if it has no null, no outer whitespace and at most a thousand characters |
| Tools.SanitizedTwiceExactly | app/tool_gateway.py:118-125 | a second pass changes something if and only if the cut leaves whitespace at the end |
| Tools.EvaluateRequestedTools | app/tool_gateway.py:41-54 | one decision per item, in order, or an error exactly when some item cannot be decided |
| Tools.ExecuteAllowedTools | app/tool_gateway.py:159-205 | the loop over the items and the name-keyed map is the execution the lemmas are about |
| Tools.OneRecordPerItem | app/tool_gateway.py:41-205 | evaluation and execution complete if and only if every item is a dictionary, its name missing or a string, and its arguments, if they come to be searched, a dictionary; then there is one record per item, in order |
| Tools.NamesThatRaise | app/tool_gateway.py:62-68 | an item named 5 fails in evaluation, one named false in execution |
| Tools.MapKeepsLast | app/tool_gateway.py:165 | the entry of a tool name is the decision on the last item naming it |
| Tools.AllowedRecordsAreVetted | app/tool_gateway.py:159-205 | every allowed record carries the sanitised arguments of an item of the same tool that passed every check, even with repeated names |
| Tools.RecordFollowsLastRequest | app/tool_gateway.py:165-203 | what a record says and for which reason, in terms of the last item of its name |
| Tools.OwnArgumentsExactly | app/tool_gateway.py:41-205 | the tools run and allowed records carry their own item's arguments if and only if all items are runnable and items of one name that runs agree with the last of them |
| Tools.DistinctNamesOwnArguments | app/tool_gateway.py:41-205 | tools asked for once each run with their own arguments if and only if all items are runnable |
| Tools.RepeatedToolLosesArguments | app/tool_gateway.py:165-203 | a tool asked for twice with different arguments does not |
| Tools.RepeatedLookupExample | app/tool_gateway.py:165-203 | an instance with the registry's own lookup tool |
| Tools.DisabledToolsNeverRun | app/tool_gateway.py:75-76 | with tools disabled by the decision no record is allowed |

## Left out

- Rendering.RenderInjective: the condition is sufficient only. A content may hold the end of its own section and still be read in one way, if nothing that could open a section follows.
- HTTP, identity tokens, streaming, forwarding and the calls to language models: their results are arbitrary values.
- Pattern lists (injection, leakage, personal data, tool arguments) and the DLP detectors: arbitrary predicates or results, with no claim about which strings they match.
- SQL text, JSON encoding and file loading: tables are sequences and maps, documents are the records themselves, and a row is always readable.
- Retrieval filtering, DLP score summing, output-guard branching, audit events and decision logs: single loops or single branches.
- Alert reporting (`is_suspicious`, `recent_alerts`): it has no effect on decisions.
- Floating-point rounding: confidences, times and quotients are exact reals.
- Sessions.SessionManager.Save: session records are values here, so the sharing of one session object by concurrent requests of a session is modelled as reading the current record at each step, not as aliasing.
- Sessions.SessionManager.GetOrCreate: a generated identifier is a parameter that must be new, in place of a random one.
- Profiles.AttackerProfiler.RecordRefusal: a maximum of at least 1 is required.
- PolicyStep.PolicyServices.UntilGuard: with a store, only clients in use of which no two share a profile row; what the profiler does for others is in its own contract.
- GuardAnswer.GuardCallsBounded: the retry after a timeout and the redaction calls do not pass the call window in the code either. No rate bounds them: a retry goes out whenever its timeout comes, and redaction makes one call per text, so only first attempts are bounded.
- GuardAnswer.AnalysisIsWellFormed: covers any payload, also the one the keyword fallback builds from an answer that is not JSON; the rules of that fallback are left out.
- Encoding.LayersCounted: hexadecimal layers are an arbitrary decoder, since hexadecimal text can also be valid Base64.
- JsonExtract.PrintedObjectIsExtracted: any non-empty run of number characters may stand for a number, so more texts than section 6 of RFC 8259 allows are covered.
- Conditions of a rule are typed; a threshold of the wrong type, which raises in the code, is not modelled, nor is reloading the bundle. A rule's condition map is the sequence of its entries.
- The classifier's list of reasons, the features of classifier and risk engine, and the metadata of a prompt package other than the truncation flags.
- Redaction between rendering stages and the sensitive-keyword and contradiction checks of the prompt: pattern lists again.
- A value for the requested tools that is no list, which fails before the first item, and `suspicious_attempt_count`, which nothing writes.
