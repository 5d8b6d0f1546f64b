# The langgraph-lens decision engine in Dafny

langgraph-lens sits between an agent graph and the outside world and decides, call by call, what may
pass. This project models the part of it that decides: the token-bucket rate limiter, the circuit
breaker, the PII detector and redactor, the tool allow-list with its enumeration window, the
graph-communication monitor, the alert cooldown, the merging of decisions, and the decision paths of
the orchestrator that put these together (`decide_tool_call`, `decide_node` and `decide_checkpoint`). It
proves what these mechanisms keep over whole runs.

## How the model is built

Every stateful mechanism appears twice.

- As a *function of the complete log of calls*: `TokenBucket` and `RateLimiter.Granted`,
  `Breaker.After`, `ToolDetector.Fires`, `Comms.Fires`, `Alerts.Sends`, `Pipeline.Answer`. The laws are
  proved about these, for every log, by induction over it.
- As a *class in the form of the source*, with its deques, dictionaries and in-place updates
  (`RateLimiter`, `CircuitBreaker`, `ToolDetector`, `CommsDetector`, `AlertSender`, `Redactor`,
  `LensDecision`, `Lens`). Each carries a ghost log; each method is proved to answer as the function of
  that log does and to extend the log. So the laws hold of every run of the class.

The modules follow the source files. `Histories` (projection of an interleaved log to one key) and
`SlidingWindow` (the pruned deque is the filtered history) are shared by several of them; `Runs` has runs of
calls, nodes, checkpoints and reports through the whole pipeline. `Regex` has the regular expressions that
the built-in patterns (`Builtins`) need, with backtracking in order of preference; `SsnGuard`, `SsnOrders` and
`SsnLeaks` say which passes bring back what the pass for social security numbers removed. `Shapes`,
`PhoneShapes` and `AddressShapes` say of the text itself where the other patterns match, and `Detections` when a
type is reported. `BreakerLaws` and `PipelineLaws` state the outcome of whole operations in terms of events,
threads and configuration alone. The redactor works on a heap of dictionaries, which may be shared or cyclic;
`PyObjects` has `copy.deepcopy` for them.

Conventions: the clock is an argument, and methods whose deques rely on it require that it does not run
backwards; configurations are constants; floats are reals. Characters are abstract (`Characters`), so
that Unicode digits and word characters are covered; `Characters.AsciiIsSound` shows that what is asked
of them can be met.

## Where the code is not what one would expect

The model follows the code. The members named here say what happens.

- The breaker opens when the error share *reaches* the threshold, not only when it exceeds it
  (`Breaker.ResponseTripsExactly`).
- Closing the breaker does not clear the window of calls, so a successful response can open it again
  (`Breaker.SuccessCanReopen`; exactly when: `Breaker.ResponseTripsExactly`).
- Any response seen while half-open counts as the probe's, whoever it belongs to. `Breaker.Recovers` and
  `Runs.ReportUnlocks` say "some response" for that reason.
- A strong attack signal re-arms an open breaker. It is open for one cooldown iff no later signal alarms
  (`Breaker.OneCooldownIff`).
- A tool call takes the probe slot before the allow-list and the limiter are asked, and keeps it when they
  refuse the call; this is when: `Runs.RefusedCallTakesProbeIff`. From then on every tool call and every
  node is blocked until some outcome is reported, or a checkpoint, which is decided without asking the
  breaker, raises an alarm (`Runs.RefusedCallLocksOut`, `Runs.StaysLockedIff`).
- With a negative error window and no minimum of samples, `record_response` divides by zero; this is
  exactly when (`CircuitBreaker.CircuitBreaker.RecordResponse`).
- The `Retry-After` header is cut to whole seconds, so a client that follows it can come too early
  (`Decisions.DelayRounded`).
- The limiter's `retry_after` is right iff the cost fits the capacity and the refill rate is at least 1e-9
  (`TokenBucket.RetryAfterExact`).
- Nothing keeps the refill rate from being negative. Then, unless no call can be admitted at all, a denied
  call leaves a trace and more is spent than the curve allows (`RateLimiter.NoTraceIff`,
  `TokenBucket.ConformsIff`).
- Bucket keys do not escape `|`. Calls of different identity are kept apart iff at most one of tenant, thread
  and tool is keyed on (`BucketKeys.KeepsApartIff`). Otherwise a call shares its bucket with another one if a
  part of it contains what reads as the end of that part; calls without this are kept apart
  (`BucketKeys.KeyOwner`, `BucketKeys.KeysDistinct`).
- `merge` is not associative on the carried state (`Decisions.AssociativeIff`, and
  `Decisions.TwoStatesDependOnBrackets` for an instance). The pipeline has at most one operand with a
  state, where it is (`Decisions.MergeKeepsState`).
- A comment in the redactor speaks of BaseMessage-shaped messages. The code scans dictionaries only; every
  other message passes as it is (`RedactorLaws.VisitedIffScanned`).
- Deep copying keeps sharing, so a message that the list holds twice is scrubbed twice
  (`RedactorLaws.SharedMessageVisits`). Whatever the patterns are, a string comes out as one scrub leaves it
  iff it is visited once (`RedactorLaws.ScannedOnceIff`): a second scrub may change more, because a later pass
  can open a word boundary (`RedactorLaws.PassesNotIdempotent`, `RedactorLaws.SharedMessageDiffers`). With the
  social security number pattern alone it does not (`RedactorLaws.SsnScrubsStable`).
- In the order in which the redactor's patterns ship, a social security number glued to an international
  phone number is left in the open, because the phone pattern, alone of the built-in ones, is not anchored
  at word boundaries (`SsnLeaks.DefaultLeaks`). The orders without this are those in which the phone pattern
  does not come after the numbers without having come before them as well (`SsnLeaks.BuiltinsClearIff`). In
  general a pass reveals a number iff a piece that it leaves between its tags is or holds one
  (`SsnGuard.PassRevealsIff`); under orders that leave none, none is forwarded (`NodeLaws.NodeSeesNoSsn`).
- Detector and redactor agree on the built-in patterns (`PiiDetector.BuiltinReportedIffRedacted`). A custom
  pattern can match without the redactor noticing, on texts that have tags in them already
  (`PiiDetector.UnnoticedReplacement`).
- `decide_node` leaves the caller's state alone, except that with `stamp_state` a decision that carries no
  redacted copy is written into it; it raises when the entry to be written to is no dictionary
  (`Lens.Lens.DecideNode`).
- The findings of the interventions join an event after it was emitted, so they never cause an alert
  (`Lens.Lens.DecideToolCall`).

## Model

| member | source | states |
|---|---|---|
| TokenBucket.AdmittedIffFits | src/langgraph_lens/interventions/rate_limiter.py:54-68 | Exact conformance: a request is admitted iff, for every earlier-or-equal evaluation of its key, the cost admitted since then plus its own is at most capacity + refill * elapsed. No assumption on rates, costs or clock |
| TokenBucket.TokensBelowCurve | src/langgraph_lens/interventions/rate_limiter.py:54-68 | The lazily refilled level is at most what the curve started at any earlier evaluation still allows |
| TokenBucket.TokensOnCurve | src/langgraph_lens/interventions/rate_limiter.py:54-68 | and it equals one of them, so it is their minimum: the limiter never denies without need |
| TokenBucket.IntervalBound | src/langgraph_lens/interventions/rate_limiter.py:54-68 | The cost admitted in any time interval of any history is at most capacity + refill * length |
| TokenBucket.ConformsIff | src/langgraph_lens/interventions/rate_limiter.py:54-68 | For whole charges of at least one token, what is admitted in any interval of any history is at most the curve, or nothing where the curve is negative: this holds iff the refill rate is not negative or the capacity is below one. Otherwise one admitted token exceeds the curve once that has come down to zero |
| TokenBucket.ChargesBound | src/langgraph_lens/interventions/rate_limiter.py:54-68 | The bound itself, under that condition |
| TokenBucket.DeniedInvisible | src/langgraph_lens/interventions/rate_limiter.py:58-68 | Two capped refills compose: with or without a denied request, the bucket is the same at every later time, also when the request created it |
| TokenBucket.DeletionKeepsTokens | src/langgraph_lens/interventions/rate_limiter.py:50-68 | Deleting a denied request from anywhere in a history changes no later level |
| TokenBucket.DeniedRunInvisible | src/langgraph_lens/interventions/rate_limiter.py:54-68 | Any run of denied requests is invisible |
| TokenBucket.RetryAfterExact | src/langgraph_lens/interventions/rate_limiter.py:70-71 | A retry succeeds exactly from `retry_after` on, for all waits, iff the cost is at most the capacity and the refill rate at least 1e-9 |
| TokenBucket.RetryAfterExactDespiteDenials | src/langgraph_lens/interventions/rate_limiter.py:59-71 | The same delay stays exact when any other denied requests come in between |
| RateLimiter.DeniedCallsLeaveNoTrace | src/langgraph_lens/interventions/rate_limiter.py:50-68 | Over interleaved logs of all keys: deleting a throttled or blocked call leaves the answer to every later call as it was |
| RateLimiter.NoTraceIff | src/langgraph_lens/interventions/rate_limiter.py:58-64 | This holds of all logs of charges iff the refill rate is not negative or the capacity is below the minimum charge of one token |
| RateLimiter.NegativeRefillLeavesTrace | src/langgraph_lens/interventions/rate_limiter.py:59-64 | A log of charges where it fails: a denied first call pins the bucket's clock and makes a later call be denied |
| RateLimiter.NothingGranted | src/langgraph_lens/interventions/rate_limiter.py:59-66 | A call that costs more than the capacity is denied in every log |
| RateLimiter.OtherKeysIrrelevant | src/langgraph_lens/interventions/rate_limiter.py:50-68 | Calls on other keys can be deleted without effect |
| RateLimiter.SpendIsAdmitted | src/langgraph_lens/interventions/rate_limiter.py:54-68 | What the granted calls of a log cost on a key in an interval is what that key's own history admits there |
| RateLimiter.LedgerBound | src/langgraph_lens/interventions/rate_limiter.py:54-68 | On every key and in every interval the granted calls of a whole log stay under the curve, under the exact condition of ConformsIff |
| RateLimiter.AnswerTellsWhen | src/langgraph_lens/interventions/rate_limiter.py:66-100 | A call is refused, by 429 or by throttling as the mode says, iff its answer tells to wait; to wait that long is right for every wait iff the cost fits the capacity and the refill rate is at least 1e-9 |
| RateLimiter.CostOf | src/langgraph_lens/interventions/rate_limiter.py:112-115 | A call costs a whole number of tokens, the only one `c` for which `c - 1` divisors fit into the length of the arguments and `c` do not |
| RateLimiter.SizeDecides | src/langgraph_lens/interventions/rate_limiter.py:66-115 | Arguments as long as the capacity times the divisor cost more than the capacity; such a call is refused after every history, and a first call is refused for nothing else |
| RateLimiter.RateLimiter.TryTake | src/langgraph_lens/interventions/rate_limiter.py:54-68 | Refill and debit in place keep every bucket at the level that the complete log implies, and admit as the specification does |
| RateLimiter.RateLimiter.Refilled | src/langgraph_lens/interventions/rate_limiter.py:54-64 | Creates a full bucket or refills the key's own one; no other bucket changes |
| RateLimiter.RateLimiter.Evaluate | src/langgraph_lens/interventions/rate_limiter.py:39-100 | Decision, finding and log of one call: neutral and without trace when disabled, else the specification's answer after the log, at cost 1 + length / divisor |
| RateLimiter.RateLimiter.MakeKey | src/langgraph_lens/interventions/rate_limiter.py:102-110 | The key is that of the call's enabled, non-empty parts, or `global` |
| BucketKeys.OfCallIff | src/langgraph_lens/interventions/rate_limiter.py:102-110 | The identities that the model gives to calls are exactly those that a tool, thread and tenant can have under the configuration |
| BucketKeys.KeysDistinct | src/langgraph_lens/interventions/rate_limiter.py:102-110 | Clean calls share a bucket iff their identities are equal |
| BucketKeys.KeyOwner | src/langgraph_lens/interventions/rate_limiter.py:102-110 | The key of any call reads as the identity of a call with that key; it is the call's own iff no part contains, after its first character, what reads as the end of it. So a call that is not clean in this sense shares its bucket with a clean call of another identity |
| BucketKeys.KeysCollide | src/langgraph_lens/interventions/rate_limiter.py:102-110 | As soon as two parts are keyed on, two calls of different identity share a bucket |
| BucketKeys.KeepsApartIff | src/langgraph_lens/interventions/rate_limiter.py:102-110 | Calls of different identity never share a bucket iff at most one part is keyed on |
| BucketKeys.GlobalIsEmpty | src/langgraph_lens/interventions/rate_limiter.py:102-110 | Exactly the calls without any part have the key `global` |
| BucketKeys.OnePartDecides | src/langgraph_lens/interventions/rate_limiter.py:102-110 | Keyed on the tenant alone, two calls share a bucket iff they have the same tenant; so with the thread, the tool, or nothing |
| BucketKeys.SameParts | src/langgraph_lens/interventions/rate_limiter.py:102-110 | Calls that agree on every part keyed on share a bucket, whatever else they are |
| SlidingWindow.DropBefore | src/langgraph_lens/interventions/circuit_breaker.py:163-166 | The popleft loop keeps exactly the entries not older than the cutoff |
| SlidingWindow.Push | src/langgraph_lens/interventions/circuit_breaker.py:112-113 | Append and prune turn the window of a history into the window of the longer one |
| SlidingWindow.WindowStep | src/langgraph_lens/interventions/circuit_breaker.py:163-171 | Appending to the pruned deque and pruning again equals filtering the complete history |
| SlidingWindow.SinceTwice | src/langgraph_lens/interventions/circuit_breaker.py:163-171 | What an earlier cutoff dropped never matters to a later one |
| Breaker.ResponseTripsExactly | src/langgraph_lens/interventions/circuit_breaker.py:108-161 | From closed, a response opens iff the complete history of the window has enough samples and an error share at or above the threshold; unless the window is negative it holds the response itself, so the share never divides by zero |
| Breaker.AttackTripsExactly | src/langgraph_lens/interventions/circuit_breaker.py:126-143 | In any state, a signal opens or re-arms iff it meets the severity floor and enough signals of the window do; else nothing changes |
| Breaker.AttackRunOpensIff | src/langgraph_lens/interventions/circuit_breaker.py:126-143 | A run of attack signals opens the breaker iff one of them alarms; else the state is as it was |
| Breaker.OpenedByLastAlarm | src/langgraph_lens/interventions/circuit_breaker.py:65-143 | Whatever is requested, reported and signalled while no request is let through, an open breaker was opened by the last alarm, or has not moved if there was none |
| Breaker.OneCooldownIff | src/langgraph_lens/interventions/circuit_breaker.py:126-153 | An open breaker lets a request through exactly from one cooldown after it was opened on, iff no later signal alarms |
| Breaker.ProbeSlots | src/langgraph_lens/interventions/circuit_breaker.py:91-121 | In every reachable state half-open has exactly one probe in flight, closed none, and there are never two |
| Breaker.OpenEndsAtCooldown | src/langgraph_lens/interventions/circuit_breaker.py:147-153 | Open is left exactly by a request at or after opened_at + cooldown, and to half-open |
| Breaker.OpenHolds | src/langgraph_lens/interventions/circuit_breaker.py:65-93 | Over any run, nothing is admitted and the phase stays open until a cooldown has passed since it was opened |
| Breaker.HalfOpenWaitsForReport | src/langgraph_lens/interventions/circuit_breaker.py:91-121 | A half-open breaker refuses every request, however long it waits, until something is reported |
| Breaker.OpenedSince | src/langgraph_lens/interventions/circuit_breaker.py:65-153 | Without a closed state since a probe went out, an open breaker was opened at that time or later |
| Breaker.ProbesSpaced | src/langgraph_lens/interventions/circuit_breaker.py:65-153 | Two requests admitted with no closed state in between are at least a cooldown apart |
| Breaker.AdmittedInAll | src/langgraph_lens/interventions/circuit_breaker.py:65-104 | Every admitted request of a stretch is among those counted there |
| Breaker.ProbeRate | src/langgraph_lens/interventions/circuit_breaker.py:65-153 | At most 1 + floor(L / cooldown) requests are admitted in a stretch of length L without a closed state |
| Breaker.Recovers | src/langgraph_lens/interventions/circuit_breaker.py:115-153 | From every reachable state one clock advance, one request and one success lead to closed, and that request is admitted |
| Breaker.OpenRetryExact | src/langgraph_lens/interventions/circuit_breaker.py:71-82 | The `retry_after` of an open breaker is exact: refused requests do not move it, and the next request is admitted iff it waits that long |
| Breaker.SuccessCanReopen | src/langgraph_lens/interventions/circuit_breaker.py:155-179 | A run in which the probe's success closes the breaker and the next success opens it |
| BreakerLaws.OpenedAtEvent | src/langgraph_lens/interventions/circuit_breaker.py:173-175 | Whatever opens the breaker stamps it: if it was not open before an event and is after it, `opened_at` is the time of that event; while it is open only an alarm moves it |
| BreakerLaws.NothingForOneCooldown | src/langgraph_lens/interventions/circuit_breaker.py:65-153 | After any opening, by the responses, by a failed probe or by an alarm, nothing is admitted before one cooldown has passed since the event that opened it |
| BreakerLaws.ThenOneIsAdmitted | src/langgraph_lens/interventions/circuit_breaker.py:147-153 | The first request after that is admitted, if no signal came in between |
| BreakerLaws.ResponseTripsIff | src/langgraph_lens/interventions/circuit_breaker.py:108-161 | From closed, a response opens the breaker, at its time, iff the events of the log that lie in the window hold enough responses and the errors among them reach the threshold; else nothing changes |
| BreakerLaws.AttackTripsIff | src/langgraph_lens/interventions/circuit_breaker.py:126-143 | A signal opens or re-arms it, at its time, iff it and enough of the signals in the window, counted in the log, are as severe as the floor asks |
| BreakerLaws.GateTells | src/langgraph_lens/interventions/circuit_breaker.py:65-104 | A refusal is a block with 503 whose reason tells an open breaker from one that waits for its probe, and whose delay is the rest of the cooldown; an admission is neutral |
| CircuitBreaker.CircuitBreaker.EvaluateRequest | src/langgraph_lens/interventions/circuit_breaker.py:65-104 | Decision, findings and new state of the gate; neutral iff the state machine admits |
| CircuitBreaker.CircuitBreaker.RecordResponse | src/langgraph_lens/interventions/circuit_breaker.py:108-124 | The breaker is where its log leads, the call deque is the complete response history cut at now - window, and ZeroDivisionError is raised iff closed with a negative window and no minimum of samples |
| CircuitBreaker.CircuitBreaker.React | src/langgraph_lens/interventions/circuit_breaker.py:115-124 | The new state after a response, as the state machine has it for the current window |
| CircuitBreaker.CircuitBreaker.RecordAttackSignal | src/langgraph_lens/interventions/circuit_breaker.py:126-143 | The attack deque is the complete signal history cut at now - window, and the breaker is where its log leads; no effect unless enabled and fail-closed |
| CircuitBreaker.CircuitBreaker.AppendCall | src/langgraph_lens/interventions/circuit_breaker.py:112-166 | The pruned call deque is the window of the longer history; it is empty iff the window is negative |
| CircuitBreaker.CircuitBreaker.AppendAttack | src/langgraph_lens/interventions/circuit_breaker.py:130-171 | The same for the attack deque |
| CircuitBreaker.CircuitBreaker.MaybeTransitionFromOpen | src/langgraph_lens/interventions/circuit_breaker.py:147-153 | Open becomes half-open with a free probe slot iff the cooldown is over |
| CircuitBreaker.CircuitBreaker.ShouldTrip | src/langgraph_lens/interventions/circuit_breaker.py:155-161 | The second pruning changes nothing; trips iff there are enough samples with a share at or above the threshold |
| CircuitBreaker.CircuitBreaker.CountErrors | src/langgraph_lens/interventions/circuit_breaker.py:159 | Number of errors in the deque |
| CircuitBreaker.CircuitBreaker.CountStrong | src/langgraph_lens/interventions/circuit_breaker.py:137-141 | Number of signals in the deque at or above the floor |
| CircuitBreaker.Recent | src/langgraph_lens/interventions/circuit_breaker.py:155-166 | Pruning at the same instant again is the identity, and a window is empty after an entry iff its width is negative |
| Luhn.Check | src/langgraph_lens/detectors/pii.py:56-68 | The left-to-right loop accepts exactly the texts with at least 13 digits whose sum by the formula of Annex B of ISO/IEC 7812-1, from the right, is divisible by ten |
| Luhn.Checksum | src/langgraph_lens/detectors/pii.py:60-68 | Doubling by parity of the length, from the left, computes the sum defined from the right |
| Luhn.SeparatorIgnored | src/langgraph_lens/detectors/pii.py:57 | A character that is no digit can be inserted or deleted anywhere |
| Luhn.SingleErrorCaught | src/langgraph_lens/detectors/pii.py:60-68 | Changing one digit of a valid number makes it invalid |
| Luhn.TranspositionCaught | src/langgraph_lens/detectors/pii.py:60-68 | Swapping two neighbours keeps a number valid iff they are equal or are 0 and 9 |
| Luhn.CheckDigitUnique | src/langgraph_lens/detectors/pii.py:56-68 | Exactly one check digit completes any prefix of at least twelve digits |
| Luhn.LastTwoCount | src/langgraph_lens/detectors/pii.py:55-69 | Of a number of any length the last digit counts as it is and the one before it doubled, with the digits of the product added |
| SsnScrub.MatchesDisjoint | src/langgraph_lens/detectors/pii.py:19-22 | Two occurrences of the social security number pattern never overlap |
| SsnScrub.MatchesAreAll | src/langgraph_lens/detectors/pii.py:19-22 | The listed occurrences are exactly the positions where the pattern matches |
| SsnScrub.ScrubReplacesAll | src/langgraph_lens/interventions/pii_redactor.py:65-84 | The leftmost pass replaces every occurrence and keeps all other text in order |
| SsnScrub.Origin | src/langgraph_lens/interventions/pii_redactor.py:65-84 | Whatever in the output has the shape of a number was copied from the input, with its neighbours or a tag beside it |
| SsnScrub.ScrubLeavesNone | src/langgraph_lens/interventions/pii_redactor.py:65-84 | The output contains no occurrence: a tag opens no word boundary next to a digit |
| SsnScrub.ScrubTwice | src/langgraph_lens/interventions/pii_redactor.py:65-84 | A second pass is the identity |
| SsnScrub.ScrubChangesIffMatch | src/langgraph_lens/interventions/pii_redactor.py:80-84 | The pass changes a text iff the pattern occurs in it, so comparing texts notices exactly the hits |
| Characters.AsciiIsSound | src/langgraph_lens/detectors/pii.py:19-22 | The ASCII reading of digits, word characters and spaces meets what is asked of them |
| Regex.FoundMatches | src/langgraph_lens/detectors/pii.py:18-45 | The leftmost scan finds matches that are in order and do not overlap |
| Regex.MatchLocal | src/langgraph_lens/detectors/pii.py:18-45 | A pattern without lookaround matches or not depending on the characters matched alone |
| Regex.FoundIff | src/langgraph_lens/interventions/pii_redactor.py:68-84 | A pattern that does not match the empty text finds something iff it matches somewhere |
| Regex.FindAcross | src/langgraph_lens/interventions/pii_redactor.py:68-84 | A match that others cannot reach into is found, whatever is found before it |
| Builtins.SsnEnds | src/langgraph_lens/detectors/pii.py:19-22 | The regular expression for social security numbers, lookaheads and boundaries included, matches exactly where the hand-written predicate does |
| Builtins.SsnFound | src/langgraph_lens/detectors/pii.py:19-22 | and its scan finds exactly the occurrences that the laws about the scrub speak of |
| Builtins.NoBracketInMatch | src/langgraph_lens/detectors/pii.py:18-45 | No built-in pattern matches a text that contains an opening bracket |
| Shapes.CardMatches | src/langgraph_lens/detectors/pii.py:23-26 | The card pattern matches exactly the stretches between word boundaries with 13 to 19 digits, each followed by at most one blank or hyphen |
| Shapes.CardRun | src/langgraph_lens/interventions/pii_redactor.py:68-84 | In a text with one run of digits, set off by other than word characters and not followed by a separator, just that run is replaced, iff it has 13 to 19 digits and passes the Luhn check |
| PhoneShapes.PhoneUsMatches | src/langgraph_lens/detectors/pii.py:27-30 | The US phone pattern matches exactly the stretches between word boundaries with an optional country code, an area code whose first digit is not below two, and three and four digits, with optional separators and parentheses |
| PhoneShapes.PhoneIntlMatches | src/langgraph_lens/detectors/pii.py:31-34 | The international one matches exactly a plus and four groups of 1 to 3, 1 to 4, 3 to 4 and 3 to 4 digits with optional gaps |
| AddressShapes.EmailMatches | src/langgraph_lens/detectors/pii.py:35-38 | The e-mail pattern matches exactly a name, an at sign, a host, a dot and at least two letters, of the characters allowed there, between word boundaries |
| AddressShapes.OctetValue | src/langgraph_lens/detectors/pii.py:39-45 | One to three ASCII digits are part of an address iff their decimal value is at most 255 |
| AddressShapes.IpMatches | src/langgraph_lens/detectors/pii.py:39-45 | The address pattern matches exactly four such numbers with dots between them, between word boundaries |
| PiiDetector.PiiDetector.Scan | src/langgraph_lens/detectors/pii.py:99-132 | One finding per pattern with a match that counts, with number and first match, in the order of the patterns; nothing in a direction that is not watched |
| PiiDetector.PiiDetector.FindAll | src/langgraph_lens/detectors/pii.py:111-117 | The matches in order, card numbers only if the Luhn loop accepts them |
| PiiDetector.SubstituteChanges | src/langgraph_lens/interventions/pii_redactor.py:69-84 | Where the text does not already have the tag at a match that is not the tag, a pass leaves the text as it is iff all its matches are the tag itself |
| PiiDetector.ReportedIffRedacted | src/langgraph_lens/detectors/pii.py:111-117 | On such texts: a pattern is reported iff it has a match that counts, and its pass changes the text iff one of these is not the tag |
| PiiDetector.BuiltinReportedIffRedacted | src/langgraph_lens/detectors/pii.py:111-117 | For the built-in patterns, on every text: a type is reported iff the redactor's pass for it changes the text |
| PiiDetector.UnnoticedReplacement | src/langgraph_lens/interventions/pii_redactor.py:80-84 | A pattern and a text beyond that condition: the matches are not the tag, and replacing them gives the same text, so the hit is missed |
| PiiDetector.FindingIff | src/langgraph_lens/detectors/pii.py:99-132 | A finding is reported iff it is that of some pattern with a match that counts, with the number of these and the first of them |
| Detections.ReportedIffOccurs | src/langgraph_lens/detectors/pii.py:99-132 | Each built-in type but cards is reported, and replaced, iff something of its shape stands somewhere in the text |
| Detections.ReportedIffCounts | src/langgraph_lens/detectors/pii.py:99-132 | Every built-in type is reported, and replaced, iff a match is found that counts, which for cards means that it passes the Luhn check |
| Detections.RunFoundIff | src/langgraph_lens/detectors/pii.py:23-26 | In any text a run of digits with no word character and no separator beside it is one of the matches found iff it has 13 to 19 digits |
| Detections.ValidRunReported | src/langgraph_lens/detectors/pii.py:99-132 | If it passes the Luhn check as well, the text is reported and changed, whatever else it holds |
| Detections.RunReportedIff | src/langgraph_lens/detectors/pii.py:99-132 | With one run of digits in the text it is reported, and that run replaced, iff it has 13 to 19 digits and passes the Luhn check |
| PyObjects.DeepCopy | src/langgraph_lens/interventions/pii_redactor.py:61 | Every dictionary reachable from the state gets one fresh twin, connected as the original is, sharing and cycles included; the originals do not change |
| PyObjects.TranslateStable | src/langgraph_lens/interventions/pii_redactor.py:61 | A value copied early is not affected by twins made later |
| Redactor.Redactor.Scrub | src/langgraph_lens/interventions/pii_redactor.py:65-84 | The loop is the fold of all passes, and the hits are the passes that changed something |
| Redactor.NoHitNoChange | src/langgraph_lens/interventions/pii_redactor.py:82-84 | No hit means that the text is unchanged |
| Redactor.HitsIff | src/langgraph_lens/interventions/pii_redactor.py:65-85 | A name is hit iff some pass of that name changes what the passes before it left |
| Redactor.RewrittenStep | src/langgraph_lens/interventions/pii_redactor.py:87-105 | One visit scrubs one entry of one dictionary once more and nothing else |
| Redactor.NotedStep | src/langgraph_lens/interventions/pii_redactor.py:82-84 | and notes exactly the names hit there |
| Redactor.Redactor.WalkParts | src/langgraph_lens/interventions/pii_redactor.py:95-97 | Rewrites the copy at the text of the content parts, and nowhere else |
| Redactor.Redactor.WalkMessage | src/langgraph_lens/interventions/pii_redactor.py:91-97 | at the content of a message or its parts |
| Redactor.Redactor.WalkMessages | src/langgraph_lens/interventions/pii_redactor.py:87-97 | at each message, once per occurrence in the list |
| Redactor.Redactor.WalkFields | src/langgraph_lens/interventions/pii_redactor.py:99-105 | and at the string fields of the state other than `messages`, in whatever order the fields come |
| Redactor.Redactor.DetectionsOf | src/langgraph_lens/interventions/pii_redactor.py:110-118 | One finding per name hit, in Python's sorted order |
| Names.SortedIs | src/langgraph_lens/interventions/pii_redactor.py:110-118 | That order leaves no choice: it is the one in which every name precedes the later ones character by character |
| Redactor.Redactor.Evaluate | src/langgraph_lens/interventions/pii_redactor.py:55-138 | Writes to no object of the caller; the copy is fresh, has the same keys and the same structure, each string scrubbed once per visit and all else as copied; decision and findings follow from the names noted |
| RedactorLaws.OutcomeNamesHits | src/langgraph_lens/interventions/pii_redactor.py:107-138 | The decision is neutral iff nothing was noted, blocks iff configured so, carries the copy iff it redacts; exactly the names noted are triggers and findings, each once |
| RedactorLaws.VisitedIffScanned | src/langgraph_lens/interventions/pii_redactor.py:87-105 | The walk visits exactly the message contents, part texts and string fields |
| RedactorLaws.ScannedOnceIff | src/langgraph_lens/interventions/pii_redactor.py:61-105 | For any state: a scanned string becomes the fold of all passes, once per visit, and every other value is equal to the original; one fold it is for all lists of patterns iff the string is visited once |
| RedactorLaws.NoHitsPlainCopy | src/langgraph_lens/interventions/pii_redactor.py:107-108 | If no type is hit, no string changed |
| RedactorLaws.OncePerOccurrence | src/langgraph_lens/interventions/pii_redactor.py:87-97 | The content of a message is visited as often as the list holds the message |
| RedactorLaws.SharedMessageVisits | src/langgraph_lens/interventions/pii_redactor.py:61-97 | The same for the whole walk, and once more if the message is the state itself |
| RedactorLaws.SharedMessageDiffers | src/langgraph_lens/interventions/pii_redactor.py:61-97 | A state that lists one message twice, and two patterns, where the copied content is not the fold of all passes over the original, which would have left a number in the open |
| RedactorLaws.SsnPass | src/langgraph_lens/interventions/pii_redactor.py:65-84 | The redactor's pass for the built-in pattern is the scrub that the laws above are about |
| RedactorLaws.SsnScrubsStable | src/langgraph_lens/interventions/pii_redactor.py:65-84 | Scrubbing any number of times with that pattern alone is scrubbing once |
| SsnGuard.SubstituteIsCut | src/langgraph_lens/interventions/pii_redactor.py:65-84 | A pass cuts the text at the matches that it replaces, which for cards are those that pass the Luhn check, and puts a tag at each cut |
| SsnGuard.PassRevealsIff | src/langgraph_lens/interventions/pii_redactor.py:65-84 | After any pass over any text there is a social security number iff one of the pieces between the replaced matches, read on its own, holds one, or the tag does |
| SsnGuard.RespectfulKeeps | src/langgraph_lens/interventions/pii_redactor.py:65-84 | A pass whose replaced matches begin and end at word boundaries, and whose tag is no number, leaves a text without numbers free of them |
| SsnGuard.GuardedClears | src/langgraph_lens/interventions/pii_redactor.py:65-84 | When only such passes follow the one for the numbers, whatever comes before it, no number is left in any text |
| SsnGuard.AnchoredRespects | src/langgraph_lens/detectors/pii.py:18-45 | Of the built-in patterns all but the one for international phone numbers are such passes |
| SsnOrders.IntlPassLeavesNone | src/langgraph_lens/detectors/pii.py:31-34 | The pass for international phone numbers leaves none |
| SsnOrders.PassKeepsIntlOut | src/langgraph_lens/detectors/pii.py:18-45 | and no pass for a built-in pattern brings one about |
| SsnOrders.SafeFrom | src/langgraph_lens/interventions/pii_redactor.py:31-85 | So no number is left by built-in patterns in an order where the phone pattern does not come after the numbers, or comes before them too |
| SsnLeaks.PhonePassLeaks | src/langgraph_lens/detectors/pii.py:31-34 | The phone pattern's preferred match takes exactly the phone off a number glued to it, and the tag gives the number its word boundary |
| SsnLeaks.UnsafeLeaks | src/langgraph_lens/interventions/pii_redactor.py:31-85 | In every other order with the number pattern, that text comes out with the number in the open |
| SsnLeaks.BuiltinsClearIff | src/langgraph_lens/interventions/pii_redactor.py:31-85 | Whatever the selection and order of built-in patterns, they leave no social security number in any text iff the order is safe in that sense |
| SsnLeaks.DefaultLeaks | src/langgraph_lens/config.py:226-235 | The order that ships is not: a text from which it leaves the number in the open |
| SsnGuard.NoSsnForwarded | src/langgraph_lens/interventions/pii_redactor.py:61-138 | With passes that leave no number in any text, no scanned string of the redacted copy contains one, however it is shared, and none of the caller's state does when nothing was noted |
| RedactorLaws.PassesNotIdempotent | src/langgraph_lens/interventions/pii_redactor.py:67-85 | With the built-in pattern and the custom pattern `^x` after it, scrubbing is not idempotent: the tag of the later pass ends in a non-word character and reveals a number, which the next scrub finds |
| Decisions.LensDecision.MergeWith | src/langgraph_lens/interventions/decisions.py:61-80 | Returns one operand updated in place to the merged value; the other operand keeps its value, and both may be one object |
| Decisions.MergeTakesMaximum | src/langgraph_lens/interventions/decisions.py:61-80 | However many decisions are merged in whatever bracketing, action, reason, headers, status and delay are those of the leftmost decision of maximal rank, and the triggers are kept as a multiset |
| Decisions.StrictestWins | src/langgraph_lens/interventions/decisions.py:61-80 | However they are bracketed, the merged action is block iff one operand blocks, else throttle iff one throttles, else redact iff one redacts, and allow iff all allow |
| Decisions.MergeKeepsState | src/langgraph_lens/interventions/decisions.py:61-80 | With at most one state among them, it survives iff no blocking decision without it comes before it |
| Decisions.BracketingIrrelevant | src/langgraph_lens/interventions/decisions.py:61-80 | Two bracketings of the same decisions agree on everything but the order of triggers, given at most one state |
| Decisions.AssociativeIff | src/langgraph_lens/interventions/decisions.py:61-80 | The exact condition on ranks and states under which three merges keep the same state in both bracketings |
| Decisions.TwoStatesDependOnBrackets | src/langgraph_lens/interventions/decisions.py:78-79 | Three decisions, two with a state, where the brackets decide which one survives |
| Decisions.LensDecision.WithAuditHeaders | src/langgraph_lens/interventions/decisions.py:83-101 | Adds the headers in place, keeping those that are set; a neutral decision gets none |
| Decisions.StampTwice | src/langgraph_lens/interventions/decisions.py:83-101 | Stamping is idempotent |
| Decisions.HeadersAre | src/langgraph_lens/interventions/decisions.py:83-101 | Which header a stamped decision has and with what value: one that was set keeps its value, and where configured names coincide the first of marker, action, triggers and delay is held |
| Decisions.DelayRounded | src/langgraph_lens/interventions/decisions.py:99-100 | The delay is told in decimal digits that read as the whole seconds in it, so by less than one second too short |
| Decisions.HeadersIgnoreBracketing | src/langgraph_lens/interventions/decisions.py:83-101 | The headers do not depend on how the decisions were bracketed |
| ToolDetector.ToolDetector.Enumerate | src/langgraph_lens/detectors/tool.py:72-91 | Fires iff the set of tools called on the thread within the window, over the complete log, has at least as many members as the threshold; all deques stay the windows of their threads |
| ToolDetector.ToolDetector.Scan | src/langgraph_lens/detectors/tool.py:49-137 | All findings, in order, as a function of the log and the call |
| ToolDetector.FiresIff | src/langgraph_lens/detectors/tool.py:72-91 | The enumeration rule fires iff the log has, on the thread and since the cutoff, calls of at least as many different tools as the threshold says |
| ToolDetector.RulesReported | src/langgraph_lens/detectors/tool.py:49-137 | Each finding that a scan can report, and exactly when it does |
| ToolDetector.EarlierCallInvisible | src/langgraph_lens/detectors/tool.py:72-91 | A call does not count once its tool was called again on the thread |
| ToolDetector.SecondScanSuffices | src/langgraph_lens/detectors/tool.py:72-91 | When a call is scanned twice, the first scan can be deleted without effect on the second or on any later verdict on any thread |
| ToolDetector.RescanAgrees | src/langgraph_lens/lens.py:495-513 | Scanning the same call again at the same instant gives the same verdict |
| ToolDetector.OtherThreadsIrrelevant | src/langgraph_lens/detectors/tool.py:72-91 | Calls on other threads can be deleted without effect |
| ToolAllowlist.ToolAllowlist.Evaluate | src/langgraph_lens/interventions/tool_allowlist.py:32-74 | Decision and findings as a function of the detector's report: neutral, log only, or block with 403; the detector advances by one scan |
| ToolAllowlist.ToolAllowlist.Sift | src/langgraph_lens/interventions/tool_allowlist.py:55-58 | Exactly the findings whose rule is listed, in order, with their labels |
| ToolAllowlist.VerdictIff | src/langgraph_lens/interventions/tool_allowlist.py:45-74 | In block mode it blocks, with 403, iff the tool is not listed or some finding has a rule to block on; log mode never blocks and carries the same triggers; it is neutral iff nothing speaks against the call |
| ToolAllowlist.RelevantCount | src/langgraph_lens/interventions/tool_allowlist.py:55-58 | As many findings are kept as the report has findings with such a rule |
| ToolAllowlist.LabelsAre | src/langgraph_lens/interventions/tool_allowlist.py:45-58 | The triggers name the rule of each kept finding, in order |
| Topology.Dedupe | src/langgraph_lens/integrations/topology.py:79-87 | The loop with its set computes the list without repetitions |
| Topology.DedupedSameElements | src/langgraph_lens/integrations/topology.py:79-87 | which has the same elements |
| Topology.DedupedInOrder | src/langgraph_lens/integrations/topology.py:79-87 | each once, in the order of first occurrences |
| Topology.Targets | src/langgraph_lens/integrations/topology.py:53-62 | Edges from a branch to all its ends that are strings |
| Topology.ExtractTopology | src/langgraph_lens/integrations/topology.py:21-64 | Exactly the declared edges, direct or by a branch, each once |
| Comms.ReportsBadSteps | src/langgraph_lens/detectors/comms.py:41-52 | What is reported for a thread over any interleaved run is the list of undeclared steps of its own trace |
| Comms.BadStepsOfWalk | src/langgraph_lens/detectors/comms.py:41-52 | which is empty iff the trace is a walk in the graph |
| Comms.SilentIffWalk | src/langgraph_lens/detectors/comms.py:41-52 | So the monitor is silent on a thread iff the thread walks the declared graph |
| Comms.DedupedEdgesSuffice | src/langgraph_lens/integrations/topology.py:79-87 | Deduplicating the edges changes no verdict of the monitor |
| Comms.CommsDetector.Scan | src/langgraph_lens/detectors/comms.py:25-104 | All findings of a visit, in order, as a function of the log and the arguments |
| Comms.RulesReported | src/langgraph_lens/detectors/comms.py:41-103 | Each finding on a visit, and exactly when it is reported, in terms of the thread's trace, the declared edges and the limits |
| Comms.CommsDetector.CheckEdge | src/langgraph_lens/detectors/comms.py:41-52 | The last node per thread is enough to decide the edge rule, and stays the last of the thread's trace |
| Comms.CommsDetector.CheckTargets | src/langgraph_lens/detectors/comms.py:72-82 | One finding per Send target that no declared edge leads to |
| Comms.CommsDetector.KnownTarget | src/langgraph_lens/detectors/comms.py:74 | Whether some edge ends there |
| Alerts.AlertSender.MaybeSend | src/langgraph_lens/alerts.py:31-47 | The kinds that alert are those the log implies, in whatever order the set is iterated; the times of the last alerts follow the log |
| Alerts.LoggedIff | src/langgraph_lens/alerts.py:31-41 | An event counts for the cooldowns iff alerts are on, a webhook is set and some detector with findings alerts; it then counts for just those detectors |
| Alerts.LastSentIs | src/langgraph_lens/alerts.py:35-47 | The remembered time is that of the last event that alerted, or zero when there was none |
| Alerts.SendsSpaced | src/langgraph_lens/alerts.py:35-47 | Two alerts of one kind are at least a cooldown apart |
| Alerts.SuppressedIff | src/langgraph_lens/alerts.py:35-47 | A relevant event is suppressed iff an alert of its kind went out less than a cooldown ago, or none ever did and the clock itself is below one cooldown |
| Alerts.SendRate | src/langgraph_lens/alerts.py:35-47 | At most 1 + floor(L / cooldown) alerts of a kind in any interval of length L |
| Pipeline.AllowedIffAllAllow | src/langgraph_lens/lens.py:430-453 | The merged answer allows iff every stage that ran does, blocks iff one does, and keeps all triggers |
| Pipeline.AllowedIff | src/langgraph_lens/lens.py:488-509 | A tool call is allowed iff gate and allow-list let it pass and the limiter, if enabled, can afford it |
| Pipeline.DebitedIffAllowed | src/langgraph_lens/lens.py:488-520 | Conservation: exactly the cost of an allowed call is debited, once; a call stopped by gate or allow-list leaves the limiter's log as it was |
| Pipeline.StagesAllowOrBlock | src/langgraph_lens/lens.py:491-509 | Gate and allow-list only allow or block; the limiter allows iff it can afford the call or is disabled |
| PipelineLaws.ToolAnswer | src/langgraph_lens/lens.py:488-509 | The answer in terms of the breaker's state, the allow-list and the bucket: refused with 503, 403, or 429 or a throttle, by the first that refuses, and else allowed |
| PipelineLaws.OutsideListNeverAllowed | src/langgraph_lens/lens.py:488-509 | In block mode a tool outside the list is never answered `allow`, whatever the rest of the pipeline says |
| PipelineLaws.PricedIs | src/langgraph_lens/lens.py:504-509 | What a call is charged, when, and on whose bucket: keyed on one part, two calls share it iff they have that part in common |
| PipelineLaws.ToolCallHeard | src/langgraph_lens/lens.py:491-502 | The breaker hears the request, and then one attack, of the finding's severity, per finding to block on, iff it counts attacks and let the call through to an enabled allow-list |
| PipelineLaws.ScannedTwice | src/langgraph_lens/lens.py:495-513 | The second scan of a call at the same instant reports the enumeration as the first did |
| PipelineLaws.GuardReaches | src/langgraph_lens/lens.py:439-447 | With a thread, and let through by the breaker, a node gets the guard's verdict and triggers, its findings are reported, and the breaker hears one attack per finding iff it counts attacks |
| PipelineLaws.GuardBlocks | src/langgraph_lens/lens.py:439-453 | A guard that blocks blocks the node, with its own reason and status, whatever the redactor would do; its triggers are always reported |
| PipelineLaws.GuardIgnored | src/langgraph_lens/lens.py:433-447 | Without a thread, or refused by the breaker, the guard is not asked: two different verdicts give the same decision, findings and signals |
| PipelineLaws.RedactorDecides | src/langgraph_lens/lens.py:449-453 | When breaker and guard allow, the node is redacted, or blocked with 400 in block mode, iff the redactor is enabled and noted something |
| Runs.HoldsProbeIff | src/langgraph_lens/lens.py:430-453 | In any state of the breaker: a tool call or node leaves it half-open, its probe out, iff it was half-open, or open and due, and no finding of the call alarms; the answer does not matter |
| Runs.RefusedCallTakesProbeIff | src/langgraph_lens/lens.py:488-509 | A tool call that is not allowed takes the probe slot iff the breaker was open and due, the allow-list blocked the call or the limiter could not afford it, and none of its findings alarmed |
| Runs.RefusedCallTakesProbe | src/langgraph_lens/lens.py:488-509 | A family of runs where this happens: one error, one cooldown, one call that finds no token |
| Runs.HalfOpenLocks | src/langgraph_lens/lens.py:430-509 | A half-open breaker blocks every tool call and every node and is not moved by them, and no bucket is touched |
| Runs.MovesIffDisturbed | src/langgraph_lens/lens.py:412-567 | Any turn moves a half-open breaker iff it is a report or a checkpoint whose findings alarm |
| Runs.LockedUntilDisturbed | src/langgraph_lens/lens.py:412-567 | Over any run of tool calls, nodes and checkpoints without a report and without an alarm raised by a checkpoint, however long, every tool call and node is blocked and the breaker stays as it is |
| Runs.StaysLockedIff | src/langgraph_lens/lens.py:412-567 | The breaker stays half-open throughout a run iff no turn of it reports or alarms |
| Runs.RefusedCallLocksOut | src/langgraph_lens/lens.py:412-567 | So after a refused call that took the slot every tool call and node is blocked until a report, or an alarm of a checkpoint |
| Runs.ReportUnlocks | src/langgraph_lens/lens.py:559-567 | A report ends it: a success closes the breaker, an error opens it |
| Lens.AllowedCallsBounded | src/langgraph_lens/lens.py:488-520 | End to end: the calls ever answered `allow` obey the limiter's interval bound on every key, for a refill rate that is not negative or a capacity below one |
| Lens.Lens.DecideToolCall | src/langgraph_lens/lens.py:479-520 | Answer, event, alerts and all logs of one call; the ledger of allowed calls stays equal to what the limiter granted |
| Lens.Lens.AllStages | src/langgraph_lens/lens.py:488-509 | The stages in order, each only while none before it blocks, change the logs as the pipeline function says |
| Lens.Lens.GateStage | src/langgraph_lens/lens.py:491-493 | The gate's decision, merged |
| Lens.Lens.AllowlistStage | src/langgraph_lens/lens.py:495-502 | The allow-list's decision, merged, and one attack signal per finding |
| Lens.Lens.LimitStage | src/langgraph_lens/lens.py:504-509 | The limiter's decision, merged, and one more call in its log |
| Lens.Lens.LaterStages | src/langgraph_lens/lens.py:495-509 | The limiter is not asked after a block by the allow-list |
| Lens.Lens.Finish | src/langgraph_lens/lens.py:511-520 | The stages' findings are appended to the event already emitted; the decision gets its headers |
| Lens.Lens.InspectToolCall | src/langgraph_lens/lens.py:323-357 | One scan of the call without allow-list, emitted |
| Lens.Lens.Emit | src/langgraph_lens/lens.py:596-611 | Each thread's buffer holds the last 256 events of its complete history; the findings alert |
| Lens.LatestKept | src/langgraph_lens/lens.py:107-110 | What is kept of a thread's events are the last 256, in order, or all of them when there are fewer |
| Lens.AlertedIff | src/langgraph_lens/lens.py:596-611 | The findings of an event alert iff alerts are on and one of them comes from a detector that alerts |
| Lens.Lens.SignalAttacks | src/langgraph_lens/lens.py:446-447 | The breaker hears one signal per finding, in order |
| Lens.Lens.RecordUpstreamResult | src/langgraph_lens/lens.py:559-567 | The breaker hears the outcome and nothing else changes, as in a run; raises exactly as the breaker does |
| Lens.Lens.DecideCheckpoint | src/langgraph_lens/lens.py:522-557 | The protector's verdict, merged and stamped; one attack signal per finding, whatever the breaker's state; the event is emitted if checkpoints of its direction are inspected |
| Lens.Lens.CheckpointStage | src/langgraph_lens/lens.py:533-541 | The verdict merged, and the signals |
| Lens.Lens.InspectCheckpoint | src/langgraph_lens/lens.py:268-317 | An event with the findings of Tier 1, emitted, or an empty one that is not |
| Lens.Lens.NodeGate | src/langgraph_lens/lens.py:433-447 | Breaker and goal guard, which is asked only if the gate let the request through and there is a thread |
| Lens.Lens.NodeStages | src/langgraph_lens/lens.py:433-453 | Breaker, goal guard and redactor, each only while none before it blocks |
| Lens.Lens.InspectNode | src/langgraph_lens/lens.py:171-242 | The first node inspected scans the attack surface, whose findings may alert before those of the node; the node's event is emitted with its Tier 1 findings |
| Lens.Lens.NodeDecision | src/langgraph_lens/lens.py:433-457 | The merged decision and the state that will be forwarded |
| Lens.ForwardedState | src/langgraph_lens/lens.py:455-457 | The only state that a decision carries is the redacted copy; it is never empty, so the `or` forwards it, and it shares nothing with the caller's state |
| Lens.Lens.StampState | src/langgraph_lens/interventions/audit.py:40-55 | Merges the four entries into the state's `__lens__` dictionary or a fresh one and changes nothing else; raises iff that entry exists and is no dictionary |
| Lens.Lens.StampAll | src/langgraph_lens/lens.py:472-477 | Of all the dictionaries of the state to be forwarded only its `__lens__` entry, or the dictionary there, changes, and only if a stamp is made |
| Lens.Lens.NodeForward | src/langgraph_lens/lens.py:459-477 | Emits the event and stamps the forwarded state; every dictionary of it holds what it held before, but for that stamp |
| Lens.Lens.DecideNode | src/langgraph_lens/lens.py:412-477 | Answer, event, alerts and logs of one node. With a redacted copy, the caller's state is untouched and every dictionary of the copy is as the redactor made it; without, the caller's state is forwarded as it was; either way but for the `__lens__` entry of a stamp, which is exact |
| NodeLaws.CarriesIffNoted | src/langgraph_lens/lens.py:449-457 | A decision that does not block carries the copy iff the redactor noted something |
| NodeLaws.NodeSeesNoSsn | src/langgraph_lens/lens.py:412-477 | End to end: with passes that leave no number in any text, no scanned string of what the node is given contains one, be it the copy or the caller's state, stamped or not, except in a dictionary the stamp is written to |

## Left out

- Rounding of floats: times, tokens, costs and shares are reals.
- A clock that runs backwards, where deques are pruned by time; the token bucket itself is modelled without that assumption.
- Thread interleaving inside one method: methods are atomic steps.
- Regular expressions beyond those of the built-in patterns: a custom pattern is any function that lists leftmost non-overlapping spans. Custom patterns with groups, for which `findall` returns the groups, are not modelled; nor are empty matches in `Regex`, which no built-in pattern has.
- Characters that `isdigit` accepts and `int` rejects, for which the Luhn loop raises.
- Identity of lists: lists are values, so a list that is shared, or that contains itself, is not distinguished from its copies. Decisions do not share their lists of triggers.
- Dictionary keys that are not strings, and objects other than dictionaries, lists and strings, which are opaque values.
- The free-form `extra` payload of findings.
- JSON serialisation: a tool call carries the serialised text of its arguments, whose length sets the cost.
- The goal guard, the Tier 1 detectors of the node path and the attack-surface scan: their verdicts and findings are inputs; the guard's decision carries no state, as in the source.
- Send targets, state sizes and recursion depth: inputs of the communication monitor.
- The text of the audit header that lists the triggers: any rendering of their set.
- One clock reading stands for those taken within one stage, such as the attack signals of one list of findings.
- The checkpoint protector's rules and HMAC, and the goal-hijack, memory, SQL, supply-chain and attack-surface detectors: lists of opaque rules or branch-level checks. The protector's verdict is an input.
- Lens.Lens.StampState: an entry `__lens__` that is no dictionary but has an `update` of its own, such as a set, does not raise in the source; here it counts as no dictionary.
- Metrics, tracing, Slack delivery, event files, the command line, YAML loading, callbacks and monkey-patching of savers: I/O and library plumbing. A webhook that fails to deliver is not distinguished from one that does.
- Run and correlation ids, state hashes and timestamps of events.
- Backslashes in the name of a custom pattern: `re.sub` expands them in the replacement text, which is taken literally here.
