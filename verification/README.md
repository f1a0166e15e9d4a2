# Gateway verification

A Dafny model of the stateful parts of the repository, with proofs about all inputs, all runs and all
interleavings:

- **The token ledger and its reservation protocol** (`Ledger*`, `Router*`, `OvertakenReading`,
  `Tokens`): a sliding-window table of usage rows, the limiter that reads and writes it one SQL
  statement at a time, and the request coroutine around it, whose storage calls keep running when the request is cancelled. The
  protocol is a step system: any number of requests, a shared table, a clock, and an adversary that
  may cancel at every `await`. The estimator is included because a reservation bounds spend only if
  it covers the cap that is forwarded.
- **The streaming redactor** (`Validators`, `Spans`, `Scan`, `Rescue`, `FixedPoint`, `Redactor`,
  `Streaming`): the regular-expression engine is abstract, and only assumed to answer with a
  non-empty match inside the bounds it was given. The scan with its validator veto, overlap
  resolution, the rescue loop, the hold-back and the emission are modelled in full on top of it.
- **Chunk invariance** (`ChunkInvariance`, `ForwardEngine`, `Reanchoring`, `RescuePasses`, `ClearTexts`,
  `GluedPairs`, `StrayDigits`): proved for every scanner that looks back no further than the carried
  context and whose hold index is sound, and discharged for the separated-SSN and bare-card-number
  branches of the pattern table: without re-anchoring on every text, and with it on every text in which
  no card number is buried deep in another number and no value is glued to the next. For both kinds of
  text that are excluded, a family of streams is given whose output, with these two branches, does
  depend on the cut.
- **The redactor pool** (`Pool`, `PoolRuns`, `RedactorPool`): many streams in one response, keyed by
  the path and the declared choice index of each string.
- **The Server-Sent Events decoder and encoder** (`Sse`, `SseDecoder`, `SseRoundTrip`).

Code that works step by step is a class or a method with loops, proved equal to a declarative
function; the properties are then proved about the function. `MapSum`, `JsonTree` and `Wrappers` are
shared vocabulary. `dafny verify dfyconfig.toml` checks everything.

## What the proofs found

- The retry hint is one millisecond short. A row counts while its stamp is at least `now - window`,
  so at exactly the hinted instant the request is still refused; every later instant admits it, whatever
  other tenants and evictions do meanwhile.
- The guard inside `_emit` that caps the hold index is dead code: the hold-back search already starts
  within the bound. Pushing past a straddling span only shortens what is held.
- The sliding-window limit survives statements that commit out of clock order, with one exception. `now`
  is read before the write lock, and an admission whose reading an eviction with a newer one has overtaken
  cannot see the evicted rows its window still covers. Those hidden tokens, less what it sees of rows
  stamped after it, are exactly what it can let in too much; one millisecond is enough to double the limit.
- A negative completion cap times a negative count can exceed the reservation. Neither is covered by the
  estimator, which counts positive values only.
- `encode_sse` writes one `data:` line, so an event survives the wire exactly when no field holds a
  line break.
- With re-anchoring, the output of a stream can depend on how it was cut, in the pattern table made of the
  separated-SSN and bare-card branches alone, in two ways. A rescued value bounds the gap before it, and
  rescanning that gap accepts a value that ends where the next one begins, although in the whole text a
  digit follows it; the hold-back does not wait for that second value. It happens for every two SSNs with
  nothing between them. And stray digits are counted from the release point, not from where the number
  begins: a card number more than three digits deep in a run with a separator is looked at only if enough
  of the digits before it were released. It happens for every 16-digit card number behind five nines,
  `99999` and the number and ` x`: fed at once it is let through, cut behind the number it is replaced.
  In the shipped table the hold-back keeps more: the email branch matches partially from the start of a
  token of letters, digits and `._%+-`, up to 128 characters. There that last stream, and a pair of SSNs
  written with `-`, `.` or `_` only, should not come apart; nothing in the email branch holds back a pair
  written with blanks. The shipped table as a whole is not modelled.
- In the table of those two branches, on every text with no card number buried that deep and no value glued
  to the next, the output is the same for every cut, re-anchored values included: a card number behind a
  stray digit, or anywhere in a number of up to 25 digits that no separator touches, an SSN behind a zero,
  any text of at most sixteen digits.

Where the code and its documentation differ the code is modelled: the decoder emits an unterminated
final block and strips every leading byte-order mark, which sections 9.2.5 and 9.2.6 of the WHATWG
HTML Standard do not.

## Model

| member | source | states |
|---|---|---|
| SseDecoder.SSEDecoder.constructor | task3_streaming_guardrail/sse.py:41-46 | a new decoder stands for the empty stream |
| SseDecoder.SSEDecoder.Feed | task3_streaming_guardrail/sse.py:48-77 | whatever was fed before and however it was cut, the fields keep standing for all of it; the events returned are exactly those finished by this chunk; a chunk is refused exactly when the buffer with its settled part passes the cap, before any splitting |
| SseDecoder.SSEDecoder.SplitEvents | task3_streaming_guardrail/sse.py:75-77 | the splitting loop takes every finished block, in order, and leaves no blank line behind |
| SseDecoder.SSEDecoder.Flush | task3_streaming_guardrail/sse.py:79-88 | what is left comes out as one last block, after a refused feed too; after accepted feeds all events ever yielded are exactly the meaning of the whole text |
| SseDecoder.ParseLines | task3_streaming_guardrail/sse.py:90-112 | the one-pass block parser equals the declarative reading: all `data` lines joined, last value of every other field |
| SseDecoder.DecodeChunks | task3_streaming_guardrail/sse.py:48-88 | chunk invariance: one feed per chunk and a flush yield what the concatenated text means, for every cut; a stream within the cap is never refused |
| SseDecoder.FlushIsTheRest | task3_streaming_guardrail/sse.py:79-88 | `flush` never looks for a blank line and need not: a held-back CR can complete one only at the very end |
| SseDecoder.ChunkSettles | task3_streaming_guardrail/sse.py:49-68 | BOM stripping and the held-back CR settle exactly the text that no later character can change |
| SseDecoder.BlankRemainder | task3_streaming_guardrail/sse.py:85-88 | skipping a remainder of white space loses no event |
| SseText.NormaliseConcat | task3_streaming_guardrail/sse.py:62-68 | line ends may be normalised piecewise exactly where no CR LF pair is cut in two |
| SseText.BlocksConcat | task3_streaming_guardrail/sse.py:75-77 | splitting a prefix at blank lines and going on with its open rest is splitting the whole |
| SseRoundTrip.EncodeSse | task3_streaming_guardrail/sse.py:115-127 | the encoder writes one line for each present field, absent and empty kept apart |
| SseRoundTrip.RoundTrip | task3_streaming_guardrail/sse.py:48-127 | every sequence of events without line breaks survives encoding and decoding |
| SseRoundTrip.DecodeEncoded | task3_streaming_guardrail/sse.py:48-127 | the same through the decoder object, under every chunking within the cap |
| SseRoundTrip.RoundTripExactly | task3_streaming_guardrail/sse.py:115-127 | a sequence of events survives the wire if and only if no field of any of them contains CR or LF |
| SseRoundTrip.BrokenEventIsLost | task3_streaming_guardrail/sse.py:48-127 | whatever follows it, an event with a CR or LF in any field never comes back first: a broken datum because the encoder writes one `data` line, every other break because no decoded field holds one |
| Ledger.Charge | task4_model_router/limiter.py:295-308 | a charge equals every report that is not negative and covered by the hold or by twice the limit, nothing for a negative one, and the larger of the two bounds for anything above both |
| Ledger.TokenRateLimiter.constructor | task4_model_router/limiter.py:116-143 | an empty ledger with the window in milliseconds |
| Ledger.TokenRateLimiter.EvictExpired | task4_model_router/limiter.py:201-208 | one bounded batch of rows strictly older than the cutoff goes, and nothing else |
| Ledger.TokenRateLimiter.TryReserve | task4_model_router/limiter.py:189-247 | one eviction, then admission exactly when the rows since the cutoff leave room; refused requests leave no row and get the hint of the first covering row |
| Ledger.TokenRateLimiter.RetryAfter | task4_model_router/limiter.py:249-286 | the whole window for a request above the limit, else the wait until the first covering row ages out |
| Ledger.TokenRateLimiter.FirstCovering | task4_model_router/limiter.py:273-280 | the least stamp whose running total reaches the deficit, or none exists |
| Ledger.TokenRateLimiter.Settle | task4_model_router/limiter.py:288-339 | the figure returned is the clamped one and is what the row then holds, updated or re-inserted stamped now |
| Ledger.TokenRateLimiter.Release | task4_model_router/limiter.py:341-346 | the hold's row goes and no other |
| Ledger.TokenRateLimiter.Usage | task4_model_router/limiter.py:348-358 | the sum of the tenant's rows since the cutoff |
| Ledger.RunningAttained | task4_model_router/limiter.py:273-280 | a running total that reaches a deficit reaches it at the stamp of some row |
| Ledger.CoveringExists | task4_model_router/limiter.py:281-285 | the fallback for no row is unreachable |
| Ledger.ExactRetryHint | task4_model_router/limiter.py:220-286 | on an unchanged table a refused request is admitted at an instant if and only if it lies strictly after the chosen stamp plus the window |
| LedgerRuns.RetryHintOverRuns | task4_model_router/limiter.py:189-286 | the same after any statements of other tenants and any evictions read no later than that instant, whichever batches they take |
| Ledger.NeverFits | task4_model_router/limiter.py:269-272 | a request above the limit is refused at every instant |
| LedgerRuns.ErasesToTable | task4_model_router/limiter.py:189-358 | the history used for counting never influences the table |
| LedgerRuns.AdmissionHolds | task4_model_router/limiter.py:189-241 | whatever order statements commit in, as long as no eviction overtook an admission's reading, tokens let in by admission in any window of any tenant stay within the limit, evicted rows included |
| LedgerRuns.OverrunBound | task4_model_router/limiter.py:189-346 | under the same condition spend in any window is at most the limit plus the settle excesses and late re-recorded charges read off the statements |
| LedgerRuns.WindowSafety | task4_model_router/limiter.py:189-346 | under the same condition, with no settle above its hold and none after its row was evicted, no window ever exceeds the limit |
| LedgerRuns.OverrunIsRecorded | task4_model_router/limiter.py:288-336 | what a window holds beyond admission is at most the overruns of the statements, and exactly that when every row settles once |
| LedgerRuns.AdmissionCounts | task4_model_router/limiter.py:189-241 | after an admission its window holds what the reading saw and what was let in, plus what evictions hide from it, less what it saw of rows stamped later |
| LedgerRuns.AdmissionSafeExactly | task4_model_router/limiter.py:189-241 | on any table, every request a reading admits leaves its window within the limit if and only if it admits none, or evictions hide no more tokens from it than it sees of rows stamped later |
| LedgerRuns.OnlyOvertakingHides | task4_model_router/limiter.py:190-218 | only an eviction issued with a newer reading can hide tokens from a window |
| LedgerEviction.SameAnswerExactly | task4_model_router/limiter.py:191-218 | an admission or a reading differs from that of a table with more rows exactly when the missing rows carry tokens in its window |
| LedgerEviction.TransparentExactly | task4_model_router/limiter.py:191-218 | in a run without late writes all answers are those of a ledger that never evicts if and only if no window asked about misses tokens |
| LedgerEviction.EvictionIsTransparent | task4_model_router/limiter.py:191-218 | with no admission or reading overtaken by an eviction, every admission, every `used_in_window` and every reading equals that of a ledger that never evicts |
| LedgerEviction.BatchChoiceIsInvisible | task4_model_router/limiter.py:201-208 | under the same condition, which expired rows a batch takes is never observable |
| OvertakenReading.OvertakenReadingDoubles | task4_model_router/limiter.py:190-218 | the condition is needed: for every limit and window there is a schedule of three requests, with no settle, in which a reading overtaken by one millisecond doubles the limit inside one window |
| Router.Classify | task4_model_router/router.py:283-412 | each outcome from the answer it stands for: deadline, transport, 429, the caller's errors, usable and unusable 2xx bodies, and everything else the provider's |
| Router.AttemptProviders | task4_model_router/router.py:204-281 | providers are tried in order up to the first success or caller error; the failure reported names all-timeout and all-rate-limited |
| Router.AdvanceIsSound | task4_model_router/router.py:129-230 | every step of the coroutine and of its independent storage tasks keeps the reconciliation invariant, cancellations at every await included |
| Router.RunsAreSound | task4_model_router/router.py:113-202 | the invariant holds in every state of every interleaving of any number of requests |
| Router.ExactlyOnce | task4_model_router/router.py:129-202 | a hold is never both settled and released nor either twice, a request marked settled is never released, and at rest each granted hold has had exactly one of the two, orphans included |
| Router.StepsRunOut | task4_model_router/router.py:113-202 | every enabled step lowers what is left of its request |
| Router.SchedulesEnd | task4_model_router/router.py:113-202 | in any schedule at most fifty steps and one for each provider ever happen for each request, cancellations included |
| Router.NeverStuck | task4_model_router/router.py:113-202 | a request not at rest can always move without a cancellation |
| RouterSpend.RowsMatchStep | task4_model_router/limiter.py:314-346 | a row is a full unsettled hold or the recorded charge of its request, in every reachable state |
| RouterSpend.RecordedStep | task4_model_router/limiter.py:314-346 | each step records exactly the charge it makes |
| RouterSpend.LedgerTracksCharges | task4_model_router/limiter.py:314-346 | at every moment of every run the settled rows, evicted ones included, sum to what requests were charged |
| RouterSpend.ChargedIsOwed | task4_model_router/router.py:165-187 | at rest a request was charged the clamped usage of its success, its whole hold after an unusable response, or nothing |
| RouterSpend.LedgerEqualsSpend | task4_model_router/router.py:165-230 | at quiescence each tenant's ledger is exactly what its requests owe and no unsettled hold is left |
| RouterSpend.ChargesAreClamped | task4_model_router/limiter.py:295-308 | in every reachable state a granted hold fits the limit and no charge exceeds twice the limit |
| RouterSpend.TwoStatementSettle | task4_model_router/limiter.py:314-336 | the update and the late insert act as one atomic settle, whatever runs between them |
| RouterSpend.OtherTenantsUntouched | task4_model_router/limiter.py:189-346 | a step of one tenant's request changes another's usage only by the tokens of the rows an eviction takes, and not at all in windows that start at or after the eviction's cutoff |
| RouterSpend.ScheduleIsARun | task4_model_router/router.py:113-230 | what any schedule does to storage is a legal run of the ledger in which every row settles at most once |
| RouterSpend.GatewayWindowBound | task4_model_router/router.py:113-230 | for whole gateways, in every interleaving in which no eviction overtakes an admission's reading: the overrun bound, and spend is exactly what was let in plus the recorded overruns |
| Tokens.TokensOfLength | task4_model_router/tokens.py:71-78 | 3.6 characters a token, rounded up and never more than one token over |
| Tokens.DumpsKeepsText | task4_model_router/tokens.py:101-108 | serialising a subtree keeps at least all its text |
| Tokens.NoShapeHidesText | task4_model_router/tokens.py:81-135 | 18 times the walk is at least 5 times all characters of strings, keys and numbers, at every depth, past the depth limit included |
| Tokens.EstimateRequestTokens | task4_model_router/tokens.py:160-188 | the estimate is the prompt part plus the largest cap times the largest count, and at least one |
| Tokens.Largest | task4_model_router/tokens.py:174-187 | an upper bound of all integers among the fields that is attained when above its floor |
| Tokens.ReservationCoversCap | task4_model_router/tokens.py:170-188 | each forwarded integer cap, times the completions reserved for, fits in the reservation beside the prompt, and some cap is always forwarded |
| Tokens.CapIsReserved | task4_model_router/router.py:287-304 | the injected cap and every cap the caller sent are at most the ceiling reserved |
| Tokens.NegativeCapsEscape | task4_model_router/tokens.py:173-187 | a negative cap times a negative count can exceed the reservation |
| Tokens.ActualTokens | task4_model_router/tokens.py:197-223 | the total if it is a sane count, else the sum of prompt and completion if both are, each clamped, else the reservation |
| Validators.LuhnCheck | task3_streaming_guardrail/redactor.py:188-206 | the loop over reversed digits computes the checksum over 13 to 19 digits |
| Validators.SubstitutionCaught | task3_streaming_guardrail/redactor.py:188-206 | every single-digit substitution is rejected, at every accepted length |
| Validators.TranspositionCaught | task3_streaming_guardrail/redactor.py:188-206 | exchanging two neighbours is accepted if and only if they are equal or are 0 and 9 |
| Validators.OneCheckDigit | task3_streaming_guardrail/redactor.py:188-206 | every prefix has exactly one completing check digit |
| Validators.CardScheme | task3_streaming_guardrail/redactor.py:105-137 | a scheme is only given to a number its rule issues |
| Validators.SchemeExactly | task3_streaming_guardrail/redactor.py:105-137 | a number is given a scheme exactly if that scheme issues it, for all seven schemes, so the order of the table makes no difference |
| Validators.CardIsItsDigits | task3_streaming_guardrail/redactor.py:218-236 | layout never matters to the card validator, and its length test is implied by the scheme table |
| Spans.ResolveOverlaps | task3_streaming_guardrail/redactor.py:338-351 | the loop computes the earliest-longest sweep of the stably sorted matches |
| Spans.ResolveSound | task3_streaming_guardrail/redactor.py:338-351 | what is kept is sorted, disjoint and among the found, and everything dropped starts inside something kept that sorts before it |
| Spans.ResolveIsBest | task3_streaming_guardrail/redactor.py:338-351 | no disjoint selection of the same matches is better in the earliest-then-longest order |
| Spans.BetterRanksLower | task3_streaming_guardrail/redactor.py:631-642 | a better selection has a smaller rank, so selections cannot improve for ever |
| Scan.LongestMatch | task3_streaming_guardrail/redactor.py:501-516 | the shrinking search, jumps included, finds the longest validated match ending at an admissible place |
| Scan.LongestAcceptedIsLast | task3_streaming_guardrail/redactor.py:501-516 | that match exists if any admissible end does, and then it is the last one |
| Scan.TrimmedPan | task3_streaming_guardrail/redactor.py:519-534 | the first real PAN length at which the front of a bare run is a card with a scheme |
| Scan.ShorterValidMatch | task3_streaming_guardrail/redactor.py:451-517 | trimming for bare runs, boundary pass then full pass for grouped ones |
| Scan.ShorterSound | task3_streaming_guardrail/redactor.py:451-517 | the shorter match starts where the vetoed one did, ends before it and passes its validator |
| Scan.ForwardScan | task3_streaming_guardrail/redactor.py:556-586 | the scanning loop equals the recursive scan, and terminates for every engine |
| Scan.ScanSound | task3_streaming_guardrail/redactor.py:556-586 | for every engine the scan yields disjoint, in-bounds, validated matches in order |
| Rescue.Gaps | task3_streaming_guardrail/redactor.py:588-597 | the gaps are exactly the positions of the range that no span covers |
| Rescue.RunsAreMaximal | task3_streaming_guardrail/redactor.py:644-654 | the numeric runs are maximal and cover exactly the run characters |
| Rescue.RescueCandidates | task3_streaming_guardrail/redactor.py:717-768 | the collected offsets, sorted, are exactly the start, the stray-prefix offsets, and every offset or those next to separators |
| Rescue.BisectIsMembership | task3_streaming_guardrail/redactor.py:776-790 | the binary search over starts agrees with looking at every covered span |
| Rescue.RescueAtSound | task3_streaming_guardrail/redactor.py:656-708 | a re-anchored value is validated; a bare one needs a preceding separator or a card scheme, a grouped card right behind a digit needs four digits in its first group |
| Rescue.RescueMatches | task3_streaming_guardrail/redactor.py:770-795 | the pass over runs and candidates, cursor and coverage test included, finds what the declarative one does |
| FixedPoint.ScanToFixedPoint | task3_streaming_guardrail/redactor.py:599-642 | the bounded rescue loop computes four improvement passes, stopping early only at a fixed point |
| FixedPoint.SelectedSound | task3_streaming_guardrail/redactor.py:599-642 | for every engine the final selection is sorted, disjoint, in bounds and validated |
| FixedPoint.ImproveSound | task3_streaming_guardrail/redactor.py:631-642 | a pass leaves the selection exactly as it was or makes it strictly better |
| FixedPoint.ConvergedIsFixed | task3_streaming_guardrail/redactor.py:152-159 | without the pass bound the loop ends, within as many passes as the rank, at a selection no pass changes |
| FixedPoint.BoundedAgrees | task3_streaming_guardrail/redactor.py:152-159 | the bounded loop gives the unbounded result if and only if it ended on a fixed point |
| Redactor.FindHoldback | task3_streaming_guardrail/redactor.py:797-848 | the loop finds the first held index, never further back than the bound |
| Redactor.ReleaseSound | task3_streaming_guardrail/redactor.py:868-900 | the release point splits no selected span, every span is either fully released or fully kept, and at most the bound is held |
| Redactor.CapNeverFires | task3_streaming_guardrail/redactor.py:882-889 | the cap inside `_emit` never changes the hold index |
| Redactor.RenderJoin | task3_streaming_guardrail/redactor.py:907-919 | renderings of adjoining texts join into the rendering of both |
| Redactor.EmitConserves | task3_streaming_guardrail/redactor.py:868-920 | for any engine one emission loses, repeats and reorders nothing, replaces whole disjoint validated values, and balances the character counts |
| Streaming.StreamingRedactor.constructor | task3_streaming_guardrail/redactor.py:394-448 | a fresh redactor satisfies the conservation invariant; the bound must admit the longest match |
| Streaming.StreamingRedactor.EmitText | task3_streaming_guardrail/redactor.py:868-920 | the imperative emission equals the declarative one, counts included |
| Streaming.StreamingRedactor.Feed | task3_streaming_guardrail/redactor.py:922-927 | released plus buffer is all that was fed, context is the last 48 released characters, output is the released text with whole validated values replaced, pending is bounded, and the statistics balance |
| Streaming.StreamingRedactor.Flush | task3_streaming_guardrail/redactor.py:929-940 | the rest comes out, the whole output is the whole text with disjoint validated values replaced, and the object is ready for another stream |
| Streaming.TallyCounts | task3_streaming_guardrail/redactor.py:363-369 | the per-pattern counts add up to the number of spans replaced |
| Streaming.RedactChunks | task3_streaming_guardrail/redactor.py:922-940 | any engine, any chunks: the output is the text with disjoint whole values replaced, each accepted by its validator |
| ChunkInvariance.GreedyCut | task3_streaming_guardrail/redactor.py:868-900 | where the hold index is sound, cutting at the pushed release point cuts the selection of every longer text in two |
| ChunkInvariance.EmissionStep | task3_streaming_guardrail/redactor.py:868-905 | seen from the start of the stream, an emission with 48 characters of context cuts what the whole text selects there |
| ChunkInvariance.ChunksDoNotMatter | task3_streaming_guardrail/redactor.py:868-940 | for a scanner that looks back at most 48 characters with a sound hold index, and whose selection is leftmost first as far as it is released, in every piece of this text that splits no value, every split of the text outputs it with its scanned spans replaced |
| ChunkInvariance.SameTextSameOutput | task3_streaming_guardrail/redactor.py:948-952 | in particular any two splits agree, one-shot redaction being one of them |
| ForwardEngine.EngineIsSound | task3_streaming_guardrail/redactor.py:299-334 | the separated-SSN and bare-card branches answer inside their bounds |
| ForwardEngine.FindLooksBack | task3_streaming_guardrail/redactor.py:299-334 | the lookbehind reads one character |
| ForwardEngine.TakenHere | task3_streaming_guardrail/redactor.py:536-586 | validator veto and shorter match together take what the position's own text determines |
| ForwardEngine.QuietGaps | task3_streaming_guardrail/redactor.py:634-642 | rescanning the gaps between selected values finds nothing new |
| ForwardEngine.ForwardStreamable | task3_streaming_guardrail/redactor.py:868-940 | without re-anchoring the concrete scanner meets every assumption of chunk invariance, on every text |
| ForwardEngine.RedactForward | task3_streaming_guardrail/redactor.py:868-940 | the redactor object with that scanner outputs the scanned whole text for every split |
| Reanchoring.RescueAtIsTaken | task3_streaming_guardrail/redactor.py:656-708 | at every position the rescue takes exactly what validator veto and shorter match make of the text behind it |
| Reanchoring.RescueLooks | task3_streaming_guardrail/redactor.py:717-795 | whatever the rescue pass finds it took at a candidate of a numeric run, outside the covered spans |
| RescuePasses.NoneStartsInside | task3_streaming_guardrail/redactor.py:299-334 | inside a value no other one starts where the lookbehind allows it |
| RescuePasses.RescueFindsListed | task3_streaming_guardrail/redactor.py:717-795 | of the values that start before any chosen position the first rescue pass finds exactly the disjoint ones at its candidates that the forward scan left out, cursor and runs notwithstanding |
| RescuePasses.LaterPassKeeps | task3_streaming_guardrail/redactor.py:626-642 | once they are selected no later pass, rescuing or rescanning gaps, adds or drops a value that starts before that position |
| RescuePasses.SelectsWhatStands | task3_streaming_guardrail/redactor.py:599-642 | so, whatever is selected behind it, the values finally selected before the position are exactly those that stand there |
| ClearTexts.FindAllLooksBack | task3_streaming_guardrail/redactor.py:717-768 | whether a value is looked at, however the stream was cut, is decided within the 48 characters of context |
| ClearTexts.ReanchoredHoldIsSound | task3_streaming_guardrail/redactor.py:797-848 | with the rescue's partial match consulted as well, no continuation changes what is found before the hold index, values behind stray digits included |
| ClearTexts.PieceStands | task3_streaming_guardrail/redactor.py:599-642 | in every piece of a clear text that splits no value, the values that start before the hold index are the leftmost-first ones of the whole text |
| ClearTexts.ClearStreamable | task3_streaming_guardrail/redactor.py:868-940 | with re-anchoring on, every assumption of chunk invariance holds on every text in which no card is buried more than three digits deep in a number with a run character beside it, and no value shows only because the next one cuts the text off |
| ClearTexts.RedactReanchored | task3_streaming_guardrail/redactor.py:868-940 | the redactor object, re-anchoring on, outputs for every split of such a text the text with all its values replaced, those glued behind stray digits or a separator included |
| ClearTexts.StreamableExactly | task3_streaming_guardrail/redactor.py:868-940 | the assumptions never hold on a text with a buried value, and where no value is joined to the next they hold exactly if none is buried |
| ClearTexts.SixteenDigitsAreClear | task3_streaming_guardrail/redactor.py:868-940 | every text of at most sixteen digits is such a text, whatever else is in it |
| ClearTexts.LoneNumberIsClear | task3_streaming_guardrail/redactor.py:746-758 | so is every text whose digits are one number of at most 25, touched by no separator, however deep a card lies in it |
| ClearTexts.ReanchoringActsExactly | task3_streaming_guardrail/redactor.py:599-642 | re-anchoring changes what is selected in some piece of a text if and only if a value starts, in the text or in a part of it that ends early, where the lookbehind forbids it |
| ClearTexts.UngluedIsClear | task3_streaming_guardrail/redactor.py:599-642 | every text on which re-anchoring does not act is clear |
| GluedPairs.PairsDependOnTheCut | task3_streaming_guardrail/redactor.py:599-642 | in the same table, for every two issued SSNs with nothing between them and every placeholder: fed at once the output is two placeholders, cut anywhere inside the second it is the first value in the clear and one placeholder |
| GluedPairs.SecondPass | task3_streaming_guardrail/redactor.py:631-642 | once the second value of such a pair is rescued, the next pass accepts the first by rescanning the gap before it |
| GluedPairs.WholeSelectsBoth | task3_streaming_guardrail/redactor.py:631-642 | of the whole of such a pair both values are selected in the end, though the forward scan takes neither |
| StrayDigits.BuriedDependsOnTheCut | task3_streaming_guardrail/redactor.py:717-768 | in the table of these two branches, for every 16-digit card number behind five nines and before a word: fed at once it is let through, cut right behind it the number is replaced |
| StrayDigits.RestSelectsNumber | task3_streaming_guardrail/redactor.py:738-745 | two of the nines released, the number is three stray digits from where the rest begins, and selected |
| Pool.LeafName | task3_streaming_guardrail/gateway.py:211-219 | a value streams by the last field name on its path, list positions skipped |
| Pool.WalkAnswersLeaves | task3_streaming_guardrail/gateway.py:177-208 | a payload walk changes the model-authored strings and nothing else, and each becomes what its stream, or a redactor of its own, answers in walk order |
| PoolRuns.NonInterference | task3_streaming_guardrail/gateway.py:62-112 | in any interleaving of texts, one-shot values and flushes, the outputs and the held text at a key are those of a redactor given only that key's texts and flushes |
| PoolRuns.OneShotsStandAlone | task3_streaming_guardrail/gateway.py:83-86 | one-shot values come out as whole streams of their own, untouched by and not touching any stream |
| PoolRuns.FlushedOnce | task3_streaming_guardrail/gateway.py:88-112 | a residue is given out once: flushing the same streams again sends nothing |
| PoolRuns.EachStreamWhole | task3_streaming_guardrail/gateway.py:62-95 | all feeds and the final flush together give each key the output of a whole stream of its texts |
| PoolRuns.EachStreamScanned | task3_streaming_guardrail/gateway.py:62-95 | with a streamable scanner that is the key's whole text scanned at once, however the response interleaved it |
| PoolRuns.WalkIsARun | task3_streaming_guardrail/gateway.py:160-208 | a payload walk inside a run is the run of its strings, and its redacted strings are what goes out |
| RedactorPool.RedactorPool.constructor | task3_streaming_guardrail/gateway.py:73-74 | an empty pool |
| RedactorPool.RedactorPool.Feed | task3_streaming_guardrail/gateway.py:76-81 | the key's stream advances by one feed, made on first use; no other stream changes |
| RedactorPool.RedactorPool.RedactOnce | task3_streaming_guardrail/gateway.py:83-86 | a complete value is fed and flushed in a redactor of its own, the pool unchanged |
| RedactorPool.RedactorPool.Flush | task3_streaming_guardrail/gateway.py:88-112 | the non-empty residues of the selected streams, in first-seen order, and those streams fresh afterwards |
| RedactorPool.RedactorPool.RedactPayload | task3_streaming_guardrail/gateway.py:160-174 | the recursive walk over live redactors equals the declarative walk, and says whether any text was carried |
| RedactorPool.RedactorPool.RedactNode | task3_streaming_guardrail/gateway.py:177-208 | structural keys are copied, a declared integer index re-keys what is inside, streaming leaves feed their stream, other strings are redacted whole |

## Left out

- The `regex` engine: matching, partial matching, the email, grouped-card and keyword patterns. The redactor is proved for any engine whose answers are non-empty and in bounds, and the keyword pattern is assumed to report its one group.
- Chunk invariance of the shipped pattern set: the keyword lookbehind is unbounded and exceeds the 48 carried characters, so the theorem is about bounded-context scanners.
- ForwardEngine.ForwardStreamable: is the scanner without the rescue pass, as the constructor builds it for patterns under other names; `ClearTexts.ClearStreamable` has the rescue pass on.
- ForwardEngine.RedactForward: likewise; `ClearTexts.RedactReanchored` has the rescue pass on.
- ClearTexts.ClearStreamable: its condition is sufficient for the output, not necessary: a buried or glued value need not show in the output of any cut. Each of its two parts is shown to be needed by a family of streams (`StrayDigits`, `GluedPairs`), not for each text outside it. A number that stands by itself counts as buried if it begins more than 47 digits before the card.
- ClearTexts.RedactReanchored: likewise, and says of other texts only what `Streaming.RedactChunks` says of all.
- StrayDigits.BuriedDependsOnTheCut: is about the table of the separated-SSN and bare-card branches; in the shipped one the email branch holds the digits back with what follows them.
- GluedPairs.PairsDependOnTheCut: likewise about that table; in the shipped one the email branch holds back a pair written without blanks or commas.
- ClearTexts.StreamableExactly: is exact for the assumption about what is selected, which is stronger than equal outputs, and for texts in which no value is joined to the next.
- Unicode: digits, letters and lower-casing are ASCII, and the separators are those listed in the source.
- UTF-8 decoding and JSON parsing, which are library code: decoding starts from characters and the walks from JSON trees. An object with a repeated key is read at its first occurrence.
- `tiktoken`: only the heuristic counter is modelled, with 3.6 as the exact ratio 18/5 instead of a float.
- Tokens.ReservationCoversCap: says nothing about the product of a negative cap and a negative count, where the property is false of the code.
- Ledger.TokenRateLimiter.TryReserve: takes the clock readings and the fresh id as parameters, and computes the retry hint on the table it was refused on, although the code reads again after its rollback.
- Ledger.TokenRateLimiter.FirstCovering: takes the row with the least stamp, which the query's window ordering gives although it has no outer ORDER BY.
- Ledger.TokenRateLimiter.RetryAfter: gives milliseconds, where the code converts to float seconds and the router rounds them.
- SQLite itself: each statement is atomic and succeeds; pragmas, lock waits, retries, rollback on driver errors and integer overflow are not modelled.
- Router.NeverStuck: assumes storage calls and provider attempts return; deadlines are a nondeterministic timeout outcome, not a duration.
- Provider priorities, headers, logging, the `Retry-After` header and the details of error envelopes.
- Scheduling the orphan release on a closing event loop, and a reserve call that raises.
- SseDecoder.SSEDecoder.Feed: returns its events as a list, where the code is a generator consumed in order.
- Streaming.StreamingRedactor.constructor: requires the admissible hold-back bound, where the code raises `ValueError` below it.
- RedactorPool.RedactorPool.Flush: covers both `flush` and `flush_choice`; the pool's combined statistics are not modelled.
- The order of finish-reason chunks and residues, offloading to a thread, the non-streaming path, and how residues are wrapped into chunks.
- `task1_mcp_server` (descriptors, schemas, drain counter) and `task2_mcp_gateway` (authentication and envelope checks), which would add only single-branch or plumbing members.
