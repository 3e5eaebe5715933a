# The engine of the Aegis gateway

A Dafny model of the deterministic parts of the gateway, with proofs of what they promise:
how prompts are compressed, how requests are limited, metered and cached, how providers are
judged, and how the money adds up. `dafny verify dfyconfig.toml` checks all of it.

- **Compressor** (`Whitespace`, `Messages`, `Compressor`, `PointerLaws` and the other laws). The
  whitespace pass is proved lossless in effect; when block references can be undone, and when they
  are right in the list the whole pipeline returns, is known exactly; and so is when a stage can
  raise the token estimate.
- **Store** (`RateLimit`, `UsageStream`, `Store`, `CounterLaws` and their laws). The Lua limiter and
  the in-memory one give the same answers on every run and never admit too many; a stream consumer
  that reads by cursor matches an ideal one that counts positions; counters keep their expiry.
- **Cache** (`Fingerprint`, `Cache` and their laws). The hand-made encoding is uniquely decodable,
  and the cache refines a timed map for each organisation; what is not hashed is known too.
- **Health and fallback** (`Breaker`, `Fallback`). The breaker's stored fields are a summary of the
  history of outcomes, and one caller at most gets to probe until an outcome is recorded.
- **Money** (`Money`, `Invoice`, `Credits`). Rounding and splitting have exact bounds, so the
  invoice reconciliation accepts every honest period; no credit is spent twice.
- **Aggregation and selection** (`Histogram`, `Csv`, `Chargeback`, `Similarity`, `Bandit`,
  `UsageTables`, `Metering`). Quantiles, exports, nearest neighbours, the bandit's choice, the daily
  rollup against the usage summary, and metering from the stream to the tables: every event the
  writer has passed is recorded once, whatever fails between reading and folding it.

Besides the laws about behaviour there are laws that say what a specification function means without
naming it: in fields, bytes, real numbers and runs, with the source's numbers written out (`SlackLaws`,
`ReportLaws`, `StoreLaws`, `RollupLaws`, `BanditLaws`, `ChargebackLaws` and parts of the others).

Code that works step by step is a class or a method with loops, proved against a specification
function; the laws are lemmas about those functions, over all inputs or all runs. `Decimal`,
`Sequences`, `Reals`, `Lexicographic` and `Wrappers` hold what several of them share. Time is a parameter:
milliseconds of a clock that does not go back where a law says so.

## Where the code says less than its comments

The model follows the code. Each point has a lemma with an input that shows it, and the exact
condition where there is one.

- Blank lines inside a code fence are not copied verbatim: the last loop of the whitespace pass
  caps newlines there too (`FencedContentSurvives`, `FencedBlankLinesCanGo`).
- A message that reads like a block marker can be taken for one (`ReferencingIsReversible`,
  `MarkerInInputIsMisread`).
- Compression can grow a request: truncation by its marker (`TruncationPays`, `TruncationCanGrow`),
  and block references when characters take four bytes, since the threshold counts bytes
  (`ReferencingNoLonger`, `ReferencingCanGrow`).
- A block reference is made before trimming and truncation. Trimming can take the middle of the text
  it points to, so that the newest tool result arrives nowhere whole; truncation can make it point
  elsewhere (`PointerAfterTrimming`, `PointerInFinalList`, `NewestResultCanBeLost`,
  `TruncationMisleadsPointers`).
- The separators of the fingerprint can appear in a text, a key or the model (`EncodingIsUnique`,
  `RecordInTextCollides`, `UnitInKeyCollides`, `NulInModelCollides`).
- Not everything that can change a response is hashed: of a message only role and text are
  (`UnhashedFieldsCollide`, `AnsweredForAnother`).
- A caller that wins the probe but has no credential records no outcome, and from then on the half
  open circuit lets nobody through (`AbandonedProbeBlocks`).
- The retry hint drops fractions of a second, so the window may not have freed capacity when it has
  passed (`HintIsTheWait`).
- An admitted request gets a retry hint of 1 from Redis and 0 from memory (`LimitersAgree`).
- The requested model is not always the last attempt (`RequestedIsLast`, `RequestedCanBeFirst`).
- A counter that returns to zero restarts or loses its expiry (`ExpiryKept`, `ZeroRestartsExpiry`).
- A failed call can raise an arm's mean reward, through its savings (`FailureHelpsArm`,
  `FailureHelpsBeforehand`, `FailureHelpsWithSavings`).
- Token counts are stored in 32 bits and rolled up in 64. Counts from 2^31 to 2^32 make the record
  unacceptable, which stops the usage writer at its entry; above that, an accepted record and the
  rollup differ (`AgreementCondition`, `LargeCountsAreRejected`, `RollupCanDiffer`,
  `RefusedEventBlocks`).
- A fold that fails, or is never reached because the answer to its insert was lost, stays missing
  from the rollup (`RollupMatchesSummary`, `LossesStay`).
- Credits are consumed whole: what the last one holds beyond the amount is lost
  (`NothingLostCondition`, `CreditCanBeLost`).
- A carriage return in a cost centre's name is not quoted in the export (`RecordsRead`,
  `BareReturnIsRefused`).

## Model

| member | source | states |
|---|---|---|
| Whitespace.CollapseOutsideCodeFences | apps/gateway/src/engine/compressor.rs:231-271 | the fence flag, the per-line squeezing and the repeated replacement together compute `Collapse`: fenced lines copied, other lines tidied, every run of newlines cut to two; the loop terminates |
| Whitespace.ReplaceKeepsCap | apps/gateway/src/engine/compressor.rs:267-269 | one left-to-right replacement of three newlines by two leaves the capped text the same, whatever newlines came before |
| WhitespaceLaws.CollapseIsIdempotent | apps/gateway/src/engine/compressor.rs:231-271 | running the pass on its own output changes nothing |
| WhitespaceLaws.CollapseNeverGrows | apps/gateway/src/engine/compressor.rs:231-271 | the output is never longer than the input |
| WhitespaceLaws.CollapseKeepsWords | apps/gateway/src/engine/compressor.rs:231-271 | the whitespace-separated words stay the same, in order: lossless in effect |
| WhitespaceLaws.CollapseKeepsFencedLines | apps/gateway/src/engine/compressor.rs:237-245 | fence lines and non-empty fenced lines survive verbatim, in order, and no others appear |
| WhitespaceLaws.FencedContentSurvives | apps/gateway/src/engine/compressor.rs:231-271 | fenced content survives, empty lines included, if and only if no empty line inside a fence follows another, but for one that ends the text |
| WhitespaceLaws.FencedBlankLinesCanGo | apps/gateway/src/engine/compressor.rs:265-269 | an input on which it does not: empty lines right after a fence opens |
| WhitespaceLaws.CollapseLeavesNoSlack | apps/gateway/src/engine/compressor.rs:246-270 | nothing is left to collapse: no three newlines meet, and no line outside a fence has a tab, two blanks in a row or trailing whitespace |
| Compressor.NormalizedRequest.DedupeSystemMessages | apps/gateway/src/engine/compressor.rs:183-205 | the retained list and the count, as a function of the list before |
| CompressorLaws.DedupeKeepsFirsts | apps/gateway/src/engine/compressor.rs:183-205 | the conversation is untouched, and of the non-empty instruction texts exactly the first occurrences stay, in order |
| CompressorLaws.FirstOccurrencesAreDistinct | apps/gateway/src/engine/compressor.rs:183-205 | those first occurrences are pairwise different and are all texts there were |
| Compressor.NormalizedRequest.ReferenceDuplicateBlocks | apps/gateway/src/engine/compressor.rs:377-409 | editing in place with a map of texts seen computes `Referenced`: each large block that repeats an earlier one points to the first |
| CompressorLaws.ReferentIsIntact | apps/gateway/src/engine/compressor.rs:394-406 | a pointer leads to an earlier, unmodified, non-instruction message with the very content it stands for |
| CompressorLaws.ReferencingIsReversible | apps/gateway/src/engine/compressor.rs:377-409 | following the markers rebuilds the list if and only if no conversation text reads like a marker for a message with another content |
| CompressorLaws.MisleadingMarker | apps/gateway/src/engine/compressor.rs:395-399 | reading like a marker means being exactly the text the code would write for that number |
| CompressorLaws.MarkerInInputIsMisread | apps/gateway/src/engine/compressor.rs:395-399 | an input on which referencing cannot be undone |
| CompressorLaws.NumberKept | apps/gateway/src/engine/compressor.rs:299-315 | through truncation a conversation message keeps its number if and only if as many messages are dropped as the marker and the instructions after it come to; where it goes otherwise |
| PointerLaws.PointerAfterTrimming | apps/gateway/src/engine/compressor.rs:421-455 | through trimming a pointer stays and leads to the text it stands for if and only if the first block with that text is no large stale tool result |
| PointerLaws.WhitespaceComesLast | apps/gateway/src/engine/compressor.rs:158-174 | position by position the pipeline returns what it would without the whitespace stage, tidied, all but the truncation marker |
| PointerLaws.PointerInFinalList | apps/gateway/src/engine/compressor.rs:132-176 | in the list the whole pipeline returns, the number of a repeated block is right if and only if the block is not trimmed, is kept and keeps its number, or something with its content has come to stand there |
| PointerLaws.NewestResultCanBeLost | apps/gateway/src/engine/compressor.rs:411-420 | an input on which the newest tool result arrives nowhere whole under the default settings: it becomes a pointer to a text that is then trimmed |
| CompressorLaws.TruncationMisleadsPointers | apps/gateway/src/engine/compressor.rs:308-315 | an input on which it is not: the block is dropped and the pointer leads to the truncation marker |
| Compressor.NormalizedRequest.TrimStaleToolResults | apps/gateway/src/engine/compressor.rs:421-455 | editing in place up to the cutoff computes `Trimmed`, with its count |
| CompressorLaws.ElidedIsShorter | apps/gateway/src/engine/compressor.rs:437-449 | a trimmed result is shorter than it was and keeps `keep_edge` characters at each end |
| CompressorLaws.TrimmingIsConfined | apps/gateway/src/engine/compressor.rs:421-455 | only large tool results older than the last `stale_age` messages change; they keep both ends and name exactly how many characters went |
| CompressorLaws.TrimmingSettles | apps/gateway/src/engine/compressor.rs:421-455 | trimming its own output changes nothing |
| ReportLaws.ElisionSpellsNumber | apps/gateway/src/engine/compressor.rs:445-449 | the marker in a trimmed text spells the number of characters that went, in decimal |
| ReportLaws.TrimmingByDefault | apps/gateway/src/engine/compressor.rs:152-158 | with the pipeline's settings the last six messages, all but tool results, and results under a thousand characters stay as they are; any other gets shorter and keeps its first and last 300 characters |
| Compressor.NormalizedRequest.CollapseWhitespace | apps/gateway/src/engine/compressor.rs:208-225 | a message takes its collapsed text exactly when that has fewer bytes; the count is the bytes saved over all messages |
| CompressorLaws.WhitespaceStageIsLossless | apps/gateway/src/engine/compressor.rs:208-225 | every message keeps its role, its words and its fenced lines through the stage |
| SlackLaws.CollapseSavesBytes | apps/gateway/src/engine/compressor.rs:218-222 | a text loses bytes in the pass if and only if three newlines meet in it, or a line outside a fence has two blanks in a row or whitespace at its end |
| SlackLaws.StageTidies | apps/gateway/src/engine/compressor.rs:208-225 | after the stage each message has its own text when there was no such slack in it and the collapsed one otherwise, and none has any |
| SlackLaws.StageSavesBytes | apps/gateway/src/engine/compressor.rs:208-225 | the stage saves bytes if and only if some message has such slack |
| SlackLaws.PipelineTidies | apps/gateway/src/engine/compressor.rs:160-175 | with the stage on, no message the pipeline returns has such slack, all but the marker that truncation adds |
| Compressor.NormalizedRequest.TruncateHistory | apps/gateway/src/engine/compressor.rs:276-317 | the rebuilt list and the count, with every early return |
| CompressorLaws.TruncationKeeps | apps/gateway/src/engine/compressor.rs:276-317 | truncation keeps every instruction, then one marker, then exactly the last `keep_recent` other messages, all in order |
| CompressorLaws.TruncationSettles | apps/gateway/src/engine/compressor.rs:276-317 | truncating its own output changes nothing, for any threshold, budget and estimate |
| ReportLaws.TruncationBounds | apps/gateway/src/engine/compressor.rs:276-317 | past the threshold or over the budget at most `keep_recent` messages that are no instructions are left; otherwise, and when there are no more than these, nothing changes |
| ReportLaws.TruncationByRole | apps/gateway/src/engine/compressor.rs:276-317 | truncation drops no system or developer message, and leaves what users, assistants and tools said whole or cuts it to the last `keep_recent` |
| Compressor.NormalizedRequest.Compress | apps/gateway/src/engine/compressor.rs:132-176 | the five stages in order, under their switches, and every field of the report |
| CompressorLaws.ReportAccountsForMessages | apps/gateway/src/engine/compressor.rs:132-176 | the message counts in the report add up to the change in length of the list |
| ReportLaws.ReportCounts | apps/gateway/src/engine/compressor.rs:132-176 | the report holds the estimates before and after, in how many places referencing and trimming changed the list, and the bytes the whitespace stage took |
| CompressorLaws.ReferencingNoLonger | apps/gateway/src/engine/compressor.rs:377-409 | referencing lengthens no message if and only if no repeated block is shorter than its marker |
| CompressorLaws.NarrowReferencesFit | apps/gateway/src/engine/compressor.rs:388-399 | which text within the basic plane never is |
| CompressorLaws.CompressionBound | apps/gateway/src/engine/compressor.rs:132-176 | as long as that holds the pipeline never raises the token estimate, except for the marker's share when truncation fired |
| CompressorLaws.TruncationPays | apps/gateway/src/engine/compressor.rs:276-317 | truncation does not raise the estimate if and only if what it drops makes up for its marker, in whole tokens of text and in framing |
| CompressorLaws.TruncationCanGrow | apps/gateway/src/engine/compressor.rs:311-312 | an input on which truncation raises the estimate |
| CompressorLaws.ReferencingCanGrow | apps/gateway/src/engine/compressor.rs:388-399 | an input on which referencing raises the estimate: the block threshold counts bytes, and the estimate characters |
| Messages.EstimateFollowsWeight | apps/gateway/src/types.rs:220-229 | the estimate follows the characters of the texts: `slack` more of them cost at most a quarter, rounded up |
| ReportLaws.EstimateIsExact | apps/gateway/src/types.rs:220-229 | the estimate is a quarter of the characters of the joined texts, four for each message, and a quarter of each tool's characters |
| RateLimit.RedisLimiter.Script | apps/gateway/src/store.rs:99-122 | the script command by command: what it returns and the sorted set it leaves |
| RateLimit.RedisLimiter.RateLimit | apps/gateway/src/store.rs:239-267 | the script's reply as the store hands it on |
| Store.MemoryStore.RateLimit | apps/gateway/src/store.rs:451-479 | the in-memory window: pruning, verdict, remaining count and retry hint |
| RateLimitLaws.LimitersAgree | apps/gateway/src/store.rs:451-479 | at every step of every run on a clock that does not go back, Redis and memory give the same verdict and remaining count, and the same hint on refusal; when admitting, Redis hints 1 and memory 0 |
| RateLimitLaws.NeverOverLimit | apps/gateway/src/store.rs:451-479 | no interval as long as the window holds more than `limit` admissions of one key |
| RateLimitLaws.RefusedOnlyWhenFull | apps/gateway/src/store.rs:451-479 | a call is refused exactly when the interval ending now holds `limit` admissions, and the remaining count is what is left of it |
| RateLimitLaws.HintIsTheWait | apps/gateway/src/store.rs:30-31 | the hint of a refusal is the time until the earliest admission leaves the window in whole seconds, and at least one; a call is admitted again if and only if all that time has passed, so the hint is long enough if and only if at most a second or whole seconds are left |
| RateLimitLaws.OtherKeysNeverMatter | apps/gateway/src/store.rs:451-479 | the answer for a key is the one its own calls alone would give |
| Store.MemoryStore.StreamAppend | apps/gateway/src/store.rs:481-495 | the counter, the id and the trimmed entry list |
| Store.MemoryStore.StreamRead | apps/gateway/src/store.rs:497-517 | what is after the cursor, or the front when the cursor's entry is gone |
| UsageStreamLaws.AlwaysMirrors | apps/gateway/src/store.rs:481-517 | over every interleaving of appends and reads the store and the cursor stand for an ideal consumer that counts positions in the full history |
| UsageStreamLaws.ReadStartsRight | apps/gateway/src/store.rs:497-511 | a read starts at the first entry neither trimmed nor passed, also when the entry the cursor names is gone |
| UsageStreamLaws.ConsumerSeesEachOnceInOrder | apps/gateway/src/store.rs:481-517 | a consumer sees each entry at most once, in append order, and misses only entries trimmed before it came to them |
| UsageStreamLaws.ConsumerMakesProgress | apps/gateway/src/store.rs:497-517 | a read that may take entries takes the oldest unread one first, as long as one is left |
| Store.MemoryStore.Get | apps/gateway/src/store.rs:379-392 | a live value or none; an expired entry is removed |
| StoreLaws.WrittenIsReadBack | apps/gateway/src/store.rs:394-403 | a value is read back for its time to live and not from then on, and other keys read as before |
| StoreLaws.ReadClearsExpired | apps/gateway/src/store.rs:379-392 | a read removes the entry it finds expired, and nothing that any later read could see |
| Store.MemoryStore.DelPrefix | apps/gateway/src/store.rs:411-424 | removes exactly the keys with the prefix and counts them |
| Store.MemoryStore.IncrBy | apps/gateway/src/store.rs:426-449 | the saturating sum and the expiry the counter gets |
| CounterLaws.CounterAddsUp | apps/gateway/src/store.rs:426-449 | increments that never find the counter at zero or expired add up, and the expiry stays the first one |
| CounterLaws.ExpiredStartsOver | apps/gateway/src/store.rs:426-449 | a counter that has expired or was never there counts from nothing and takes the time to live of this increment |
| CounterLaws.NewWindowOpens | apps/gateway/src/store.rs:426-449 | after a window that nothing disturbed, the first increment at its expiry or later opens a new one |
| StoreLaws.NumeralsAreRead | apps/gateway/src/store.rs:432-437 | a text reads as a number if and only if it is digits after an optional sign whose value fits 64 bits |
| StoreLaws.NoNumberStartsOver | apps/gateway/src/store.rs:432-443 | a counter that holds no number starts over from zero with a new time to live |
| CounterLaws.ExpiryKept | apps/gateway/src/store.rs:434-438 | an increment keeps the expiry of a live counter exactly when it stands off zero or the new time is the same |
| CounterLaws.ZeroRestartsExpiry | apps/gateway/src/store.rs:434-438 | a counter back at zero starts its time anew, or loses it, though it was never gone |
| Fingerprint.Compute | apps/gateway/src/cache/fingerprint.rs:61-116 | feeding the hasher piece by piece, with its loops over messages and extra keys, digests `Encode` |
| FingerprintLaws.EncodingIsUnique | apps/gateway/src/cache/fingerprint.rs:61-125 | two requests of two organisations are fed as the same bytes if and only if they agree on organisation, model, turns, both numbers to six decimals, token limit, format, stop and extra; the model avoids byte 0x00, the texts 0x1e, the extra keys 0x1f |
| FingerprintLaws.SixPlacesRounds | apps/gateway/src/cache/fingerprint.rs:123-125 | a number is fed as its sign and the whole number of millionths nearest to its size, the even one of two equally near |
| Decimal.FixedSixReads | apps/gateway/src/cache/fingerprint.rs:123-125 | the text of it is the sign and digits that read back as these millionths, six of them after the point |
| FingerprintLaws.SameBytesMeanNearNumbers | apps/gateway/src/cache/fingerprint.rs:81-91 | requests fed as the same bytes have temperatures, and shares of probability, that are both absent or of one sign and within a millionth of each other |
| FingerprintLaws.PartsAreJoined | apps/gateway/src/types.rs:50-59 | the text of a message of parts is the texts of those that have one, a line feed between them |
| FingerprintLaws.UnhashedFieldsCollide | apps/gateway/src/cache/fingerprint.rs:72-78 | requests that differ in the names, tool calls, call identifiers or text-free parts of their messages, in the tool choice or in the user are fed as the same bytes |
| FingerprintLaws.RecordInTextCollides | apps/gateway/src/cache/fingerprint.rs:73-77 | each part of the condition is needed: two different requests with equal bytes, of which only one text breaks it |
| FingerprintLaws.UnitInKeyCollides | apps/gateway/src/cache/fingerprint.rs:107-112 | the same, with only one extra key breaking it |
| FingerprintLaws.NulInModelCollides | apps/gateway/src/cache/fingerprint.rs:67-70 | the same, with only the model breaking it |
| CacheLaws.CacheKeyInjective | apps/gateway/src/cache/fingerprint.rs:39-41 | a cache key determines the organisation and the fingerprint |
| CacheLaws.PrefixIsScoped | apps/gateway/src/cache/fingerprint.rs:45-47 | an organisation's prefix covers its own keys and no other's |
| CacheLaws.KeysAreIdentities | apps/gateway/src/cache/fingerprint.rs:39-116 | with a collision-free digest two keys are equal if and only if the requests are the same for the cache |
| Cache.ExactCache.Get | apps/gateway/src/cache/exact.rs:52-75 | a hit, a miss, a corrupt entry discarded, and nothing read when the request may not be cached |
| Cache.ExactCache.Put | apps/gateway/src/cache/exact.rs:80-104 | one entry with the cache's time to live, and nothing written when the request may not be cached |
| Cache.ExactCache.InvalidateOrg | apps/gateway/src/cache/exact.rs:111-115 | removes everything under the organisation's prefix |
| CacheLaws.InvalidationIsScoped | apps/gateway/src/cache/exact.rs:111-115 | invalidating one organisation removes all of its entries and none of any other |
| CacheLaws.CacheIsTimedMap | apps/gateway/src/cache/exact.rs:52-115 | through any run of gets, puts, invalidations and other writes, a get answers with the latest put of its organisation under the same request, unless expired or invalidated since; a request that may not be cached gets nothing |
| CacheLaws.ExcludedLeaveNoTrace | apps/gateway/src/cache/exact.rs:52-104 | over any run, calls for organisations that keep nothing and for requests with tools, streamed or above temperature 0.7 are answered with nothing, and without them the store and every answer are the same |
| CacheLaws.AllOthersAreCached | apps/gateway/src/cache/exact.rs:52-104 | every other request is stored and read back until it expires |
| CacheLaws.LookupDiscardsUnreadable | apps/gateway/src/cache/exact.rs:52-75 | a lookup leaves nothing under its key that it could not read, and nothing that any later lookup could tell |
| CacheLaws.FirstReasonIsGiven | apps/gateway/src/cache/fingerprint.rs:165-182 | the reason given is the first that applies, the organisation's opt-out before all others |
| CacheLaws.AnsweredForAnother | apps/gateway/src/cache/exact.rs:52-104 | after any run, a response put for one request is given to every request whose messages differ in those fields only, until it expires |
| Breaker.ProviderHealth.RecordSuccess | apps/gateway/src/engine/fallback.rs:176-184 | the whole entry after a success |
| Breaker.ProviderHealth.RecordSuccessWithLatency | apps/gateway/src/engine/fallback.rs:186-199 | the same, and the smoothed latency when it is positive |
| Breaker.ProviderHealth.RecordFailure | apps/gateway/src/engine/fallback.rs:202-219 | the whole entry after a failure, and the state it reports |
| Breaker.ProviderHealth.TryProbe | apps/gateway/src/engine/fallback.rs:260-270 | who may call: everyone unless half open, then the first to claim |
| Breaker.ProviderHealth.Score | apps/gateway/src/engine/fallback.rs:225-252 | success rate of a live window with enough attempts, latency and availability |
| BreakerLaws.StateIsHistory | apps/gateway/src/engine/fallback.rs:154-219 | at every moment of every run the state is a function of the history: closed below five failures since the last success or reset, then open until 30 s after the last failure, then half open |
| BreakerLaws.FailureReportsState | apps/gateway/src/engine/fallback.rs:202-219 | what a failure reports back is the state of the circuit at that moment, after any history |
| BreakerLaws.AtMostOneProbe | apps/gateway/src/engine/fallback.rs:260-270 | between two outcomes or resets at most one caller that saw half open wins, however checks and claims interleave |
| BreakerLaws.AbandonedProbeBlocks | apps/gateway/src/routes/openai_compat.rs:900-911 | after a claim is won and no outcome or reset follows, whatever else callers do, the circuit stays half open and no later claim wins |
| BreakerLaws.WindowHolds | apps/gateway/src/engine/fallback.rs:302-312 | the rolling counters are the outcomes since the window began, capped at 32 bits |
| BreakerLaws.LatencyStaysInRange | apps/gateway/src/engine/fallback.rs:186-199 | over every run the smoothed latency stays within the range of the latencies reported |
| BreakerLaws.PenaltyIsFair | apps/gateway/src/engine/fallback.rs:115-122 | the price penalty lies in [1, 8] and never rises with a better success rate |
| BreakerLaws.PenaltyMakesUp | apps/gateway/src/engine/fallback.rs:115-122 | the penalty times the success rate is one between one in eight and nine in ten, eight below and one above |
| BreakerLaws.ScoreIsHistory | apps/gateway/src/engine/fallback.rs:225-252 | over every run the success rate is that of the current window when that is under two minutes old and has five outcomes or more, and perfect otherwise; and a provider is available unless its circuit is open |
| BreakerLaws.UnknownIsUnmarked | apps/gateway/src/engine/fallback.rs:225-233 | a provider without an entry is scored as one without a record |
| BreakerLaws.LatencyMovesAFifth | apps/gateway/src/engine/fallback.rs:186-199 | the first latency is taken as it is, and each later one moves the average by a fifth of the difference |
| Fallback.Build | apps/gateway/src/engine/fallback.rs:359-391 | the loop builds the chain: selection, new alternates, and the requested model when missing |
| Fallback.ChainCovers | apps/gateway/src/engine/fallback.rs:359-391 | the chain starts with the selection, repeats no model, and holds the requested one |
| Fallback.AlternatesOnce | apps/gateway/src/engine/fallback.rs:366-380 | before that it holds exactly the selection and the alternates, each once |
| Fallback.AlternatesInOrder | apps/gateway/src/engine/fallback.rs:366-380 | alternates come in the order of their first appearance, each with its own provider |
| Fallback.RequestedBringsItsProvider | apps/gateway/src/engine/fallback.rs:382-391 | the requested model, when it is added, comes at the end with its own provider, and otherwise nothing is added |
| Fallback.RequestedIsLast | apps/gateway/src/engine/fallback.rs:340-391 | the requested model is last if and only if it is neither selected nor an alternate, or is the last of these to appear first |
| Fallback.RequestedCanBeFirst | apps/gateway/src/engine/fallback.rs:340-343 | an input on which the requested model is not last |
| Money.IntermediateFits | apps/gateway/src/money.rs:63-74 | the 128-bit intermediate never overflows, for any 64-bit rate and count |
| Money.CostWithinHalf | apps/gateway/src/money.rs:63-74 | a cost is the exact one to the nearest micro-cent at a rate for a million tokens, halves away from zero, unless it lies beyond 64 bits |
| Money.PartWithinHalf | apps/gateway/src/money.rs:80-88 | the same for a part in ten thousand |
| Money.CostMonotone | apps/gateway/src/money.rs:63-74 | more tokens never cost less at a non-negative rate |
| Money.SplittingUsage | apps/gateway/src/money.rs:63-74 | billing unclamped usage in n requests moves the total by at most (n + 1) / 2 micro-cents |
| Money.SplitDrift | apps/gateway/src/money.rs:80-88 | the same for any even divisor: rounding n parts instead of their total |
| Money.SaturatingSumIsCapped | apps/gateway/src/money.rs:138-163 | a saturating sum of non-negative amounts is the exact one, capped |
| Money.CentsRoundDown | apps/gateway/src/money.rs:105-107 | whole cents never exceed what is owed and fall short by less than a cent |
| Invoice.Build | apps/gateway/src/billing/invoice.rs:66-134 | each charge that is not nothing has its one line, with the requests as quantity where they are charged, each line is quantity times unit, the lines sum to the charges, and every total is what it should be |
| Invoice.LinesSumToTotal | apps/gateway/src/billing/invoice.rs:147-149 | the lines of a drafted invoice sum to its total if and only if they fit 64 bits together |
| Invoice.FeeWithinSavings | apps/gateway/src/billing/invoice.rs:98-130 | at up to 100 % the fee of a drafted invoice lies within the gross saving, and fee and customer net make it up |
| Invoice.HonestPeriodsReconcile | apps/gateway/src/billing/invoice.rs:141-144 | for any non-negative savings whose sum fits, the period fee is within (n + 1) / 2 of the sum of request fees, so the reconciliation accepts |
| Invoice.NeverOvercharged | apps/gateway/src/billing/invoice.rs:162-164 | the cents sent out never exceed the total |
| Invoice.PlansCostTheirPrice | apps/gateway/src/billing/invoice.rs:66-134 | without savings a month costs 29, 299 or 2,000 dollars, a cent for a hundred requests on the usage-based tier, and otherwise nothing |
| Histogram.Histogram.Observe | apps/gateway/src/metrics.rs:90-102 | counts one observation in its bucket, its microseconds and the total |
| Histogram.Histogram.Render | apps/gateway/src/metrics.rs:104-117 | each cumulative bucket counts exactly the observations at most its edge, and the last one all |
| Histogram.SumWithinCount | apps/gateway/src/metrics.rs:90-102 | the sum in whole microseconds never exceeds that of the observations and falls short by at most one for each |
| Histogram.Histogram.Quantile | apps/gateway/src/metrics.rs:121-135 | the running count finds the first edge that covers the wanted rank |
| Histogram.QuantileIsSmallestEdge | apps/gateway/src/metrics.rs:121-135 | for 0 < q <= 1 that is the smallest edge at or above the ceiling(q n)-th smallest observation, or infinity if all edges are below it |
| Chargeback.SpendIsConserved | apps/gateway/src/engine/governance.rs:302-345 | line spend plus unattributed spend is the total |
| Chargeback.SharesAddUp | apps/gateway/src/engine/governance.rs:329-333 | the shares of the lines add up to the share of all attributed spend |
| ChargebackLaws.LinesAreEntries | apps/gateway/src/engine/governance.rs:302-337 | a built report has a line for each entry that names a cost centre, with its figures, and no others |
| ChargebackLaws.ShareIsPercent | apps/gateway/src/engine/governance.rs:329-333 | a share is the line's spend in hundredths of the total |
| ChargebackLaws.ShareIsRounded | apps/gateway/src/engine/governance.rs:358-367 | a share prints as its sign and the nearest whole number of hundredths, the even one of two equally near |
| ChargebackLaws.ColumnsAreNamed | apps/gateway/src/engine/governance.rs:354-376 | each column of a row holds what the header calls it |
| Chargeback.LinesAreStableOrder | apps/gateway/src/engine/governance.rs:320-337 | the lines are descending by spend, a permutation of the attributed entries, and keep the order of equal ones |
| Chargeback.StableOrderIsUnique | apps/gateway/src/engine/governance.rs:336-337 | there is only one such order |
| Chargeback.ToCsv | apps/gateway/src/engine/governance.rs:354-376 | the appended text is the text of the report's table |
| Csv.RecordsRead | apps/gateway/src/engine/governance.rs:380-386 | a reader after section 2 of RFC 4180 recovers every row if and only if every field with a carriage return also has a comma, a quote or a line feed; a reader that allows bare carriage returns recovers all |
| Csv.BareReturnIsRefused | apps/gateway/src/engine/governance.rs:380-386 | an input the standard's reader refuses |
| Chargeback.ExportReadsBack | apps/gateway/src/engine/governance.rs:354-386 | reading an export recovers the table it was made from, for the names that condition admits and no others |
| Chargeback.ExportDeterminesReport | apps/gateway/src/engine/governance.rs:354-386 | equal exports come from equally many lines, equal in names and amounts, and from equal positive unattributed spend, as every cost centre has made a request |
| Chargeback.ExportDeterminesBuilt | apps/gateway/src/engine/governance.rs:302-386 | of two reports built from records with requests and without negative unattributed spend, equal exports make them equal, exact shares included |
| Chargeback.LooksUnattributed | apps/gateway/src/engine/governance.rs:369-374 | exactly which line has the row of unattributed spend: it has its name, no requests, no savings or fee, and a share of at most 0.005 |
| Chargeback.UnattributedCanBeMistaken | apps/gateway/src/engine/governance.rs:302-376 | requests are needed: two built reports, one with such an entry without requests, that export alike |
| Similarity.CosineSimilarity | apps/gateway/src/cache/semantic.rs:55-73 | one pass computes the cosine, and the final clamp changes nothing over the reals |
| Similarity.CosineMeans | apps/gateway/src/cache/semantic.rs:55-73 | vectors of one length with squared norms above 2^-23 have the cosine of their angle as similarity, and all others none |
| Similarity.CauchySchwarz | apps/gateway/src/cache/semantic.rs:62-71 | dot squared is at most the product of the squared norms, for vectors of any length |
| Similarity.CosineIsSymmetric | apps/gateway/src/cache/semantic.rs:55-73 | the similarity is symmetric |
| Similarity.FullSimilarity | apps/gateway/src/cache/semantic.rs:55-73 | similarity 1 if and only if one vector is a positive multiple of the other |
| Similarity.MemoryVectorStore.Search | apps/gateway/src/cache/semantic.rs:136-156 | the search computes `Nearest` over the organisation's own collection |
| Similarity.NearestIsBest | apps/gateway/src/cache/semantic.rs:147-151 | a hit meets the threshold, nothing stored is more similar and nothing later is as similar; there is none exactly when nothing meets the threshold |
| Similarity.MemoryVectorStore.Upsert | apps/gateway/src/cache/semantic.rs:158-164 | an entry goes to the end of its organisation's collection |
| Similarity.MemoryVectorStore.DropCollection | apps/gateway/src/cache/semantic.rs:166-169 | one organisation's collection goes |
| Similarity.CollectionsAreSeparate | apps/gateway/src/cache/semantic.rs:158-169 | after any run an organisation's collection is what it stored since it last dropped it |
| Bandit.RoutingBandit.Record | apps/gateway/src/engine/bandit.rs:116-134 | the arm's statistics stay the fold of its outcomes |
| Bandit.RoutingBandit.BandPulls | apps/gateway/src/engine/bandit.rs:137-144 | a band's pulls are its recorded outcomes, in whatever order arms are visited |
| Bandit.RoutingBandit.Select | apps/gateway/src/engine/bandit.rs:162-196 | a reliable candidate whenever there is one; the default while cold or when none is reliable, otherwise the best by score and then by name |
| Bandit.ChoiceIgnoresOrder | apps/gateway/src/engine/bandit.rs:183-195 | that choice does not depend on the order of the candidates |
| Bandit.UnobservedComeFirst | apps/gateway/src/engine/bandit.rs:148-156 | while a reliable candidate was never tried, the choice is one that was never tried |
| Lexicographic.LessMeans | apps/gateway/src/engine/bandit.rs:191-192 | ties go to the name that comes first: the shorter of two where one begins the other, and otherwise the one with the smaller character where they part |
| Bandit.RunsStayInRange | apps/gateway/src/engine/bandit.rs:59-82 | over every run successes do not exceed pulls and the mean reward stays in [0, 1] |
| BanditLaws.StatsAreSums | apps/gateway/src/engine/bandit.rs:116-134 | over every run an arm's statistics are the counts and sums of its own outcomes, amounts floored at zero, each up to what its integer holds |
| BanditLaws.RewardIsSevenToThree | apps/gateway/src/engine/bandit.rs:66-82 | the mean reward is seven parts the success rate and three parts the share saved; the success rate alone while there are no amounts |
| BanditLaws.UnreliableMeans | apps/gateway/src/engine/bandit.rs:166-172 | an arm is left out if and only if it has thirty pulls or more and under nine successes in ten |
| BanditLaws.ScoreOfTriedArm | apps/gateway/src/engine/bandit.rs:148-156 | the score of a tried arm is at least its mean reward, and the square of the bonus times the arm's pulls is 0.36 times the logarithm of the band's pulls |
| BanditLaws.ChoiceIsLeastTried | apps/gateway/src/engine/bandit.rs:162-196 | the choice has no reliable rival with the same mean reward and fewer pulls |
| BanditLaws.BetterRewardComesFirst | apps/gateway/src/engine/bandit.rs:183-195 | with the same pulls the better mean reward comes first |
| BanditLaws.NeglectRaisesScore | apps/gateway/src/engine/bandit.rs:154-155 | an arm's score grows with the pulls of the rest of its band |
| Bandit.FailureHelpsArm | apps/gateway/src/engine/bandit.rs:66-82 | recording a failure raises the mean reward of a given arm if and only if it was never tried and there are savings, or the gain in its savings share outweighs the loss in its success rate |
| Bandit.FailureHelpsBeforehand | apps/gateway/src/engine/bandit.rs:66-134 | the same for a tried arm in values known before the call, when nothing saturates: 3 p (p + 1) (g c - t k) > 7 n w w' for p pulls, n successes, t saved at cost c, a call that saves g at cost k, and the baselines w before and w' after; and what becomes of it when a baseline is zero |
| Bandit.FailureHelpsWithSavings | apps/gateway/src/engine/bandit.rs:66-82 | there is such an arm if and only if the failure comes with savings |
| UsageTables.Database.InsertUsageRecord | apps/gateway/src/db/repo.rs:1609-1665 | inserted, duplicate or rejected by the table's checks, and the table after it |
| UsageTables.Database.Deliver | apps/gateway/src/workers/usage_writer.rs:87-107 | an event is folded exactly when its insert wrote a row and the fold does not fail |
| UsageTables.OneRecordPerRequest | apps/gateway/src/db/repo.rs:1609-1665 | for any deliveries in any order, whichever folds are lost, each (request, time) has one record and each rollup key one row |
| UsageTables.RecordsAreDeliveries | apps/gateway/src/db/repo.rs:1609-1665 | every record was delivered, and no acceptable delivery goes unrecorded |
| RollupLaws.OneRecordEach | apps/gateway/src/db/repo.rs:1609-1665 | each delivery in order has exactly one record of its request and time; the same request at another time has its own |
| RollupLaws.OnlySoundRecords | apps/gateway/migrations/0001_initial_schema.sql:214-252 | only events that meet the table's checks are ever recorded, and no event that meets them is refused |
| UsageTables.OrderAndRepeatsDoNotMatter | apps/gateway/src/db/repo.rs:1609-1665 | the same events in another order, with other repeats and other lost folds leave the same records |
| UsageTables.RollupMatchesSummary | apps/gateway/src/db/repo.rs:1820-1856 | over whole days the usage summary is the rollup plus the sum of the lost folds, in every column but the token counts; so those columns agree if and only if no lost fold falls there |
| RollupLaws.RowsAreSums | apps/gateway/src/db/repo.rs:1820-1856 | after any deliveries the rollup has a row for an organisation, day, model and team if and only if such an event was recorded and folded, and each column is the sum over all of these |
| RollupLaws.SummaryIsSum | apps/gateway/src/db/repo.rs:1675-1708 | each column of the usage summary is the sum over the organisation's records created in the interval |
| RollupLaws.FoldedOrLost | apps/gateway/src/workers/usage_writer.rs:91-97 | the records are the folded events and the lost ones, each once |
| UsageTables.RollupAndLostFolds | apps/gateway/src/workers/usage_writer.rs:91-97 | in every column, rollup and lost folds together hold each record once |
| UsageTables.LossesStay | apps/gateway/src/workers/usage_writer.rs:91-99 | a lost fold is never made up for by anything delivered later |
| UsageTables.AgreementCondition | apps/gateway/src/db/repo.rs:1640-1641 | all columns agree after every delivery if and only if all recorded counts fit 31 bits and no fold was lost |
| UsageTables.LargeCountsAreRejected | apps/gateway/migrations/0001_initial_schema.sql:214-215 | counts of 32 bits that do not fit 31 are never recorded |
| UsageTables.RollupCanDiffer | apps/gateway/src/db/repo.rs:1640-1641 | an accepted and folded event on which the rollup and the summary differ |
| Metering.UsageWriter.ProcessBatch | apps/gateway/src/workers/usage_writer.rs:69-126 | what a batch delivers, where it halts, the insert whose answer it never gets, the cursor it writes, and its four counts |
| Metering.UsageWriter.Deliver | apps/gateway/src/workers/usage_writer.rs:87-122 | the loop stops at the first entry the tables refuse or do not answer for, and counts the others |
| Metering.PassedEventsAreRecordedOnce | apps/gateway/src/workers/usage_writer.rs:69-126 | over any interleaving of appends, batches that halt or crash, inserts whose answer is lost, folds and cursor writes that fail, and retries, each entry the cursor has passed was trimmed unread, or cannot be decoded, or has exactly one record |
| Metering.RecordsWereAppended | apps/gateway/src/workers/usage_writer.rs:69-126 | every record is the event of an entry that was appended to the stream |
| Metering.RefusedEventBlocks | apps/gateway/src/workers/usage_writer.rs:100-111 | while an event the tables refuse is the oldest unread one, no batch delivers anything or moves the cursor |
| Credits.CreditTable.Consume | apps/gateway/src/db/repo.rs:2392-2431 | applies the lesser of the amount and the balance, consuming whole credits oldest first |
| Credits.NothingLostCondition | apps/gateway/src/db/repo.rs:2412-2430 | no credit is lost if and only if the balance falls short or the oldest credits come to the amount exactly |
| Credits.CreditCanBeLost | apps/gateway/src/db/repo.rs:2412-2430 | an input on which part of a credit is lost |
| Credits.NeverDoubleSpent | apps/gateway/src/db/repo.rs:2386-2431 | over any run of grants and invoices what was applied and what is left never exceed what was granted |

## Left out

- JSON minification (`minify_json_blocks`): it rests on a JSON library, and the pipeline is modelled with it switched off.
- Multimodal message content in the compressor: there a message is a role and an optional text, which is all its stages read. That rewriting typed parts as text drops those without text is not modelled. The fingerprint does model typed parts.
- The long-conversation summary test. The settings are parameters of the pipeline; `DEFAULT_CONFIG` holds the default ones.
- Machine integers where they cannot be reached or only wrap in theory: lengths, stream sequence numbers, histogram counters, sums of tokens, and plain 64-bit sums of spend. Saturating counters, money, and the casts of token counts are modelled exactly.
- Floating point: reals stand for `f32` and `f64`, square root and logarithm are parameters, and NaN is not modelled. Decimal renderings round halves to even.
- SHA-256: a collision-free function of the bytes fed.
- Serialisation of cached responses: an encoder and a decoder that undo each other.
- Locks: each store operation is one step. The two steps of a probe are modelled separately, since callers interleave between them; the two lock acquisitions of `record_success_with_latency`, and the relaxed atomics of the histogram, are one step.
- Redis: the clock of its expiry is the caller's clock, approximate trimming (`MAXLEN ~`) is not modelled, and its stream and counter commands are left to it; the Lua script is modelled whole.
- Errors of the store, the database and the network, other than those of the usage writer's inserts, folds and cursor writes.
- Database columns that neither the summary nor the rollup reads, their checks, and partitions; days begin at midnight UTC. The summary's three parts of the savings are left out of `Totals`, as the rollup has none.
- Deletion, listing and administration of keys, snapshots of the bandit, `degraded_providers`, retry delays and error classes: easy members.
- Texts for people: line descriptions and summaries of invoices, metric help lines, dollar strings.
- Routing, policies, anomaly detection, plans, pricing tables, embeddings, Qdrant, Stripe, HTTP, the web app and the SDKs.
- RateLimitLaws.LimitersAgree: assumes that no two requests share a member name, which the store makes from the clock and a random identifier.
- CompressorLaws.ReferencingIsReversible: assumes at most 2^64 messages, more than a vector has.
- Bandit.RoutingBandit.BandPulls: assumes at most 2^64 - 1 recorded outcomes, beyond which counts saturate.
- Credits.CreditTable.Consume: takes the table in the order of its credits' creation times, and an amount of 64 bits.
- Chargeback.ExportDeterminesReport: for reports that `Build` did not make, shares are recovered to two decimals, as they are printed; `ExportDeterminesBuilt` recovers those of built ones.
- Metering.PassedEventsAreRecordedOnce: the cursor is kept; its own thirty-day expiry in the store, after which reading starts over, is not modelled.
