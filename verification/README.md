# Verified model of the token-dealer router

A Dafny model of the parts of the router whose correctness is not visible in one body: the rate
limiter, the incremental wire parsers, the fallback executor with its circuit breaker, the OAuth
manager and the encrypted key store, and the routing and configuration decisions. `dafny verify
dfyconfig.toml` checks everything.

Code that changes state is a class or a loop, proved against a small specification function; the
theorems are about those functions, over every input, every run or every way the network cuts a
stream. Clocks, random values, replies of providers, failures of the disk and of the table, and the
order in which an unordered map is walked are parameters, and the theorems hold for all of them.

| module | models | main results |
|---|---|---|
| `TokenBucket`, `Limiter` | `src/ratelimit.rs` | the lazily refilled level is exactly the tightest window bound; no rule that keeps the bound in real time admits more; per-key and global bounds in every real-time window over interleaved keys; exactly when Retry-After is honoured, for one bucket and for the two of the limiter |
| `EventStream`, `Kiro`, `KiroReply` | `src/providers/adapters/kiro.rs` | chunk invariance, conservation of bytes, header and message round trips; `stream` yields the text of `complete`; the reply is what the messages say |
| `Sse`, `SseEvents` | the SSE loops of five adapters | chunk invariance; splitting and joining are inverse; which payloads arrive, from events of any lines |
| `Health`, `Fallback` | `src/providers/health.rs`, `src/proxy/fallback.rs` | the executor is a first-success search; what each reply does to the health of its provider; the breaker is a function of its history, whatever thresholds were in force, and no run calls a cooling provider |
| `Pipeline` | `src/proxy/pipeline.rs`, `src/routing/selector.rs`, `src/providers/registry.rs` | when a request is routed and reaches the executor, and what a clean configuration means to it; the breaker theorem for the calls of buffered requests |
| `Dispatch` | `src/proxy/pipeline.rs`, `src/server/passthrough.rs`, `src/server/multimodal.rs` | over all ways in which the program calls a provider, exactly when the breakers are kept |
| `Base64Url`, `UrlQuery`, `AuthorizeUrl`, `Manifest` | encoders of `src/oauth/mod.rs` | encoders and independent decoders are inverse; the provider reads the exact parameter list |
| `Popup`, `Refresh`, `Redirect`, `OAuth` | `src/oauth/mod.rs`, `src/server/admin.rs` | which callbacks reach the token endpoint, with which verifier and redirect; what is asked of the provider, read by name; the client pair survives all rotations |
| `Keys` | `src/auth/keystore.rs` | the cache is invisible in every run with failures |
| `Specificity` | `src/routing/specificity.rs` | what counts towards a score; what depends on the order of the map, exactly; more evidence never hurts |
| `Validate` | `src/config/validate.rs` | the findings are exactly the faults; a file without findings is a valid one |
| `Migrate`, `ClientKeys` | `src/config/service.rs`, `src/server/auth.rs` | the rewrite changes nothing but rate limits and the text of keys, settles in one run, and its backup is known exactly; which tokens are admitted before and after |
| `Schema`, `Adapters` | `src/schema/inbound.rs`, adapters | exactly which text, role and tool calls arrive at which provider |

## Where the code and its promises differ

The model follows the code. Each difference has a lemma that says exactly when the promise holds.

- A frame whose declared headers reach into its last four bytes passes the guard of the Kiro parser
  (`headers_len + 12 <= total_len`) and makes the payload slice panic; `EventStream.GuardTooWeak` gives
  one. The parser panics on exactly the streams of whole frames followed by such a frame
  (`EventStream.PanicsExactly`). A frame that announces fewer than sixteen bytes, or more headers than it has
  room for, is neither taken nor skipped: nothing comes out after it (`EventStream.BadLengthBlocks`).
- `Retry-After` is the answer of one of two buckets. After a rejection by the key's, the promised wait is
  enough exactly when the key's limit refills, its burst is at least one, and the global bucket lets the
  request through (`Limiter.KeyRetry`); after a rejection by the global one, exactly when the global limit
  has those two and the key's bucket admits the request (`Limiter.GlobalRetry`). The rejected request
  itself can have spent the global token that is then missing (`Limiter.PromiseBroken`). What "lets through"
  and "admits" mean there is a statement about the requests of the run: that the bound still has room
  (`Limiter.AcceptedExactly`, `Limiter.KeyRetryExactly`, `Limiter.GlobalRetryExactly`).
- Streamed, passed-through and multimodal requests call the provider without asking the health registry and
  without recording what came of it (`Dispatch.StraightLeavesNoTrace`). A streamed request can call a
  provider that cools (`Dispatch.StreamedWhileDown`); the breakers are kept exactly when every such call
  happens to find its provider out of cooldown (`Dispatch.BreakersKept`).
- A 401 or 403 on a first call stops the chain; on the one retry it does not
  (`Fallback.FatalRetryDoesNotStop`).
- The validator compares `fixed_retry_wait_ms` with the longest wait allowed; nothing else reads it. After a
  429 the executor waits a second and a half, or as long as is allowed (`Pipeline.LimitsConfigured`).
- Only two line feeds end a server-sent event; section 9.2 of the WHATWG HTML standard also lets CR LF end a
  line. A stream that does so throughout yields no event at all (`SseEvents.CrLfStreamWaits`).
- A space in a manifest scope becomes `+` and is then percent-encoded, so the provider reads a plus sign
  (`AuthorizeUrl.ScopeArrives`); the Google entry has three (`Manifest.GoogleScopeIsLost`).
- A stored credential with half a client pair, or a bare token that is itself an object with a refresh
  token, does not survive storage (`Refresh.StorageRoundTrip`).
- The specificity detector breaks ties by the order of its map (`Specificity.CategoryDependsOnTies`, with a
  request in `Specificity.TieExists`), and panics on a request without messages that reaches scoring.
- The validator accepts a provider id as a tier's primary; the router wants provider/model, so every
  request for such a tier fails, streamed or not (`Pipeline.ProviderIdSlips`, `Pipeline.TierReached`). It
  also accepts a bare id as a fallback; the executor reads that as a model of a provider called "unknown"
  (`Pipeline.ChainConfigured`); and as the primary of a specificity rule, whose requests then fail
  (`Pipeline.RuleIdSlips`, `Pipeline.BareRule`).
- For a buffered request the executor sends every adapter its default model; each call in a run's records
  has that, and so the model that its chain entry names exactly when it is that
  (`Pipeline.NamedModelCalled`). A streamed request is sent with the routed model.
- A v0.1 client key stops working when the migration seals it: the program compares stored texts as they
  stand, so afterwards the sealed text is the key. Of the tokens in plain text only the single admin key
  and the environment variable are still admitted (`ClientKeys.AdmittedAfter`, `ClientKeys.PlainKeyRefused`);
  nothing changes for clients exactly when the list had no other (`ClientKeys.KeysKeepWorking`).
- The callback rebuilds its redirect from the configuration, the sign-in button names the browser's
  origin. Unless the manifest fixes one, they agree for all providers exactly when the configured prefix is
  that origin, or, for a configuration with the `{provider}` placeholder, when it is the button's own address
  with the placeholder for the provider: never when nothing is configured, and never with a placeholder in
  another path (`OAuth.ExchangeMatchesAuthorize`, `OAuth.HandlersAgree`, `Redirect.AgreeExactly`).
- A comment in the migration says that a single table under `auth.keys` is handled; it is not
  (`Migrate.SingleTableIgnored`). A failed copy can leave a partial file that then counts as the backup
  (`Migrate.PartialCopyStays`); the backup is the original exactly when the first copy that left a file
  was as good as complete (`Migrate.BackupIsOriginal`).
- Anthropic bodies drop the text of tool messages, including the ordinary string form
  (`Adapters.AnthropicKeepsText`, `Adapters.ToolStringLost`).
- Content that is neither a string nor a list is shown as JSON and becomes text: an assistant turn with
  tool calls and null content says "null" to every provider (`Schema.CanonicalKeepsText`,
  `Adapters.NullBecomesText`).
- Tool calls beside the content reach OpenAI, and Anthropic from assistants; Generic, Responses and Google
  bodies carry none. A call that stands as a block of the content, as clients of Anthropic write it, is
  read and reaches no provider (`Adapters.CallsArrive`, `Adapters.BlockCallLost`).

Two hypotheses are not differences, because the program cannot miss them: a resolver that names no other
provider than the one it is asked for, which is exactly what keeping the breakers takes
(`Pipeline.ResolverExactly`), and a threshold of at least one, which makes "down" and "at the threshold"
one while the threshold stays (`Health.ThresholdMatters`). The pipeline's own resolver and thresholds have
both: for buffered requests `Pipeline.PipelineHonoursBreaker` holds with no hypothesis about them, for a
configuration that changes from request to request, and `Pipeline.SteadyThreshold` for one that does not.
With the other calls among them, `Dispatch.BreakersKept` says what is left.

## Model

| member | source | states |
|---|---|---|
| TokenBucket.Bucket.TryConsume | src/ratelimit.rs:47-61 | refills to the clamped level, spends one token if there is one, and otherwise answers the seconds to wait, at least one |
| TokenBucket.BucketExact | src/ratelimit.rs:47-61 | in every run the level is the minimum, over all window starts, of burst plus credit earned minus admissions since: a lower bound for all and equal for one |
| TokenBucket.AdmissionExact | src/ratelimit.rs:52-54 | a request is admitted if and only if admitting it breaks the burst-plus-rate bound on no window that ends now |
| TokenBucket.BucketKeepsBound | src/ratelimit.rs:11-15 | the decisions of every run keep the bound on every window between requests |
| TokenBucket.BucketOptimal | src/ratelimit.rs:47-61 | no sequence of decisions that keeps the bound on windows from request to request has admitted more at any point of the run |
| TokenBucket.BoundsAgree | src/ratelimit.rs:11-15 | for any decisions, the bound on windows between requests is the bound on all windows of real time |
| TokenBucket.BucketOptimalInTime | src/ratelimit.rs:47-61 | the bucket keeps the bound on all windows of real time, and no decisions that keep it have admitted more at any point of the run |
| TokenBucket.BucketWindowBound | src/ratelimit.rs:47-61 | in any window of real time at most the burst and the credit earned in it are admitted |
| TokenBucket.ConfiguredWindowBound | src/ratelimit.rs:80-88 | with a configured rate per minute, at most burst + length * rpm / 60 requests are admitted in any window |
| TokenBucket.ProbesCompose | src/ratelimit.rs:49-51 | the clamped refills of any number of rejected probes compose into a single one |
| TokenBucket.AdmittedAfterWait | src/ratelimit.rs:52-59 | after rejections, a request is admitted if and only if a bucket can hold a token and the credit since makes one whole |
| TokenBucket.RetryAfterSound | src/ratelimit.rs:55-59 | for one bucket: waiting the promised seconds, whatever is probed in between, admits the request if and only if the rate and the burst are at least one |
| TokenBucket.RetryAfterTight | src/ratelimit.rs:55-59 | for one bucket: a second earlier every probe is still rejected |
| Limiter.RateLimiter.TryAcquire | src/ratelimit.rs:104-115 | global bucket first, the key's bucket created full on first use; the new state and the answer are those of the state machine, and other keys' buckets are the same objects unchanged |
| Limiter.GlobalRunsAlone | src/ratelimit.rs:106-108 | inside the limiter the global bucket runs as if alone on all requests, including those their key rejects |
| Limiter.KeyRunsAlone | src/ratelimit.rs:110-114 | a key's bucket exists from its first request past the global one and runs as if alone from there |
| Limiter.KeyAcceptance | src/ratelimit.rs:104-115 | the accepted requests of a key are exactly those its own bucket admits |
| Limiter.LimiterBound | src/ratelimit.rs:104-115 | however keys interleave, every real-time window respects the global bound and each key's |
| Limiter.ConfiguredLimiterBound | src/ratelimit.rs:80-88 | the same with the configured numbers: burst + length * rpm / 60 |
| Limiter.KeyRetry | src/ratelimit.rs:104-115 | after a rejection by the key's bucket, with none of the key's requests accepted since, a request the promised seconds later is accepted if and only if the global bucket lets it through and the key's rate and burst are at least one |
| Limiter.GlobalRetry | src/ratelimit.rs:104-108 | after a rejection by the global bucket, with none let through since, a request the promised seconds later is let through if and only if the global rate and burst are at least one, and accepted if the key's bucket then admits it |
| Limiter.KeyRetryTight | src/ratelimit.rs:110-114 | a second earlier than the key's bucket promised, none of the key's requests is accepted |
| Limiter.GlobalRetryTight | src/ratelimit.rs:105-108 | a second earlier than the global bucket promised, no request is let through |
| Limiter.AcceptedExactly | src/ratelimit.rs:104-115 | a request is accepted if and only if accepting it breaks the global bound on no window of requests that ends now, counting those let through, and the key's bound on none of the times its bucket was asked, counting its accepted ones |
| Limiter.KeyRetryExactly | src/ratelimit.rs:104-115 | after the key's promised wait, accepted if and only if rate and burst are at least one and the global bound has room for it on every window of requests that ends now |
| Limiter.GlobalRetryExactly | src/ratelimit.rs:104-115 | after the global one's promised wait, accepted if and only if its rate and burst are at least one and the key's bound has room for it |
| Limiter.PromiseBroken | src/ratelimit.rs:104-115 | three requests under limits that refill with bursts of at least one: the third comes when the second was told to, and is refused by the global bucket |
| EventStream.ReadHeaderAt | src/providers/adapters/kiro.rs:315-360 | one turn of the header loop reads what the specification reads, and the cursor never passes the end |
| EventStream.ParseKiroHeaders | src/providers/adapters/kiro.rs:312-363 | the header map is that of the specification for every byte string |
| EventStream.HeadersRoundTrip | src/providers/adapters/kiro.rs:312-363 | parsing any encoded headers of types 0, 1, 2 and 7 gives them back, then stops at what is no header |
| EventStream.HeadersLongestPrefix | src/providers/adapters/kiro.rs:312-363 | for every byte string the map is that of the longest beginning that is a list of encoded headers |
| EventStream.FrameBuffer.NextFrame | src/providers/adapters/kiro.rs:283-308 | takes one complete frame off the buffer, waits, or panics, exactly as the specification says |
| EventStream.FrameBuffer.ParseKiroEvents | src/providers/adapters/kiro.rs:280-310 | drains all complete frames: the events, the buffer left and whether it panics are those of the specification |
| EventStream.StreamReader.Receive | src/providers/adapters/kiro.rs:180-187 | after each chunk the frames taken are those of all bytes that arrived so far |
| EventStream.DrainAppend | src/providers/adapters/kiro.rs:280-310 | draining, then appending and draining again, is draining once |
| EventStream.ChunkInvariance | src/providers/adapters/kiro.rs:180-187 | for any bytes, well-formed or not, and any chunking, the frames, the buffer and the panic are those of one batch |
| EventStream.Consumption | src/providers/adapters/kiro.rs:283-308 | the taken frames followed by the buffer are the input; each taken frame is whole, at least 16 bytes long and cut into its own headers and payload; the buffer starts with no whole frame |
| EventStream.PanicsExactly | src/providers/adapters/kiro.rs:288-293 | the parser panics if and only if the stream is whole frames and then a complete one whose headers leave no room for the CRC, and it has then taken exactly the whole ones |
| EventStream.FramesComeOut | src/providers/adapters/kiro.rs:272-310 | whole frames followed by anything that is not one come out frame by frame with the rest in the buffer; the parser waits if the rest is unfinished and panics if it is complete |
| EventStream.GuardTooWeak | src/providers/adapters/kiro.rs:288-293 | a complete 16-byte frame that passes the guard and makes the payload slice run backwards |
| EventStream.BadLengthBlocks | src/providers/adapters/kiro.rs:286-290 | after a frame that announces fewer than sixteen bytes, or headers it has no room for, no frame is ever taken and all that arrives stays in the buffer |
| EventStream.MapOfLast | src/providers/adapters/kiro.rs:298-305 | a name is looked up to its last header |
| EventStream.MessageDecodes | src/providers/adapters/kiro.rs:272-307 | an encoded message, with any CRC bytes, decodes to its own payload and the text of its event and message type headers |
| EventStream.MessagesRoundTrip | src/providers/adapters/kiro.rs:272-310 | encoding any list of messages and feeding it in any chunks gives their events in order, an empty buffer and no panic |
| Kiro.Accumulator.ApplyKiroEvent | src/providers/adapters/kiro.rs:373-399 | text is added and returned for assistant responses only, usage is replaced by metadata with 32-bit truncation, exceptions do neither |
| Kiro.Complete | src/providers/adapters/kiro.rs:176-187 | the accumulated text and usage depend only on the concatenated bytes |
| Kiro.Stream | src/providers/adapters/kiro.rs:234-266 | the deltas join to the text that complete accumulates, with the same closing usage; a panic leaves a beginning of it |
| KiroReply.ReplyArrives | src/providers/adapters/kiro.rs:373-387 | whatever messages are encoded, in any chunks, the text is that of the messages whose `:event-type` names an assistant response and whose `:message-type` is not exception, in order; a closing usage comes unless there was no message |
| KiroReply.ReportExactly | src/providers/adapters/kiro.rs:388-399 | a metadata event reports as input its uncached tokens, or all input tokens if that member is missing, and its output tokens, each in 32 bits and zero when it is no number |
| KiroReply.LastReportDecides | src/providers/adapters/kiro.rs:388-399 | the usage is that of the last event that reports one, and zero when none does |
| Sse.FindSseBoundary | src/providers/adapters/openai.rs:452-454 | the first place where two line feeds stand together, or none |
| Sse.SseBuffer.Receive | src/providers/adapters/openai.rs:211-216 | the events yielded and the buffer left are those of splitting buffer and chunk; both drains are in range |
| Sse.ChunkInvariance | src/providers/adapters/openai.rs:209-216 | for any bytes and any chunking, through delimiters too, the events and the tail are those of one split |
| Sse.CleanDelimited | src/providers/adapters/openai.rs:452-454 | an event is found whole before its delimiter if and only if it holds none and does not end in a line feed |
| Sse.JoinSplit | src/providers/adapters/openai.rs:214-216 | the events, each with its delimiter, and the tail rebuild the input, and all are clean |
| Sse.SplitJoin | src/providers/adapters/openai.rs:214-216 | any clean events and tail come back from their joined bytes |
| Sse.EventData | src/providers/adapters/openai.rs:217-225 | what an event hands to the JSON parser: what its data lines carry, without the end marker; what lines are is in SseEvents.EventHandsOver |
| Sse.PayloadsArePlain | src/providers/adapters/openai.rs:218-225 | no payload holds a line feed or is the end marker |
| Sse.PayloadsArrive | src/providers/adapters/openai.rs:209-225 | payloads sent one to an event arrive, under any chunking, if and only if none holds a line feed or is the end marker |
| SseEvents.LinesComeBack | src/providers/adapters/openai.rs:217-217 | any lines without line feeds come back from their text, whichever of LF and CR LF ends each, with or without an end after the last |
| SseEvents.EventHandsOver | src/providers/adapters/anthropic.rs:252-260 | an event of any lines hands over exactly the payloads of its `data: ` lines, in order, and not the end marker |
| SseEvents.EventsArrive | src/providers/adapters/anthropic.rs:240-260 | events of any lines, in any chunks, hand the JSON parser exactly the payloads of their data lines, in order, and leave nothing behind |
| SseEvents.CrLfStreamWaits | src/providers/adapters/openai.rs:452-454 | a stream in which every line feed follows a carriage return yields no event |
| Health.HealthRegistry.RecordFailure | src/providers/health.rs:61-71 | counts the failure and opens the breaker at the threshold; other providers are unchanged |
| Health.HealthRegistry.RecordSuccess | src/providers/health.rs:52-59 | closes the breaker and resets the count; other providers are unchanged |
| Health.HealthRegistry.IsAvailable | src/providers/health.rs:73-80 | available if and only if no cooldown is running at that time |
| Health.StateIsHistory | src/providers/health.rs:52-80 | on every history, under any thresholds, count, last failure, cooldown and status are functions of the recorded events |
| Health.CoolsSince | src/providers/health.rs:61-71 | a provider cools, and until when, if and only if some failure reached the threshold in force at it and no success or further such failure came after; that failure is unique |
| Health.BreakerAgrees | src/providers/health.rs:52-80 | under a fixed threshold of at least one, down, cooling and at the threshold are one, and the cooldown ends a fixed time after the last failure |
| Health.ThresholdMatters | src/providers/health.rs:61-71 | that holds on all histories under one breaker if and only if its threshold is at least one |
| Health.Reopens | src/providers/health.rs:61-71 | a provider over the threshold cools again from one more failure, until exactly the cooldown later |
| Health.CheckedCall | src/providers/health.rs:73-80 | a positive check makes a call allowed by the history, then or later |
| Fallback.ClassifyError | src/proxy/fallback.rs:72-117 | an error is fatal if and only if its status is 401 or 403, asks for a retry if and only if 408 or 429, and is a context limit if and only if it says so or is a 400 whose lower-cased message speaks of context; all others skip |
| Fallback.Execute | src/proxy/fallback.rs:156-329 | the walk over the chain returns, records and calls exactly what the per-entry definition says, and leaves the registry as the recorded events do |
| Fallback.EntryTrace | src/proxy/fallback.rs:218-293 | the trace of an entry by its replies: one call and its effect on the provider, and after a 408 or 429 a second one, with a pause of 1500 ms or the longest allowed after a 429 only |
| Fallback.HealthAfterEntry | src/proxy/fallback.rs:230-293 | after an entry that calls a provider its count is 0 if the last reply answers or is a 408 or 429, else one more than before, or one if the first was such; the failure is at the instant of that reply and under the run's breaker; all other providers, and all after an entry without a call, are as before |
| Fallback.TrailingAfterEntry | src/proxy/fallback.rs:230-293 | the same of the trailing failures of the history |
| Fallback.RecordsDescribe | src/proxy/fallback.rs:183-300 | one record for each call, in order, whose outcome says what the reply was; one record that names the reason for an entry without a call; none past the budget |
| Fallback.OkIsFirstSuccess | src/proxy/fallback.rs:175-309 | it answers if and only if some entry is the first success: out of cooldown, resolved, answering on its first call or one retry, in budget, with nothing before it that gave up; the response, the fallback count and each of the providers tried are those of the walk up to that entry |
| Fallback.ExhaustedIsAllPassedOver | src/proxy/fallback.rs:325-328 | it reports exhaustion if and only if every entry was visited and passed over |
| Fallback.StopsWithItsOwnError | src/proxy/fallback.rs:311-319 | what stops the chain is the entry's own 401 or 403, or a context error with the model of the chain and the limit of the entry's error, 8192 for a 400 |
| Fallback.FailsAt | src/proxy/fallback.rs:175-328 | with all entries before passed over, a spent budget ends the run with the time it took, and an entry that gives up with its own error or a context error for its model |
| Fallback.VerdictMeans | src/proxy/fallback.rs:175-322 | an entry stops the chain if and only if its first call was made in budget and refused as fatal or too long; it wins if and only if its last reply answers; it is passed over otherwise |
| Fallback.FatalRetryDoesNotStop | src/proxy/fallback.rs:262-319 | replacing the reply of the second call never changes whether the chain stops, nor with what; a refused retry moves on |
| Fallback.CallBound | src/proxy/fallback.rs:218-276 | at most two adapter calls for each entry visited |
| Fallback.OnlyLastSucceeds | src/proxy/fallback.rs:246-306 | in a successful run the only record of a success is the last |
| Fallback.RunsHonourBreaker | src/proxy/fallback.rs:183-293 | over any sequence of runs that share a registry, each with its own threshold and cooldown, no adapter call is made to a provider in cooldown, if the resolver returns the provider it is asked for |
| Fallback.UnfaithfulResolver | src/proxy/fallback.rs:184-244 | a resolver with another name: a run of the generic executor that calls a cooling provider |
| Pipeline.ResolverExactly | src/proxy/fallback.rs:184-293 | all runs with a resolver, under any thresholds, keep all breakers if and only if the resolver names no other provider than the one it is asked for |
| Pipeline.PipelineHonoursBreaker | src/proxy/pipeline.rs:185-222 | in every run of buffered requests with the resolver of the pipeline, whatever is configured for each, registered and answered, no adapter is called while its breaker is open, and the registry says what its history says |
| Pipeline.SteadyThreshold | src/proxy/pipeline.rs:189-193 | while the threshold stays, a provider is down if and only if its trailing failures reach the number configured, or one if that is zero, and then cools for 60 seconds from the last of them |
| Pipeline.LimitsConfigured | src/proxy/pipeline.rs:173-183 | the budget and the longest wait of the walk are the configured ones, and the configured fixed wait changes nothing |
| Pipeline.FallbacksInOrder | src/proxy/pipeline.rs:164-178 | the i-th fallback of the tier, provider and model, is the entry after the i-th |
| Pipeline.NamedModelCalled | src/proxy/pipeline.rs:203-217 | in every run of a buffered request each record stems from a chain entry, and that of a call has the adapter's default model: the one the chain names there if and only if that is the default |
| Pipeline.RoutedExactly | src/providers/registry.rs:103-109 | a reference is routed if and only if it has two halves and the first is a registered provider; the route joins to the reference again |
| Pipeline.TierReached | src/server/handlers.rs:286-288 | a request for a valid tier is routed, to its primary, if and only if there is a key and the primary has two halves, the first a configured provider; it then reaches the executor if and only if it is not streamed, and else the stream |
| Pipeline.NamedReached | src/proxy/pipeline.rs:89-100 | a model named in the request alone decides the route: to nothing if and only if it lacks two halves or the first is not registered, and to no key if and only if there is none |
| Pipeline.ProviderIdSlips | src/config/validate.rs:220-223 | a provider id as primary has no finding, and routes to no provider unless it has two halves of which the first is a provider too |
| Pipeline.RuleIdSlips | src/config/validate.rs:318-338 | a request that a rule without a finding decides is routed to no provider if and only if the rule's primary has not two halves |
| Pipeline.BareRule | src/server/handlers.rs:164-178 | a bare provider id as a rule's primary has no finding and routes to no provider |
| Pipeline.ChainConfigured | src/proxy/pipeline.rs:164-183 | once routed, every chain entry names a registered provider if and only if every fallback has a slash or a provider is called "unknown" |
| Dispatch.BreakersKept | src/proxy/pipeline.rs:228-248 | over any sequence of buffered requests and straight calls no call is made to a provider in cooldown if and only if every straight call finds its provider out of cooldown in the registry as it then is |
| Dispatch.StraightLeavesNoTrace | src/proxy/pipeline.rs:230-248 | with any straight calls between them the registry is that of the buffered requests alone |
| Dispatch.StreamedWhileDown | src/server/handlers.rs:286-288 | a buffered request that times out under a threshold of one, then a streamed one to that provider: a call in cooldown |
| Base64Url.Base64UrlEncode | src/oauth/mod.rs:1056-1083 | the loop over groups of three and the remainder of one or two write the specified letters |
| Base64Url.Base64Inverse | src/oauth/mod.rs:1055-1083 | a strict decoder gives back every byte string, and accepts a string if and only if it is the encoding of what it decodes to |
| Base64Url.Base64Shape | src/oauth/mod.rs:1056-1083 | ceil(4n/3) characters, all in the URL-safe alphabet |
| Base64Url.KnownVectors | src/oauth/mod.rs:1055-1083 | the test vectors of section 10 of RFC 4648 for one, two and three octets |
| Base64Url.VerifierShape | src/oauth/mod.rs:1036-1043 | 32 random bytes give 43 characters, and different bytes give different verifiers |
| UrlQuery.UrlEncode | src/oauth/mod.rs:975-990 | the loop writes unreserved bytes as they are and all others as two upper-case hex digits |
| UrlQuery.PercentRoundTrip | src/oauth/mod.rs:975-990 | a decoder of percent-encoding gives back every byte string |
| UrlQuery.PercentAlphabet | src/oauth/mod.rs:980-986 | only unreserved characters and the percent sign are written |
| UrlQuery.PercentFixes | src/oauth/mod.rs:980-986 | a text is written unchanged if and only if all its bytes are unreserved |
| UrlQuery.EscapeExactly | src/oauth/mod.rs:975-990 | letters, digits and four marks, by their numbers, stand for themselves; any other byte is a percent sign and its two upper-case hex digits |
| UrlQuery.QueryRoundTrip | src/oauth/mod.rs:377-394 | splitting a query on its separators and decoding gives exactly the ordered list it was built from |
| AuthorizeUrl.BuildAuthorizeUrl | src/oauth/mod.rs:366-394 | the URL is the endpoint and the query of the five own parameters, the manifest's extras and the PKCE pair, in that order |
| AuthorizeUrl.ProviderReads | src/oauth/mod.rs:377-394 | the provider reads exactly those parameters out of the URL |
| AuthorizeUrl.QueryAsks | src/oauth/mod.rs:366-394 | who reads the query finds response type, client, redirect, state and scope of the start under their names, then the manifest's own parameters in order, and the S256 challenge where the manifest requires one |
| AuthorizeUrl.ScopeArrives | src/oauth/mod.rs:372-384 | the value a provider finds under "scope" in the query is the manifest's if and only if that has no space |
| Manifest.GoogleScopeIsLost | src/providers/manifest.rs:182-194 | with the scope of the Google entry the provider finds another one |
| Popup.PendingExact | src/oauth/mod.rs:396-458 | after every history a state is pending if and only if its last issue was not answered, for that issue's provider and with its verifier |
| Popup.ExchangeExact | src/oauth/mod.rs:418-443 | a callback reaches the token endpoint if and only if its state was issued to that provider and neither re-issued nor brought back since, and it sends that issue's verifier |
| Popup.SingleUse | src/oauth/mod.rs:407-424 | between two exchanges of a state lies a new issue of it |
| Popup.ExchangesBounded | src/oauth/mod.rs:407-424 | exchanges made and still possible never outnumber the issues of a state |
| Popup.WrongProviderBurnsState | src/oauth/mod.rs:418-427 | a callback for another provider consumes the state for everyone and leaves its verifier behind |
| Popup.StateNamesProvider | src/oauth/mod.rs:357-357 | with nonces of one length, equal states have equal providers |
| Refresh.StorageRoundTrip | src/oauth/mod.rs:997-1032 | a credential survives storage if and only if it has the whole client pair, or none of it and a token that is not itself such an object |
| Refresh.RotationKeepsPair | src/oauth/mod.rs:297-312 | one rotation keeps the client pair under exactly the same condition |
| Refresh.PairSurvives | src/oauth/mod.rs:239-313 | over any number of rotations, replies and failed writes a registered pair stays and the blob holds the last token issued and saved |
| Refresh.BareSurvives | src/oauth/mod.rs:239-313 | the same for bare tokens, as long as none issued looks like a blob |
| Refresh.RequestsCarryPair | src/oauth/mod.rs:239-263 | after any rotations the form of the next request carries the registered pair and the last token, not the configured client |
| Refresh.RequestsCarryConfigured | src/oauth/mod.rs:239-263 | after any rotations of a bare token the form carries the configured client, its secret if and only if one is configured, and the last token |
| OAuth.OAuthManager.StartPopup | src/oauth/mod.rs:340-405 | refuses for exactly the three reasons, or stores the state, provider and nonce, with a verifier; the query of the URL reads back to that state, the client, the redirect and the S256 challenge of the stored verifier |
| OAuth.OAuthManager.CompletePopup | src/oauth/mod.rs:410-489 | consumes the state, answers by the first check that fails, sends the form with the stored verifier, and stores the new token only on success |
| OAuth.CodeFormSays | src/oauth/mod.rs:446-462 | the token request by its names: grant type, code, redirect, client, the verifier if and only if one was stored, the secret if and only if there is one |
| OAuth.CallbackMeans | src/oauth/mod.rs:418-489 | each answer to a callback if and only if its check is the first that fails |
| OAuth.SecretSent | src/oauth/mod.rs:459-462 | the manifest's secret, or for Google alone the other one |
| OAuth.OAuthManager.Refresh | src/oauth/mod.rs:191-315 | sends the stored token with the registered client, caches the access token, and stores the next blob in the same shape; other keys are unchanged |
| OAuth.RefreshFormSays | src/oauth/mod.rs:239-263 | the refresh request by its names, whatever is stored: the token of the stored object or the stored text, its client and secret each by itself or the configured ones |
| OAuth.KeyNamesApart | src/oauth/mod.rs:309-312 | two providers have two ids in the key store, and an id is "oauth:" and the provider |
| OAuth.ExchangeMatchesAuthorize | src/oauth/mod.rs:360-458 | in every run the verifier sent answers the challenge in the URL that issued the state, with the same client; the redirect is the same if and only if the manifest fixes it or the start and the callback were given the same |
| Redirect.CallbackNamesTheSame | src/server/admin.rs:317-354 | without a placeholder, the callback names the address the browser started with if and only if the configured prefix is its origin |
| Redirect.PlaceholderAgrees | src/server/admin.rs:323-325 | a configuration in the placeholder form with the browser's origin gives every provider its own address |
| Redirect.PlaceholderExactly | src/server/admin.rs:323-325 | with a placeholder they agree for all providers if and only if the configuration is the button's own address with the placeholder for the provider |
| Redirect.AgreeExactly | src/server/admin.rs:317-354 | for an origin without a brace, callback and button name the same address for all providers under exactly that condition on the configuration |
| Redirect.OriginCompleted | src/server/admin.rs:317-337 | a bare origin, and an empty configuration, are completed with the provider's path |
| Redirect.ProviderSwapped | src/server/admin.rs:326-331 | in an address written for one provider another is put in its place |
| Redirect.SlashesDropped | src/server/admin.rs:332-335 | an origin with a slash after it is completed without it |
| OAuth.HandlersAgree | src/server/admin.rs:259-354 | with the handlers' addresses, whatever is configured, authorize and token requests name the same redirect for all providers if and only if the manifest fixes one, or the configured prefix is the origin, or, with a placeholder, the configuration is the button's address for it |
| Keys.KeyStore.Set | src/auth/keystore.rs:227-258 | a failed write changes nothing; otherwise the row opens to the text and the cache agrees |
| Keys.KeyStore.Get | src/auth/keystore.rs:262-303 | answers what the table holds, or a failure when the table cannot be read and the id is not cached |
| Keys.KeyStore.Delete | src/auth/keystore.rs:305-318 | a failed delete changes nothing; otherwise row and cache entry are gone |
| Keys.RunsAgree | src/auth/keystore.rs:227-318 | in every run with any failures the cache agrees with the table and the table holds the last text set, or nothing after a delete |
| Keys.GetAnswersHistory | src/auth/keystore.rs:262-303 | a get after any run answers what the history of changes says |
| Keys.CachedIsWarm | src/auth/keystore.rs:253-316 | an id is cached if and only if it was set or read with success since its last delete |
| Keys.DecryptUndoesEncrypt | src/auth/keystore.rs:137-182 | a sealed text is recognisable and opens, for its purpose, to the text |
| Keys.DecryptReads | src/auth/keystore.rs:157-182 | base64 of a nonce of twelve bytes and a sealed text, after the mark, opens to that text if it opens and is text; without the mark nothing does |
| Specificity.ScoreAll | src/routing/specificity.rs:457-495 | every category's score is its tool matches, its keyword weights in the last user text and its stickiness |
| Specificity.LastUserExactly | src/routing/specificity.rs:541-549 | the message scored is the user's and none after it is, unless no message is the user's and it is the first |
| Specificity.ToolAdds | src/routing/specificity.rs:462-470 | one more tool, anywhere in the list, adds three for each row of the category whose prefix its name has |
| Specificity.PrefixCounts | src/routing/specificity.rs:464-468 | and one more row of the table three if it is of the category and a prefix of the name |
| Specificity.KeywordAdds | src/routing/specificity.rs:473-480 | one more keyword, anywhere in the table, adds its weight if and only if it occurs in the lower-case text of the last user message |
| Specificity.StickinessAdds | src/routing/specificity.rs:486-495 | recent decisions add two if the last three are of the category, and else nothing |
| Specificity.FirstRuleExactly | src/routing/specificity.rs:503-510 | the rule of a category is the first that names it |
| Specificity.DefaultsInForce | src/routing/specificity.rs:499-507 | without a threshold of its own coding takes two, images and video four, everything else three |
| Specificity.OwnThreshold | src/routing/specificity.rs:499-510 | a rule's own threshold is what its category takes, and a category without a rule is never chosen |
| Specificity.PickBest | src/routing/specificity.rs:499-517 | the pick is the first in the walk, among the categories that clear their threshold and have a primary, that none beats |
| Specificity.Detect | src/routing/specificity.rs:427-527 | disabled, header override, panic on an empty request, or a best category with its own score, threshold and primary, and none if and only if none qualifies |
| Specificity.OverrideExactly | src/routing/specificity.rs:432-444 | a header decides if and only if it names a category that has a rule, with the largest score |
| Specificity.OrderIndependent | src/routing/specificity.rs:499-527 | score and threshold of the decision, and whether there is one, are the same for all orders of the map |
| Specificity.CategoryDependsOnTies | src/routing/specificity.rs:512-516 | the category is the same for all orders if and only if the best one is unique |
| Specificity.TieExists | src/routing/specificity.rs:463-516 | for any tables: a request with two tools that match one row each, of two categories with primaries and one threshold that a tool clears, has both as best categories, and its category depends on the order of the map |
| Specificity.ScoreGrows | src/routing/specificity.rs:463-485 | tools inserted anywhere and text around the last user text lower no score |
| Specificity.MoreEvidence | src/routing/specificity.rs:454-527 | they never turn a decision into none nor lower its score |
| Specificity.WritingOn | src/routing/specificity.rs:541-559 | writing on in the last user message, in its string or by a further part of its list, keeps it the last and only adds to the text that is scored |
| Validate.CheckProviders | src/config/validate.rs:171-206 | finds exactly the blank ids, the ids an earlier provider has, the malformed sealed keys and the bad URLs |
| Validate.KeyWrongExactly | src/config/validate.rs:186-196 | a key is faulty if and only if "enc:" is followed by nothing or by what is no base64 |
| Validate.LevelsExactly | src/config/validate.rs:342-347 | a log level is faulty unless it is one of six words in any case |
| Validate.CheckTier | src/config/validate.rs:212-252 | finds exactly what is wrong with a tier's primary, fallbacks, downgrade and context window |
| Validate.ValidationOutcome.CheckSemantic | src/config/validate.rs:133-340 | only adds findings, adds exactly the faults there are, and none if and only if the configuration is valid |
| Validate.NothingWrong | src/config/validate.rs:133-340 | no fault is possible if and only if the declarative validity predicate holds |
| Migrate.MigrateTree | src/config/service.rs:161-210 | the rewrite in place gives the specified tree |
| Migrate.ConfigFile.MigrateIfNeeded | src/config/service.rs:124-217 | the file, the backup and the result after a run, with every failure of reading, copying and writing |
| Migrate.FileChanges | src/config/service.rs:110-217 | a run changes the text if and only if the file is read, parses, wants migrating and its backup is there, and to the rewritten tree unless the write fails |
| Migrate.KeysDecryptToOriginals | src/config/service.rs:180-202 | with a master key every sealed auth key decrypts to its original text, none is plaintext, and nothing is left to migrate |
| ClientKeys.KeysFromConfig | src/server/auth.rs:308-328 | the keys are the non-empty admin key, entry texts and variable, as they are stored |
| ClientKeys.Authenticate | src/server/auth.rs:56-71 | a token passes if and only if it is the stored text of such a key |
| ClientKeys.AuthNames | src/server/auth.rs:308-322 | the settings of authentication by their names in the file |
| ClientKeys.AdmittedAfter | src/server/auth.rs:308-340 | what is admitted after a rewrite with a master key, exactly: of plain tokens only the admin key and the variable; of sealed ones those admitted before and the sealed texts that took the place of plain keys |
| ClientKeys.KeysKeepWorking | src/config/service.rs:180-202 | all plain tokens are admitted as before if and only if authentication is off or every plain key of the list is also the admin key or the variable |
| ClientKeys.PlainKeyRefused | src/config/service.rs:180-202 | a plain list key that was admitted is refused after the rewrite, and its sealed text is admitted |
| ClientKeys.NoKeyNoChange | src/config/service.rs:203-209 | without a master key the same tokens are admitted |
| Migrate.RestUnchanged | src/config/service.rs:161-210 | nothing but rate limits and the text of auth keys changes, and rate limits only where there was no such table |
| Migrate.LimitsWritten | src/config/service.rs:161-175 | where there were no rate limits the numbers 600 and 1200 for all, 60 and 120 for each key, are written under their names |
| Migrate.KeyWritten | src/config/service.rs:180-202 | a key in plain text becomes the mark and the base64 of the nonce and the text sealed for the purpose of auth keys |
| Migrate.FileNames | src/config/service.rs:124-151 | what the rewrite looks for, by the names in the file |
| Migrate.PlaintextLeft | src/config/service.rs:182-209 | plaintext is left if and only if there was some and no master key |
| Migrate.SettledWithKey | src/config/service.rs:110-151 | after a successful run with a key no later run changes anything, whatever fails |
| Migrate.SettledWithoutKey | src/config/service.rs:161-210 | without a key the rewrite of a rewritten tree is that tree |
| Migrate.SettledFile | src/config/service.rs:110-217 | without a key a second successful run writes the same file |
| Migrate.BackupStays | src/config/service.rs:152-160 | no run touches an existing backup |
| Migrate.BackupExactly | src/config/service.rs:152-160 | after any runs and failures the backup is what the first run whose copy left a file wrote, if the file wanted migrating; otherwise there is none and nothing changed |
| Migrate.BackupIsOriginal | src/config/service.rs:152-160 | the backup is the original file if and only if the file wanted migrating and the first copy that left a file left that text |
| Migrate.PartialCopyStays | src/config/service.rs:152-160 | what a failed copy leaves is the backup from then on |
| Migrate.SingleTableIgnored | src/config/service.rs:134-151 | a single table under auth.keys neither triggers a rewrite nor is changed by one |
| Schema.ExtractSystem | src/schema/inbound.rs:140-155 | joins the system texts and keeps the other messages |
| Schema.SystemTextExactly | src/schema/inbound.rs:140-155 | the system text is every system message's, in order, one to a line, and there is none if and only if no message is one |
| Schema.TextPartsSay | src/schema/inbound.rs:185-226 | a list of text parts says their texts one after the other, in a system message and in any other |
| Schema.KeptExactly | src/schema/inbound.rs:140-165 | exactly the messages that are not system messages are kept, each once and in order, and none has the system role |
| Schema.CanonicalKeepsText | src/schema/inbound.rs:206-226 | the text of the canonical blocks is that of the inbound content if and only if that is a string or a list; anything else, null too, becomes its JSON text |
| Adapters.OpenAiMessages | src/providers/adapters/openai.rs:80-87 | the system text first, then each message in its place |
| Adapters.FlatMessages | src/providers/adapters/generic.rs:84-100 | the same for the flat messages of the Generic adapter, and of the Responses adapter's input |
| Adapters.SystemLeads | src/providers/adapters/openai.rs:80-84 | the message that leads has the system role and the whole system text |
| Adapters.GoogleBody | src/providers/adapters/google.rs:90-120 | the contents list, system messages skipped |
| Adapters.GoogleSkipsNothing | src/providers/adapters/google.rs:92-120 | for extracted messages the skip drops none and moves none |
| Adapters.BodiesKeepText | src/providers/adapters/openai.rs:241-285 | the OpenAI, Generic, Responses and Google forms of every message carry its own text |
| Adapters.OpenAiKeepsCalls | src/providers/adapters/openai.rs:294-309 | tool calls read back from an OpenAI body are the message's own, in order |
| Adapters.InboundCallsWritten | src/providers/adapters/openai.rs:294-309 | the calls beside a message stand in the OpenAI body with their own ids, names and arguments, in order; arguments that do not parse become null |
| Adapters.ImageComesBack | src/providers/adapters/anthropic.rs:390-420 | an inline image read back from an Anthropic message is that image |
| Adapters.ImageUrls | src/providers/adapters/openai.rs:255-285 | OpenAI is given the URL of an image as it came, or a data URL with the type and the data |
| Adapters.ImagesElsewhere | src/providers/adapters/google.rs:104-118 | Google is given inline images only, with their type; Anthropic the URL of any other |
| Adapters.ResultComesBack | src/providers/adapters/anthropic.rs:358-382 | a tool result written as a block reaches Anthropic with the id of its call and the texts of its content |
| Adapters.InboundResultArrives | src/schema/inbound.rs:278-289 | a tool message with one result block becomes one Anthropic result with that id and content |
| Adapters.CallsArrive | src/providers/adapters/generic.rs:89-100 | all calls of a message, those among its blocks and those beside them, can be read back from OpenAI if and only if none is a block, from Anthropic if and only if also the assistant made those beside or there are none, from Generic, Responses and Google if and only if there are none |
| Adapters.BlockCallLost | src/schema/inbound.rs:273-277 | an assistant's call that is written as a block of the content is read, and no provider receives it |
| Adapters.NullBecomesText | src/schema/inbound.rs:206-213 | an assistant message with null content says "null" to every provider |
| Adapters.AssistantComesBack | src/providers/adapters/anthropic.rs:339-357 | an assistant message read back from an Anthropic body is its text blocks, then its tool calls |
| Adapters.AnthropicKeepsText | src/providers/adapters/anthropic.rs:331-387 | an Anthropic body keeps a message's text if and only if its role is user or assistant or it has none |
| Adapters.ToolStringLost | src/providers/adapters/anthropic.rs:358-382 | a tool answer given as a string becomes an empty list |
| Adapters.MessageTextArrives | src/schema/inbound.rs:157-226 | the text of a message that is not a system message arrives unchanged if and only if its content is a string or a list; at Anthropic, of a tool message, if and only if it has none |
| Adapters.MessageRoleArrives | src/providers/adapters/openai.rs:241-247 | OpenAI, Generic and Responses are told "assistant" and "tool" as they are and "user" for any other role; Google "model" and Anthropic "assistant" exactly for an assistant, both "user" otherwise |
| Adapters.MessageLinksArrive | src/providers/adapters/openai.rs:286-293 | OpenAI is told the speaker's name and the id of the call that a tool answers |
| Adapters.RequestBodies | src/schema/inbound.rs:140-155 | for a whole request the system text leads, and the k-th message that is not a system message is in the k-th place of every body, under its role, with its name and call id at OpenAI, and with its text under exactly those conditions |

## Left out

- Rounding of floating point: credits, rates and costs are reals, so a NaN, which the range checks of the validator let pass, is not modelled.
- Saturation and overflow of counters: naturals, except bytes, 32-bit lengths, 32-bit token counts, the 32-bit maximum of the header override and the 64-bit Retry-After.
- Interleavings of tasks: the limiter, the registry, the key store and the OAuth maps are sequential objects.
- HTTP, transport errors in the middle of a stream, middleware, the web pages, telemetry and logging, and latencies in attempt records.
- Invalid UTF-8 and Unicode case folding: names and texts are bytes or characters, and lower-casing is ASCII.
- AES-GCM, HKDF, SHA-256, JSON, TOML, standard base64, URL and socket-address parsing: functions with the facts stated in their `Correct` predicates.
- SQL: the credentials table is a map whose statements take effect or fail; sealing a text does not fail.
- The stored creation of OAuth configurations (`setup`), the expiry and scopes of cached credentials, the paste-code flow and the device-code flow.
- The keyword and tool-prefix tables and the header spellings of the specificity detector: parameters. Its free-text reasons are not modelled.
- The unknown-field and deprecation walks of the validator, and the wording of its findings.
- The SSE loop of the Google adapter does not look for an end marker: there a `[DONE]` line goes to the JSON parser, which refuses it.
- Parameters of provider requests other than messages (sampling, tools, tool choice), and the parsing of provider replies other than Kiro's.
- Audio and video in provider bodies: no adapter writes them.
- Other ways in than the keys of the configuration: API keys of the user table, sessions and the admin password; the migration does not touch them.
- Session stickiness in service: the chat handler passes the detector no recent categories; the model takes any.
- The tier scorer, budgets, prices and tier assignment.
