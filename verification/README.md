# Gozar: a verified model of the proxy's core

Gozar is an LLM proxy. A request comes in with a client token, the token's usage limit is
checked, a fallback chain of upstream credentials is ordered, and the credentials are tried
in turn, buffered or streamed. What was used is written to a durable log and to expiring
counters. This project models that core in Dafny and proves what it promises.
`dafny verify dfyconfig.toml` checks all of it.

The modules follow the program.

- `Calendar`, `Metering`, `Limits`, `Analytics`: the `usage_record` log, the Redis counters
  that index it, usage limits under concurrent requests, and range reports. Keys are kept by
  their parts; `Metering.KeyTextInjective` justifies that for the strings Redis sees. Time is
  whole seconds, 0 being the first instant of the calendar's year 1. A read needs its clock
  to be at least 23 hours past that instant.
- `Utf8`, `Sse`, `Chunking`: chunk-wise decoding and the incremental event-stream parser,
  against a one-pass parse and against sections 9.2.5 and 9.2.6 of the WHATWG HTML standard.
- `HttpRetry`, `Routing`, `Fallback`: bounded HTTP retries, chain evaluation and session
  affinity, and the abstract fallback machine. The network is a script: what the n-th call
  meets.
- `Admission`, `Pipeline`, `Streaming`: the router that decides on a request from the token
  table, the counters, the chain tables and the session map, and the chat, embeddings and
  streaming requests that refine the machine over the nodes it plans.
- `Interleaving`: any interleaving of requests at the gateway, seen by one token's limit.
- `Ordering`, `ChainTables`, `Migration0011`: the chain tables, as a book of chains under
  operators' commands, and the migration that split chains into lanes.
- `OpenAi`, `Anthropic`, `Codex`: the translation adapters, over an abstract JSON codec.
  `EndToEnd` joins them with parsing and framing: from the provider's bytes to the turn the
  client of a streaming request has folded.
- `Tokens`: client tokens, as a ledger under operators' commands, over an abstract keyed
  digest and envelope encryption.
- `Prelude`: shared sequence vocabulary.

Some properties one might expect are false of the code. The model keeps the code as it is,
gives an input, and proves exactly when the property holds:

- `iter_sse_data` decodes each network chunk on its own, although its documentation says
  events spanning chunks are reassembled. The payloads are those of the whole stream exactly
  when no boundary cuts a character inside a `data` value (`Chunking.PayloadsAgreeIff`), and
  the decoded text is the same exactly when none cuts any character (`Utf8.ChunkwiseIff`);
  `Sse.CutCharacterChangesPayload` is an input.
- The parser dispatches an event the end of the stream interrupts, which the standard
  discards (`Sse.ConformsIff`; input `Sse.InterruptedEventDiffers`).
- A chat session whose id starts with `embeddings:` shares its key with an embeddings
  session (`Routing.SessionKeysCollideIff`; input `Routing.BindingCrossesLanes`).
- The streaming path records the negation of whether a credential was refreshed
  (`Streaming.RefreshedFlagIsInverted`).
- Counters agree with the log as long as reads lag at most one hour for the rolling window,
  one day for daily and nine days for monthly counters, and always for cumulative ones; no
  longer lag is safe (`Metering.ReadDelayBound`; inputs `Metering.LateReadMisses`).
- A streamed Codex answer shows the buffered answer's tool calls exactly when at most one
  was sent, and the right finish reason exactly when none was and nothing was cut short
  (`Codex.StreamedCallsIff`; input `Codex.TwoCallsDiffer`).
- A streamed Anthropic answer loses text and tool input that come whole with a block's start
  event, and nothing else (`Anthropic.StreamedEqualsBuffered`; inputs
  `Anthropic.StartTextIsLost` and `Anthropic.StartInputIsLost`).

## Model

| member | source | states |
|---|---|---|
| Calendar.DateOfInverse | gozar/usage/service.py:114-136 | every day number has one valid calendar date, and the date gives the day number back |
| Calendar.DayNumberInverse | gozar/usage/service.py:114-136 | every valid date is the date of its own day number |
| Calendar.GregorianYears | gozar/usage/service.py:114-136 | the days before a year are 365 a year and one for every fourth year, less one for every hundredth, plus one for every four hundredth |
| Calendar.GregorianMonths | gozar/usage/service.py:114-136 | the days before a month, in closed form |
| Calendar.LabelsSpell | gozar/usage/service.py:114-136 | a day's label spells year, month and day in decimal, a month's label its start |
| Calendar.SameMonthIsClose | gozar/usage/service.py:89-94 | two instants of one calendar month are less than 31 days apart, which is why the monthly TTL is long enough |
| Metering.KeyTextInjective | gozar/usage/service.py:139-155 | two counters share a Redis key only if they are the same counter, for four-digit years |
| Metering.CounterKeyInjective | gozar/usage/service.py:114-155 | equal key strings mean the same subject kind, id, metric, window and calendar period, although the window's name is not in the key |
| Metering.KeySpelled | gozar/usage/service.py:139-155 | the key string is `usage`, the subject's kind, its id, the metric's name and the period's label between colons |
| Metering.PeriodSpelled | gozar/usage/service.py:114-136 | the label is `all`, the date, the year and month, or the date and hour of the instant |
| Metering.RowSays | gozar/usage/service.py:207-230 | an event's row has its ids and counts, missing counts zero and a missing total the sum; it is flagged when nothing was counted, and there is none for a negative count |
| Metering.RecordedEffect | gozar/usage/service.py:233-269 | a record bumps exactly the counters of its token and account in its periods, each once, and no other |
| Metering.IncrementBumps | gozar/usage/service.py:233-269 | a queued increment with its cleanup expiry adds to the live value, starts an expired one from zero, and renews the TTL |
| Metering.UsageRecorder.IncrementCounters | gozar/usage/service.py:233-269 | the subject, window and metric loop leaves exactly the sixteen counters of the record advanced |
| Metering.UsageRecorder.RecordUsage | gozar/usage/service.py:207-331 | a valid event becomes one log record and its counter increments, and the store stays the replay of the log; a negative count changes nothing |
| Metering.OrderlySnoc | gozar/usage/service.py:272-331 | a log stays orderly exactly when each record's increments run after its instant and after those of the records before it |
| Metering.UsageRecorder.ReadCounter | gozar/usage/service.py:334-370 | the read loop over the 24 buckets returns the log's consumption |
| Metering.BucketExact | gozar/usage/service.py:89-94 | a bucket's counter equals the sum over the log records of its period as long as its TTL has not run out |
| Metering.LiveReadIsExact | gozar/usage/service.py:334-370 | a live daily, monthly or cumulative counter reads the log's consumption of its period |
| Metering.ReadIsExact | gozar/usage/service.py:334-370 | for every orderly run of records and every subject, metric and window, a read within the window's margin equals the durable log's consumption |
| Metering.RollingSandwich | gozar/usage/service.py:352-365 | the rolling reading counts everything of the last 23 hours and nothing 24 or more hours old |
| Metering.TtlOutlastsPeriod | gozar/usage/service.py:89-94 | within a calendar window's margin no counter of the current period has expired |
| Metering.LateReadMisses | gozar/usage/service.py:89-94 | for each expiring window, a record and a late read for which the reading is wrong |
| Metering.ReadDelayBound | gozar/usage/service.py:89-94 | all reads of a window within a delay are exact if and only if the delay is at most an hour (rolling), a day (daily), nine days (monthly), or anything (cumulative) |
| Limits.ReachedAtThreshold | gozar/usage/limits.py:115-181 | a limit is reached exactly at its threshold, for absolute and percentage metrics alike |
| Limits.CheckedIsBelow | gozar/gateway/pipeline.py:195-246 | what the counter check lets through, the durable log has below its limit: requests for a request limit, total tokens for every other |
| Limits.CounterCounts | gozar/gateway/pipeline.py:195-205 | the counter behind a request limit counts the log's requests, the one behind any other limit the log's total tokens |
| Limits.StepKeepsBound | gozar/gateway/pipeline.py:195-246 | every check, record or abandonment keeps period consumption plus what is in flight under the limit plus the concurrency slack |
| Limits.RunKeepsBound | gozar/gateway/pipeline.py:195-246 | the same bound in every state of every interleaving |
| Limits.ConcurrentOvershoot | gozar/gateway/pipeline.py:195-246 | with k requests in flight worth at most T each, what the limit counts in any period or rolling window stays below L + k·T |
| Limits.TokenLimitOvershoot | gozar/gateway/pipeline.py:195-246 | every limit that does not count requests keeps the total tokens logged in any period below the limit and k requests' tokens, L being tokens, or L percent of the capacity |
| Limits.RequestCountOvershoot | gozar/gateway/pipeline.py:195-246 | at most ceil(L) - 1 + k requests fall into a period |
| Limits.ZeroLimitAdmitsNothing | gozar/gateway/pipeline.py:834-835 | with a limit of zero no request is ever admitted |
| Analytics.AdjacentRangesAdd | gozar/analytics/service.py:86-102 | reports over adjacent half-open ranges add up to the report over their union |
| Analytics.ReportSays | gozar/analytics/service.py:240-270 | a report's columns are the number of rows it covers and their prompt, completion and total tokens |
| Analytics.AllSubjectsAddUp | gozar/analytics/service.py:240-270 | the aggregates of all tokens, or of all accounts, add up to the unfiltered aggregate |
| Analytics.TokensAndAccountsAgree | gozar/analytics/service.py:341-383 | all token reports together equal all account reports together |
| Analytics.MonthIsItsRange | gozar/usage/service.py:114-136 | an instant lies in a calendar month's half-open range exactly when its label names that month |
| Analytics.PeriodReportIsCounter | gozar/analytics/service.py:240-270 | a report over one UTC day or month equals the daily or monthly counter as long as that counter is live |
| Utf8.ChunkwiseIff | gozar/gateway/streaming.py:89-92 | decoding chunk by chunk gives the whole text if and only if no chunk boundary cuts a character, and never less text |
| Utf8.AsciiNeverCut | gozar/gateway/streaming.py:92 | no chunking of ASCII bytes cuts a character |
| Utf8.DecodeEncode | gozar/gateway/streaming.py:92 | decoding gives back every encoded text |
| Utf8.LoneByte | gozar/gateway/streaming.py:92 | one byte outside ASCII is one replacement character |
| Utf8.BadSecondByte | gozar/gateway/streaming.py:92 | a lead byte before a byte that cannot follow it, overlong and surrogate forms included, is replaced on its own |
| Utf8.GoodSecondByte | gozar/gateway/streaming.py:92 | any other second byte is read on: a cut-off longer sequence is one replacement character |
| Sse.DrainBuffer | gozar/gateway/streaming.py:93-107 | the inner loop consumes exactly the complete lines of the buffer |
| Sse.ReadChunks | gozar/gateway/streaming.py:86-107 | after any chunks the parser's state is that of one pass over all text so far |
| Sse.IterSseData | gozar/gateway/streaming.py:77-116 | the incremental parser yields the payloads of a one-pass parse of the decoded chunks |
| Sse.CutCharacterChangesPayload | gozar/gateway/streaming.py:92 | two chunks that cut a character give another payload than the stream as a whole |
| Chunking.GlyphsOf | gozar/gateway/streaming.py:92 | the chunk-wise text is the whole text with each cut character shown as replacement characters, and a cut lies in a data value exactly when some boundary cuts one |
| Chunking.ParseBoth | gozar/gateway/streaming.py:77-116 | both texts parse to the same payloads exactly when no character of a data value is in pieces |
| Chunking.PayloadsAgreeIff | gozar/gateway/streaming.py:77-116 | parsing chunk by chunk gives the payloads of the whole stream if and only if no boundary cuts a character inside a data value |
| Chunking.ChunkingIrrelevant | gozar/gateway/streaming.py:77-116 | of two splits of a stream, one of them clean, the payloads agree exactly when the other is clean too |
| Sse.ParseFrames | gozar/gateway/streaming.py:51-59 | parsing undoes framing: each frame gives back exactly its payload |
| Sse.DoneIs | gozar/gateway/streaming.py:46-48 | exactly the terminator, with any white space around it, is recognised as the end |
| Sse.StripCrIs | gozar/gateway/streaming.py:93-95 | all trailing CRs of a line are stripped and nothing else |
| Sse.WireRoundTrip | gozar/gateway/streaming.py:51-116 | framed chunks and the terminator, re-split at any byte boundaries, parse to the payloads and then the terminator |
| Sse.StandardLinesAreStripped | gozar/gateway/streaming.py:93-95 | where CR stands only before LF, the LF lines without trailing CR are the standard's lines |
| Sse.ConformsIff | gozar/gateway/streaming.py:62-116 | on LF and CRLF streams without byte order mark the parser dispatches what section 9.2.6 dispatches, if and only if no event is open at the end |
| Sse.InterruptedEventDiffers | gozar/gateway/streaming.py:109-116 | a stream that ends inside an event, which the parser dispatches and the standard discards |
| Sse.BlankLineEndsEvent | gozar/gateway/streaming.py:96-101 | a stream ended by a blank line is read as the standard reads it |
| HttpRetry.UpstreamClient.constructor | gozar/providers/client.py:109-132 | a configured attempt count below one means one attempt |
| HttpRetry.UpstreamClient.Aclose | gozar/providers/client.py:139-143 | only a client this object made is closed |
| HttpRetry.UpstreamClient.Request | gozar/providers/client.py:226-292 | at most the configured calls, all but the last transient, the last alone deciding; the loop never falls out of its end |
| HttpRetry.UpstreamClient.Stream | gozar/providers/client.py:295-354 | the forwarded bytes are those of the last call alone, and every earlier call forwarded none |
| HttpRetry.TransientForwardsNothing | gozar/providers/client.py:318-354 | a call that is retried has forwarded no byte |
| HttpRetry.TriedAgain | gozar/providers/client.py:226-354 | transport failures, broken bodies, 429 and server errors are tried again, a broken stream only while it delivered no byte |
| HttpRetry.DeliveredIsAll | gozar/providers/client.py:318-354 | a successful answer forwards every byte it delivers, in order |
| HttpRetry.EndSays | gozar/providers/client.py:247-354 | a call ends in the whole answer, in a failure with the error status, or in a transport failure |
| HttpRetry.FinalCallUnique | gozar/providers/client.py:247-292 | the call at which retrying stops is determined by the answers alone |
| HttpRetry.DelayBounds | gozar/providers/client.py:167-181 | every wait lies between half the capped exponential term and the whole of it |
| HttpRetry.JitterSpans | gozar/providers/client.py:167-181 | every wait between those bounds can be drawn |
| HttpRetry.WaitsGrow | gozar/providers/client.py:167-181 | each wait is at least half the doubled base, and at least half the cap once that is reached |
| HttpRetry.TermsDouble | gozar/providers/client.py:167-181 | without a cap the waits are drawn from the base and from twice as much each time |
| HttpRetry.NoWaits | gozar/providers/client.py:167-181 | without a base there is no waiting |
| HttpRetry.TotalWaitBound | gozar/providers/client.py:167-181 | all waits together stay under base·(2^n - 1) and, with a cap, under n·cap |
| Routing.EvaluationKeepsNodes | gozar/routing/chains.py:122-161 | evaluation attempts each available node as often as the chain lists it and no other |
| Routing.AffinityIsStable | gozar/routing/chains.py:151-159 | affinity is a stable partition, also for an account listed several times |
| Routing.EvaluationMembers | gozar/routing/state.py:33-62 | a node is attempted exactly when it is listed and its credential is enabled, undeleted, authorized and under its limit |
| Routing.SessionKeysCollideIff | gozar/routing/session.py:38-43 | exactly when two sessions share a key |
| Routing.SessionKeySpelled | gozar/routing/session.py:38-43 | the Redis keys of the two kinds of sessions |
| Routing.SessionMap.Record | gozar/routing/session.py:46-72 | a binding is written for a non-empty session id, and every session of that key then reads the account until it expires |
| Routing.SessionMap.AttemptOrder | gozar/routing/session.py:99-129 | while a session's binding lives, every available node of the bound account comes before all others, in chain order |
| Routing.BindingCrossesLanes | gozar/routing/session.py:38-43 | a chat session that is answered with an embeddings session's binding |
| Fallback.LooserAllowsMore | gozar/gateway/pipeline.py:419-447 | retryable ⊆ auth_or_retryable ⊆ any_error, error by error |
| Fallback.EdgeLetsPass | gozar/gateway/pipeline.py:419-447 | a strict edge lets pass upstream failures without a status, with 429 or 5xx; a middle one also 401, 403 and a credential that asks for reauthorization in any case of letters; a loose one everything |
| Fallback.CallWithReactiveRefresh | gozar/gateway/pipeline.py:1003-1033 | two upstream calls exactly when a subscription's first call failed upstream with 401, the refresh reported true and the credential was acquired again; which call answered, and whether after a refresh |
| Fallback.RefreshFailures | gozar/gateway/pipeline.py:1003-1033 | which of the five possible failures a failed node answers with |
| Fallback.ServedCredential | gozar/gateway/pipeline.py:1003-1033 | a served node names the credential that served it |
| Fallback.UpstreamCalls | gozar/gateway/pipeline.py:917-951 | a run over n nodes makes at most 2n upstream calls |
| Fallback.PipelineTrace.UpdateSelectedStreamAttempt | gozar/gateway/pipeline.py:645-672 | a failed stream turns the selected attempt into a stream error and leaves the others alone |
| Fallback.RunUnique | gozar/gateway/pipeline.py:917-951 | attempt order and answers determine the run |
| Fallback.FailedRun | gozar/gateway/pipeline.py:393-407 | a failed run answers an upstream failure with the last attempt's status and message |
| Fallback.StrictEdgeStops | gozar/gateway/pipeline.py:917-951 | a run passes a strict edge exactly at a transient upstream failure |
| Fallback.SuccessIsLast | gozar/gateway/pipeline.py:953-1000 | only the last attempt of a run can have succeeded |
| Fallback.LooserExtends | gozar/gateway/pipeline.py:419-447 | loosening policies only extends the attempts, and a strict success stays the same success on the same node |
| Admission.Router.Authenticate | gozar/gateway/pipeline.py:816-831 | a token is found exactly when the request names an active one from inside or presents the key issued for one |
| Admission.Router.LimitReachedFor | gozar/gateway/pipeline.py:208-220 | the check is the subject's counter, read by the metering service, against its limit |
| Admission.Router.SnapshotStates | gozar/gateway/pipeline.py:290-346 | the snapshot holds every listed credential's state, its limit checked against its own counter |
| ChainTables.ChosenChain | gozar/gateway/pipeline.py:249-287 | a pinned chain if it exists; else the first chain with the lane that names the model, or the first without selector when none does, in creation order; none only when neither exists |
| Admission.Router.AuthenticateAndRoute | gozar/gateway/pipeline.py:794-882 | the plan or typed error is the decision of the gates in their order on the tables, counters and sessions as they are, with the chain the trace is to name |
| Admission.Router.ChangeChains | gozar/tokens/models.py:89-94 | an operator's command on the chains changes the book as commanded and keeps every token's assigned chain an existing one |
| Admission.Router.AssignedChainRoutes | gozar/gateway/pipeline.py:265-269 | a token assigned to a chain is always routed through it, unless the request asks for another |
| Admission.Router.AskedChainRoutes | gozar/gateway/pipeline.py:265-269 | the chain a request asks for comes first, and is not replaced when it does not exist |
| Admission.Router.LaneIsGiven | gozar/gateway/pipeline.py:840-868 | the lane a request is routed through has exactly the nodes last given for it, in order |
| Admission.Router.PlanIsGiven | gozar/gateway/pipeline.py:840-882 | every planned node is one given for the request's own lane of the chosen chain, with its account, policy and model |
| Admission.Router.SessionSticks | gozar/routing/session.py:99-129 | while a session's binding lives, an admitted request of it plans the bound account's usable nodes before all others |
| Admission.Router.DecisionIsRight | gozar/gateway/pipeline.py:794-882 | an admitted request carries an active token's key; by the durable log that token and every planned account are below their limits; the plan is the usable nodes of its lane; a refused request has the reason it is refused for |
| Admission.Router.AdmittedBelowTokenLimits | gozar/gateway/pipeline.py:195-246 | an admitted request's token and every account in its plan have fewer total tokens logged than their token limits |
| Admission.Router.OneToken | gozar/tokens/service.py:295-317 | a request authenticates at most one token |
| Admission.Router.RefusedIsNotAdmitted | gozar/gateway/pipeline.py:794-882 | no request is both admitted and refused, and there is one reason for a refusal |
| Pipeline.EventIsStored | gozar/gateway/pipeline.py:349-381 | a served request is stored with the reported counts, flagged as unmetered exactly when all are zero |
| Pipeline.RowsSay | gozar/gateway/pipeline.py:786-791 | what the trace row of a served and of a failed request says, error kind by error kind |
| Pipeline.RefusalSays | gozar/gateway/pipeline.py:794-882 | the status and trace outcome of every refusal |
| Pipeline.ExhaustionSays | gozar/gateway/pipeline.py:393-407 | the status and trace outcome of a request whose every attempt failed |
| Pipeline.Gateway.OpenTrace | gozar/usage/service.py:634-667 | one open trace row is added with what the request says of itself |
| Pipeline.Gateway.SetTraceChain | gozar/usage/service.py:614-631 | the row's chain becomes the effective one and nothing else changes |
| Pipeline.Gateway.FinalizeTrace | gozar/usage/service.py:670-713 | the row's outcome, account, status and end are set and nothing else |
| Pipeline.ChatLoop | gozar/gateway/pipeline.py:917-951 | the chat loop is a run of the fallback machine, its trace says so attempt by attempt, and its upstream calls are counted |
| Pipeline.EmbeddingsLoop | gozar/gateway/embeddings.py:222-297 | the embeddings loop is a run of the same machine, an unparsable answer being a failed attempt |
| Pipeline.SelectCapable | gozar/gateway/embeddings.py:98-112 | the nodes tried are the known accounts with an embeddings endpoint, in order |
| Pipeline.CapableAre | gozar/gateway/embeddings.py:98-112 | a node is tried for embeddings exactly when its credential is known and its provider has the endpoint |
| Pipeline.UnparsableFails | gozar/gateway/embeddings.py:222-297 | an answer that does not parse fails its node upstream, without a status |
| Pipeline.Gateway.Begin | gozar/gateway/pipeline.py:736-752 | the request is decided on the state it arrives in, and its trace is opened and names the chain it is routed through |
| Pipeline.Gateway.CompleteChat | gozar/gateway/pipeline.py:736-782 | a refused request attempts nothing; an admitted one is a run over its plan, one trace opened and finalized once; success exactly when one log record was written for the last attempt's account and any session bound to it; otherwise only the trace changed |
| Pipeline.Gateway.CompleteEmbedding | gozar/gateway/embeddings.py:140-321 | the same for embeddings over the capable nodes |
| Pipeline.ChatThenChat | gozar/gateway/pipeline.py:736-782 | after a served session request, the session's next admitted request within the binding's life plans the serving account's usable nodes first |
| Interleaving.AdmittedPassed | gozar/gateway/pipeline.py:834-835 | a request the router admits has passed its token's check on the counters of the log |
| Interleaving.Interleave | gozar/gateway/pipeline.py:794-1000 | over every interleaving of arriving, served and failing requests at the gateway, its log is that of a run of the limit's gate; with timely reads and at most k requests of the token under way, its consumption of any period stays below L + k·T |
| Streaming.PeekLosesNothing | gozar/gateway/pipeline.py:1036-1057 | pulling the first chunk and chaining it back gives the whole stream |
| Streaming.RefreshedFlagIsInverted | gozar/gateway/pipeline.py:1183-1217 | the streaming retry is the buffered one except that its flag is the negation |
| Streaming.EstablishedIsOneExchange | gozar/gateway/pipeline.py:1158-1180 | an established stream is one HTTP call's bytes, whole; a failed establishment forwarded none |
| Streaming.FailureKeepsStatus | gozar/gateway/pipeline.py:1158-1180 | a stream that could not be opened failed upstream with the status its last call answered, or with none when the connection failed |
| Streaming.EstablishLoop | gozar/gateway/pipeline.py:1089-1155 | stream establishment is a run of the same fallback machine |
| Streaming.OneSource | gozar/gateway/pipeline.py:1089-1155 | of all nodes and HTTP calls of a run, one call forwarded bytes |
| Streaming.TranslatePayloads | gozar/gateway/pipeline.py:1245-1263 | the frames are the translated non-null events up to the upstream terminator, and the usage is the last one reported |
| Streaming.UsageIsLast | gozar/gateway/pipeline.py:1245-1263 | a stream's usage is that of the last chunk that carried any |
| Streaming.SseResponseStream | gozar/gateway/pipeline.py:1220-1265 | the client's output is those frames and one terminator, unless the stream failed first |
| Streaming.ServeStream | gozar/gateway/pipeline.py:1220-1315 | a stream that ends well is metered, bound and closed as a success; one that fails is closed as that failure, its attempt a stream error, and nothing is metered |
| Streaming.StreamChat | gozar/gateway/pipeline.py:1318-1452 | refused requests attempt nothing; the client's whole output comes from one HTTP call on the last attempted node, of at most two upstream requests a node; a well-ended stream is metered for that node's account, and a failed one leaves a stream error in the trace |
| EndToEnd.ClientSeesStream | gozar/gateway/pipeline.py:1220-1265 | a client that reads the output by the standard has folded exactly the translated events the provider sent before its terminator |
| EndToEnd.AnthropicClient | gozar/gateway/pipeline.py:1220-1265 | from an Anthropic stream's bytes to the client's turn: the buffered message's finish reason and ordered calls; its text and argument values exactly when none came whole with a block's start |
| EndToEnd.CodexClient | gozar/gateway/pipeline.py:1220-1265 | from a Codex stream's bytes to the client's turn: the buffered text, the buffered calls exactly when at most one was sent, and the finish reason exactly when none was and nothing was cut short |
| ChainTables.RowsForIsLanes | gozar/routing/service.py:133-165 | the stored rows give each lane its nodes in input order at positions 0, 1, ... |
| ChainTables.ReplacedLanes | gozar/routing/service.py:133-165 | replacing writes the chain's own lanes and leaves every other chain's alone |
| ChainTables.ChainTables.ReplaceEntries | gozar/routing/service.py:133-165 | a chain stores exactly the nodes given for each lane, with their account, policy and stripped model, in input order; other chains keep their rows |
| ChainTables.ChainTables.BuildRows | gozar/routing/service.py:151-164 | the per-lane counters number the rows of each lane from zero |
| ChainTables.ChainTables.CreateChain | gozar/routing/service.py:192-215 | a fresh chain with its entries, or nothing when the client key is taken |
| ChainTables.ChainTables.UpsertChainByKey | gozar/routing/service.py:218-250 | the chain of the key is updated in place under its id, or a new one is made |
| ChainTables.ChainTables.EditChain | gozar/routing/service.py:253-280 | only what is given changes, and an absent chain changes nothing |
| ChainTables.ChainTables.DeleteChain | gozar/routing/service.py:304-308 | the chain and its entries go, nothing else does |
| ChainTables.RunCommands | gozar/routing/service.py:192-308 | every run of commands leaves the tables with exactly the chains `BookOf` computes from those commands and their fresh ids, each loading node by node as the input they last gave it; positions stay contiguous, ids and keys unique, no entry orphaned |
| ChainTables.OrderedIsLanes | gozar/routing/service.py:118-130 | a chain reads as its chat lane then its embeddings lane whatever order the table holds its rows in |
| ChainTables.LoadedLane | gozar/routing/service.py:311-340 | loading and taking a lane gives that lane's rows by position |
| ChainTables.PersistenceRoundTrip | gozar/routing/service.py:88-165 | a chain that stores an input loads as that input: each lane has exactly the nodes given for it, with their own account, policy and model, a bare account id being a chat node for any error and model |
| ChainTables.WrittenRoundTrip | gozar/routing/service.py:133-340 | in every valid table each chain loads as the input the book has for it, node by node |
| ChainTables.KeyIsStable | gozar/routing/service.py:218-250 | over every run of commands a client key names one chain id until that chain is deleted, and its input is the last one given by an upsert of the key or an edit of the id |
| ChainTables.IdsAfter | gozar/routing/service.py:192-308 | a command drops the chain it deletes, adds the one it creates and keeps every other |
| Migration0011.ChainEntryTable.Upgrade | migrations/versions/0011_chain_request_lanes.py:49-103 | the insert loop adds exactly the copies of the capable rows |
| Migration0011.ChainEntryTable.Downgrade | migrations/versions/0011_chain_request_lanes.py:106-139 | positions come from ranks taken before the update |
| Migration0011.CopyPosition | migrations/versions/0011_chain_request_lanes.py:58-62 | the i-th capable row of a chain is copied at position i |
| Migration0011.CopiedRows | migrations/versions/0011_chain_request_lanes.py:49-58 | exactly the rows of openai and openrouter accounts are copied |
| Migration0011.CopySays | migrations/versions/0011_chain_request_lanes.py:58-103 | a copy has its row's account and policy, no model, the embeddings lane and its rank as position |
| Migration0011.EvaluateFilter | gozar/routing/chains.py:122-161 | dropping accounts commutes with evaluation, for every state and preference |
| Migration0011.EvaluateMap | gozar/routing/chains.py:122-161 | evaluation depends on nothing but the accounts |
| Migration0011.UpgradedUnique | migrations/versions/0011_chain_request_lanes.py:43-47 | the upgraded table meets the new unique constraint |
| Migration0011.UpgradePreservesRouting | migrations/versions/0011_chain_request_lanes.py:49-103 | the chat lane is the old chain, and for all credential states and session preferences the embeddings lane is attempted as the old chain's capable nodes were |
| Migration0011.FlattenedUnique | migrations/versions/0011_chain_request_lanes.py:129-139 | the flattened table meets the old unique constraint |
| Migration0011.DowngradeKeepsOrder | migrations/versions/0011_chain_request_lanes.py:106-128 | every row is kept, chat before embeddings, each lane in its order, at positions 0, 1, ... |
| Migration0011.DowngradeUndoesUpgrade | migrations/versions/0011_chain_request_lanes.py:49-139 | for chains with contiguous positions, downgrading an upgraded table gives the old rows back unchanged, followed by the copies in order |
| Anthropic.ContentToBlocks | gozar/translation/anthropic.py:115-151 | content parts become blocks one by one, in order |
| Anthropic.AssistantToolCallsToBlocks | gozar/translation/anthropic.py:173-190 | tool calls become tool_use blocks one by one, in order |
| Anthropic.ToProviderRequest | gozar/translation/anthropic.py:254-316 | every text of every system and developer message stands in the system field, in order; every other message becomes one message in order; max_tokens is the given one or 4096 |
| Anthropic.ContentTextIs | gozar/translation/anthropic.py:93-112 | a content's text is its texts, line by line, each whole and in order |
| Anthropic.TurnKept | gozar/translation/anthropic.py:272-297 | a tool's message is a user turn with its whole result under its call's id; a user's and an assistant's keep their texts and images |
| Anthropic.CallsSent | gozar/translation/anthropic.py:154-190 | an assistant's calls are its last blocks, in order, with id, name and the value of their arguments, text that is not JSON kept whole |
| Anthropic.TurnsAreMessages | gozar/translation/anthropic.py:265-297 | exactly the messages that are not the system's or the developer's have a turn |
| Anthropic.FromProviderResponse | gozar/translation/anthropic.py:319-371 | text blocks concatenated or none, tool calls in order, finish reason mapped |
| Anthropic.FinishReasons | gozar/translation/anthropic.py:487-500 | which stop reasons are heard as which finish reasons |
| Anthropic.TurnRoundTrip | gozar/translation/anthropic.py:289-354 | an assistant turn survives out and back, content parts included: its text, call order, ids, names and argument values; canonical arguments verbatim |
| Anthropic.ClientTracks | gozar/translation/anthropic.py:374-463 | after every event of a stream that follows the protocol, the client's fold holds the blocks so far |
| Anthropic.ClientHears | gozar/translation/anthropic.py:374-463 | which events reach the client at all |
| Anthropic.EveryMessageStreams | gozar/translation/anthropic.py:374-463 | every message, whatever its blocks and its stop reason, has a stream that follows the protocol |
| Anthropic.StreamedEqualsBuffered | gozar/translation/anthropic.py:319-463 | the folded stream has the finish reason and ordered tool calls of the buffered message; its text and argument values agree exactly when none came whole with a block's start |
| Anthropic.StartTextIsLost | gozar/translation/anthropic.py:430-450 | a stream whose text comes with a block's start, which the streaming client never sees |
| Anthropic.StartInputIsLost | gozar/translation/anthropic.py:430-450 | a stream whose tool input comes with a block's start, which the streaming client sees as empty |
| Codex.ToProviderRequest | gozar/translation/codex.py:134-218 | every message's items in order; every text and note of every system and developer message stands in the instructions, in order |
| Codex.ItemsKept | gozar/translation/codex.py:149-218 | what a system, tool, assistant and other message becomes, with all its texts, its call id and its calls in order |
| Codex.FromProviderResponse | gozar/translation/codex.py:221-294 | output texts concatenated or none, function calls in order, finish reason mapped |
| Codex.CallIds | gozar/translation/codex.py:221-294 | a call answers to its call id, or to its item's id when it has none |
| Codex.FinishReasons | gozar/translation/codex.py:221-294 | an answer cut short says so, one that was not names its calls |
| Codex.TurnRoundTrip | gozar/translation/codex.py:149-264 | an assistant turn survives out and back verbatim: its texts and notes, and its calls |
| Codex.CallCodexNonStreaming | gozar/gateway/upstream.py:141-216 | the first ending event of the client's stream decides: the response with the finished items before it, a reported failure, a broken connection, or an early end |
| Codex.CompletedAnswers | gozar/gateway/upstream.py:141-216 | a completed response that carries output is the answer as it is, one without is given the items finished before it |
| Codex.StreamedTextIsBuffered | gozar/translation/codex.py:221-331 | streamed text deltas spell the text of the response the aggregation returns |
| Codex.StreamedCallsIff | gozar/translation/codex.py:333-405 | for every answer that follows the protocol, the streaming client ends with the buffered tool calls exactly when at most one was sent, and with the buffered finish reason exactly when none was and nothing was cut short |
| Codex.EveryAnswerStreams | gozar/translation/codex.py:296-405 | every list of items has a stream that meets the premises of the results on streamed text and calls |
| Codex.TwoCallsDiffer | gozar/translation/codex.py:333-364 | an answer with two calls, of which the streaming client holds one |
| Tokens.ParseFormatsIff | gozar/tokens/service.py:125-173 | parsing accepts exactly the formatted keys and gives back their parts, hyphens in the secret included |
| Tokens.OpensOneKey | gozar/tokens/service.py:295-312 | a token row authenticates one text only |
| Tokens.LookupFinds | gozar/tokens/service.py:300-312 | parse, prefix lookup and digest comparison find the row a key was issued for |
| Tokens.TokenTable.Create | gozar/tokens/service.py:232-278 | a fresh active row with the given name and chain and a box that holds the key, its limit and its key, or nothing when the chain is unknown or the prefix taken |
| Tokens.TokenTable.Verify | gozar/tokens/service.py:281-317 | accepts a text exactly when it is the key issued for a currently active token |
| Tokens.TokenTable.SetEnabled | gozar/tokens/service.py:348-364 | moves between active and disabled; revoked stays revoked |
| Tokens.TokenTable.Revoke | gozar/tokens/service.py:367-375 | the token is revoked and nothing else changes |
| Tokens.TokenTable.Rotate | gozar/tokens/service.py:378-407 | the new token is a fresh active row with the old one's name, chain and limit and a box that holds its key, and the old one is revoked, or nothing changes |
| Tokens.TokenTable.Reveal | gozar/tokens/service.py:410-460 | returns the issued key exactly for unrevoked tokens with an encrypted copy |
| Tokens.TokenTable.StoreExisting | gozar/tokens/service.py:463-501 | stores a copy exactly when the presented key is the issued one |
| Tokens.IssueAndUse | gozar/tokens/service.py:232-317 | a newly issued key authenticates at once as its token and chain, and revealing the token returns it |
| Tokens.RotateAndUse | gozar/tokens/service.py:378-407 | a replacement key authenticates at once with the old token's chain, and the old key no more |
| Tokens.TokenTable.Run | gozar/tokens/service.py:232-501 | every run of commands leaves exactly the ledger `Replay` computes from them: rows, limits, keys and assignable chains; no key or prefix changes and no revoked token comes back |
| Tokens.RevokedForGood | gozar/tokens/service.py:367-407 | a token revoked or rotated by any command of a run is revoked at its end |
| Tokens.KeysAreDrawn | gozar/tokens/service.py:232-407 | every key at the end of a run was there at its start or was drawn by one of its commands |
| Tokens.TokenTable.ForgetChain | gozar/tokens/models.py:89-94 | deleting a chain leaves the tokens assigned to it with none and changes nothing else of them |

## Left out

- Metering.ReadIsExact: requires that Redis executes increments in log order and none before its record's instant, because the service stamps a record before it writes it; clock skew between hosts is not modelled.
- Metering.UsageRecorder.RecordUsage: the row and its counters are one committed step, because partial failures of Redis or the database and rollbacks after the increment are not modelled.
- Metering.CounterKeyInjective: for years 1000 to 9999, because `strftime` does not pad other years to four digits.
- Limits.ConcurrentOvershoot: for the rolling window, assumes requests are admitted in clock order, hour by hour, because a record stamped in a later hour than the check's clock lies outside the window the check reads; calendar windows and lifetime totals need no such order.
- Limits.ReachedAtThreshold: real arithmetic, because floating-point rounding is not modelled.
- Anthropic.StreamedEqualsBuffered: says nothing of usage, because streamed usage comes from the last message event only while buffered usage also carries input tokens.
- Anthropic.TurnRoundTrip: says nothing of image and unknown parts, because a response has no place for them; text parts come back joined into one text.
- Codex.StreamedTextIsBuffered: for streams whose finished items repeat their deltas and whose completed response is empty or equal to them, because that is what the protocol sends.
- Codex.StreamedCallsIff: for streams that send one call at a time, because the model's argument fragments do not name their call.
- Codex.CallCodexNonStreaming: decoding a payload into an event is an input, because JSON is not modelled.
- Anthropic.ToProviderRequest: model, temperature, stream flag, tools and tool choice are not modelled, because they are copied or mapped one by one.
- Anthropic.FromProviderResponse: id, model and usage are not modelled, because they are copied.
- Codex.ToProviderRequest: model, generation parameters, tools and the store flag are not modelled, because they are copied.
- Codex.FromProviderResponse: id, model and usage are not modelled, because they are copied.
- HttpRetry.UpstreamClient.Request: of httpx errors only the timeouts and network errors the client catches are modelled; any other, such as a protocol error, escapes untyped and leaves the trace open.
- HttpRetry.UpstreamClient.Stream: likewise, so a truncated chunked body, which httpx reports as a protocol error, is outside the model.
- Fallback.CallWithReactiveRefresh: what a node answers is an input, so the model each node is asked for, and how long an attempt took, are not in the trace.
- Fallback.PipelineTrace.UpdateSelectedStreamAttempt: the error's category and code in the attempt are not modelled, only the error.
- Pipeline.Gateway.CompleteChat: ends in a response or a typed error, because a crash in response translation or a client disconnect leaves the trace open.
- Pipeline.Gateway.FinalizeTrace: the outbound metadata (credential snapshot, finish reason, model, response size) is not modelled, because it is copied; the routing part is the attempt trace.
- Interleaving.Interleave: requests are interleaved at their arrival and their end, because only these read or write the counters and the log; what happens upstream in between is the outcome given for the end.
- Streaming.StreamChat: the token usage noted in a trace attempt is not modelled, because it repeats the metered counts.
- Admission.Router.AuthenticateAndRoute: the state is the same for all reads of one request except the counters' expiry, because database transactions are not modelled; a stored session binding is always a valid account id.
- Sse.ConformsIff: streams with a lone CR or a byte order mark are outside it, because the parser follows the standard on neither; the event type, id and retry fields are not modelled.
- Tokens.TokenTable.Verify: assumes that distinct secrets have distinct digests and that decryption undoes encryption, because the cryptography is not modelled.
- Row ids are natural numbers from a counter, or come from a given fresh-id function, because UUIDs are random.
- Setting a token's limit or chain, and listing tokens: single assignments and views.
- The per-account refresh lock and credential states over time: they depend on database session behaviour.
- Optional request fields passed through unchanged (temperature, tools, tool choice, extra parameters), stream ids, models and creation times of chunks.
- JSON text itself: the codec is an input with `loads(dumps(v)) = v`; dumped text is ASCII without line breaks.
- Transient uniqueness inside the downgrade's single UPDATE, and the other migrations.
- OAuth, sessions, password hashing, log redaction, HTTP routers, settings, model catalogs and the frontend.
- Error rates in analytics and limit consumption views: they would only add easy members.
