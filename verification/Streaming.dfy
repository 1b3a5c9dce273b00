/** Streaming chat completions: establishing a stream on one node, committing to it at its
    first byte, and turning it into the client's event stream. */
module Streaming {
  import opened Prelude
  import opened Calendar
  import opened Metering
  import opened Routing
  import opened Fallback
  import opened Admission
  import opened Pipeline
  import opened HttpRetry
  import opened Utf8
  import opened Sse

  function AsError(f: UpstreamFailure): GozarError {
    match f
    case TransportFailure(_) => GozarError(UpstreamFailed, None, "upstream call failed")
    case StatusFailure(status) => GozarError(UpstreamFailed, Some(status), "upstream returned an error status")
  }

  // --- Peek and rechain ------------------------------------------------------

  /** Pull the first chunk; a stream that fails before it is a failed attempt, one that ends
      before it is an established empty stream. Returns what was pulled and what remains. */
  function FirstChunk(s: ByteStream): Result<(Option<seq<Byte>>, ByteStream), GozarError> {
    if s.chunks != [] then Ok((Some(s.chunks[0]), s.(chunks := s.chunks[1..])))
    else if s.failure.Some? then Err(AsError(s.failure.value))
    else Ok((None, s))
  }

  /** Emit the pulled chunk again, then the rest. */
  function Rechain(first: Option<seq<Byte>>, rest: ByteStream): ByteStream {
    if first.Some? then rest.(chunks := [first.value] + rest.chunks) else rest
  }

  /** Peeking loses nothing, and fails exactly when no byte came before a failure. */
  lemma PeekLosesNothing(s: ByteStream)
    ensures FirstChunk(s).Ok? ==> Rechain(FirstChunk(s).value.0, FirstChunk(s).value.1) == s
    ensures FirstChunk(s).Err? <==> s.chunks == [] && s.failure.Some?
  {
  }

  // --- One node --------------------------------------------------------------

  /** A node's surroundings: credentials, refresh, and what the network does to each HTTP
      call of its first and second upstream request. */
  datatype StreamScript = StreamScript(
    acquire: Result<Material, GozarError>, world: nat -> Exchange,
    refresh: Result<bool, GozarError>,
    acquireAgain: Result<Material, GozarError>, worldAgain: nat -> Exchange)

  /** Open one upstream stream and pull its first chunk. */
  function EstablishOnce(world: nat -> Exchange, maxAttempts: nat): Result<ByteStream, GozarError>
    requires maxAttempts >= 1
  {
    var first := FirstChunk(StreamOutcome(world, maxAttempts));
    if first.Err? then Err(first.error) else Ok(Rechain(first.value.0, first.value.1))
  }

  /** A node that could not open a stream failed upstream, with the status it answered if it
      answered one, and with none if the connection failed. */
  lemma FailureKeepsStatus(world: nat -> Exchange, maxAttempts: nat)
    requires maxAttempts >= 1 && EstablishOnce(world, maxAttempts).Err?
    ensures var error := EstablishOnce(world, maxAttempts).error;
            var last := world(FinalCall(world, StreamTransient, maxAttempts, 1));
            && error.kind == UpstreamFailed
            && error.upstreamStatus == if last.Reply? && !last.broken then Some(last.status) else None
  {
  }

  /** The streaming form of the refresh retry. Its flag says `true` for a first try and
      `false` for the try after a refresh. */
  function EstablishWithRefresh(s: StreamScript, maxAttempts: nat): Result<Served<ByteStream>, GozarError>
    requires maxAttempts >= 1
  {
    if s.acquire.Err? then Err(s.acquire.error)
    else
      var once := EstablishOnce(s.world, maxAttempts);
      if once.Ok? then Ok(Served(s.acquire.value.provider, once.value, true))
      else if !ShouldRefresh(once.error, s.acquire.value) then Err(once.error)
      else if s.refresh.Err? then Err(s.refresh.error)
      else if !s.refresh.value then Err(once.error)
      else if s.acquireAgain.Err? then Err(s.acquireAgain.error)
      else
        var again := EstablishOnce(s.worldAgain, maxAttempts);
        if again.Ok? then Ok(Served(s.acquireAgain.value.provider, again.value, false)) else Err(again.error)
  }

  /** The same node as the buffered retry sees it. */
  function AsNode(s: StreamScript, maxAttempts: nat): NodeScript<ByteStream>
    requires maxAttempts >= 1
  {
    NodeScript(s.acquire, EstablishOnce(s.world, maxAttempts), s.refresh, s.acquireAgain,
               EstablishOnce(s.worldAgain, maxAttempts))
  }

  /** The streaming retry refines the buffered one in everything but the recorded flag,
      which is right for no stream: it is the negation of what happened. */
  lemma RefreshedFlagIsInverted(s: StreamScript, maxAttempts: nat)
    requires maxAttempts >= 1
    ensures var (buffered, calls) := CallWithReactiveRefresh(AsNode(s, maxAttempts));
            var streamed := EstablishWithRefresh(s, maxAttempts);
            && (streamed.Ok? <==> buffered.Ok?)
            && (streamed.Err? ==> streamed.error == buffered.error)
            && (streamed.Ok? ==> streamed.value == buffered.value.(refreshed := calls != 2))
  {
  }

  /** No HTTP call of this upstream request forwarded a byte. */
  ghost predicate Silent(world: nat -> Exchange, maxAttempts: nat)
    requires maxAttempts >= 1
  {
    forall i | 1 <= i <= FinalCall(world, StreamTransient, maxAttempts, 1) :: Delivered(world(i)) == []
  }

  /** An established stream is the outcome of the last HTTP call alone, whole. */
  lemma EstablishedIsOneExchange(world: nat -> Exchange, maxAttempts: nat)
    requires maxAttempts >= 1
    ensures var n := FinalCall(world, StreamTransient, maxAttempts, 1);
            var once := EstablishOnce(world, maxAttempts);
            && (once.Ok? ==> once.value == ByteStream(Delivered(world(n)), StreamEnd(world(n), n)))
            && (once.Err? ==> Silent(world, maxAttempts))
            && (forall i | 1 <= i < n :: Delivered(world(i)) == [])
  {
    hide Delivered, IsRetryableStatus, StreamEnd, FinalCall;
    var n := FinalCall(world, StreamTransient, maxAttempts, 1);
    PeekLosesNothing(StreamOutcome(world, maxAttempts));
    forall i | 1 <= i < n
      ensures Delivered(world(i)) == []
    {
      TransientForwardsNothing(world(i));
    }
  }

  /** The HTTP call a served node's stream came from: no other call of the node forwarded a
      byte. */
  ghost predicate ComesFrom(s: StreamScript, maxAttempts: nat, stream: ByteStream, x: Exchange)
    requires maxAttempts >= 1
  {
    var last := FinalCall(s.world, StreamTransient, maxAttempts, 1);
    var lastAgain := FinalCall(s.worldAgain, StreamTransient, maxAttempts, 1);
    || (x == s.world(last) && stream == ByteStream(Delivered(x), StreamEnd(x, last))
        && forall i | 1 <= i < last :: Delivered(s.world(i)) == [])
    || (x == s.worldAgain(lastAgain) && stream == ByteStream(Delivered(x), StreamEnd(x, lastAgain))
        && Silent(s.world, maxAttempts) && forall i | 1 <= i < lastAgain :: Delivered(s.worldAgain(i)) == [])
  }

  /** Upstream requests a node makes that forwarded nothing. */
  ghost predicate NodeSilent(s: StreamScript, maxAttempts: nat)
    requires maxAttempts >= 1
  {
    && (s.acquire.Ok? ==> Silent(s.world, maxAttempts))
    && (CallWithReactiveRefresh(AsNode(s, maxAttempts)).1 == 2 ==> Silent(s.worldAgain, maxAttempts))
  }

  lemma NodeForwardsOnce(s: StreamScript, maxAttempts: nat) returns (x: Exchange)
    requires maxAttempts >= 1
    ensures var node := EstablishWithRefresh(s, maxAttempts);
            && (node.Ok? ==> ComesFrom(s, maxAttempts, node.value.answer, x))
            && (node.Err? ==> NodeSilent(s, maxAttempts))
  {
    EstablishedIsOneExchange(s.world, maxAttempts);
    EstablishedIsOneExchange(s.worldAgain, maxAttempts);
    x := if EstablishOnce(s.world, maxAttempts).Ok? then s.world(FinalCall(s.world, StreamTransient, maxAttempts, 1))
         else s.worldAgain(FinalCall(s.worldAgain, StreamTransient, maxAttempts, 1));
  }

  // --- The establishment loop ------------------------------------------------

  function EstablishOutcomes(scripts: seq<StreamScript>, maxAttempts: nat): seq<Result<Served<ByteStream>, GozarError>>
    requires maxAttempts >= 1
  {
    seq(|scripts|, i requires 0 <= i < |scripts| => EstablishWithRefresh(scripts[i], maxAttempts))
  }

  /** The upstream requests a streaming node makes are those of the buffered retry. */
  function NodeRequests(s: StreamScript, maxAttempts: nat): (calls: nat)
    requires maxAttempts >= 1
    ensures calls <= 2
  {
    CallWithReactiveRefresh(AsNode(s, maxAttempts)).1
  }

  function StreamRequests(scripts: seq<StreamScript>, maxAttempts: nat, n: nat): (calls: nat)
    requires maxAttempts >= 1 && n <= |scripts|
    ensures calls <= 2 * n
  {
    if n == 0 then 0 else StreamRequests(scripts, maxAttempts, n - 1) + NodeRequests(scripts[n - 1], maxAttempts)
  }

  method EstablishLoop(order: seq<RoutingTarget>, scripts: seq<StreamScript>, maxAttempts: nat, trace: PipelineTrace)
    returns (n: nat, result: Result<Served<ByteStream>, GozarError>, calls: nat)
    requires maxAttempts >= 1 && |scripts| == |order| && trace.Fresh()
    modifies trace
    ensures IsRun(order, EstablishOutcomes(scripts, maxAttempts), n)
    ensures trace.Holds(order, EstablishOutcomes(scripts, maxAttempts), n)
    ensures n <= |scripts| && calls == StreamRequests(scripts, maxAttempts, n)
    ensures result == RunResult(EstablishOutcomes(scripts, maxAttempts), n)
    ensures result.Ok? ==> trace.attempts[n - 1].outcome == Succeeded(result.value.refreshed)
  {
    hide EstablishWithRefresh, NodeRequests;
    var lastError: Option<GozarError> := None;
    n, calls := 0, 0;
    while n < |order|
      invariant n <= |order| && calls == StreamRequests(scripts, maxAttempts, n)
      invariant trace.SoFar(order, EstablishOutcomes(scripts, maxAttempts), n)
      invariant lastError == if n == 0 then None else Some(EstablishOutcomes(scripts, maxAttempts)[n - 1].error)
    {
      var target := order[n];
      var established := EstablishWithRefresh(scripts[n], maxAttempts);
      assert established == EstablishOutcomes(scripts, maxAttempts)[n];
      calls := calls + NodeRequests(scripts[n], maxAttempts);
      n := n + 1;
      if established.Err? {
        lastError := Some(established.error);
        var allowed := AllowsFallback(target.policy, established.error);
        trace.RecordFailed(target, established.error, allowed && n - 1 < |order| - 1);
        if !allowed {
          break;
        }
      } else {
        trace.RecordSuccessful(target, established.value.refreshed);
        result := established;
        return;
      }
    }
    result := Err(ExhaustedError(lastError));
  }

  // --- The client's event stream ---------------------------------------------

  /** An adapter with the JSON codec around it. */
  datatype Adapter<!J, !C> = Adapter(loads: string -> Option<J>, translate: J -> Option<C>, dump: C -> string,
                                     usageOf: C -> Option<UsageCounts>)

  /** The payloads the parser yields before the stream ends or fails: a failure skips the
      dispatch of an unterminated last event. */
  function Payloads(s: ByteStream): seq<string> {
    if s.failure.None? then Parse(DecodeChunks(s.chunks)) else ParseLines(DecodeChunks(s.chunks)).payloads
  }

  /** The client-facing chunk of a payload, if it has one. */
  function Translated<J, C>(a: Adapter<J, C>, payload: string): Option<C> {
    var event := a.loads(payload);
    if event.None? then None else a.translate(event.value)
  }

  function UntilDone(payloads: seq<string>): seq<string> {
    if payloads == [] || IsDone(payloads[0]) then [] else [payloads[0]] + UntilDone(payloads[1..])
  }

  /** The translated non-null events, in order. */
  function ClientChunks<J, C>(a: Adapter<J, C>, payloads: seq<string>): seq<C> {
    if payloads == [] then []
    else
      var c := Translated(a, payloads[0]);
      (if c.Some? then [c.value] else []) + ClientChunks(a, payloads[1..])
  }

  function FrameAll<J, C>(a: Adapter<J, C>, chunks: seq<C>): seq<string> {
    Map(chunks, (c: C) => Frame(a.dump(c)))
  }

  function LastUsage<J, C>(a: Adapter<J, C>, chunks: seq<C>): Option<UsageCounts> {
    if chunks == [] then None
    else
      var u := a.usageOf(chunks[|chunks| - 1]);
      if u.Some? then u else LastUsage(a, chunks[..|chunks| - 1])
  }

  /** The usage of a stream is that of the last chunk that carried any. */
  lemma {:induction false} UsageIsLast<J, C>(a: Adapter<J, C>, chunks: seq<C>)
    ensures LastUsage(a, chunks) == None <==> forall c | c in chunks :: a.usageOf(c) == None
    ensures LastUsage(a, chunks).Some? ==>
              exists i | 0 <= i < |chunks| ::
                a.usageOf(chunks[i]) == LastUsage(a, chunks)
                && forall j | i < j < |chunks| :: a.usageOf(chunks[j]) == None
    decreases |chunks|
  {
    if chunks != [] {
      var n := |chunks| - 1;
      assert forall c :: c in chunks <==> c in chunks[..n] || c == chunks[n];
      if a.usageOf(chunks[n]).None? {
        UsageIsLast(a, chunks[..n]);
        if LastUsage(a, chunks).Some? {
          var i :| 0 <= i < n && a.usageOf(chunks[..n][i]) == LastUsage(a, chunks[..n])
                   && forall j | i < j < n :: a.usageOf(chunks[..n][j]) == None;
          assert chunks[..n][i] == chunks[i];
          assert forall j | i < j < n :: chunks[..n][j] == chunks[j];
        }
      }
    }
  }

  /** The upstream terminator was seen, or the stream ended without failing. */
  predicate EndsWell(s: ByteStream) {
    s.failure.None? || |UntilDone(Payloads(s))| < |Payloads(s)|
  }

  /** Everything the client receives of one byte stream: its translated non-null events up
      to the upstream terminator, then one terminator unless the stream failed first. */
  function ClientOutput<J, C>(a: Adapter<J, C>, s: ByteStream): seq<string> {
    FrameAll(a, ClientChunks(a, UntilDone(Payloads(s)))) + if EndsWell(s) then [SSE_DONE] else []
  }

  lemma {:induction false} UntilDonePrefix(payloads: seq<string>, i: nat)
    requires i <= |payloads| && forall j | 0 <= j < i :: !IsDone(payloads[j])
    ensures i < |payloads| && IsDone(payloads[i]) ==> UntilDone(payloads) == payloads[..i]
    ensures i == |payloads| ==> UntilDone(payloads) == payloads
  {
    if i > 0 {
      assert UntilDone(payloads) == [payloads[0]] + UntilDone(payloads[1..]);
      hide UntilDone, IsDone;
      var rest := payloads[1..];
      assert forall j | 0 <= j < |rest| :: rest[j] == payloads[j + 1];
      UntilDonePrefix(rest, i - 1);
      assert [payloads[0]] + rest[..i - 1] == payloads[..i] && [payloads[0]] + rest == payloads;
    }
  }

  lemma {:induction false} ClientChunksSnoc<J, C>(a: Adapter<J, C>, payloads: seq<string>, i: nat)
    requires i < |payloads|
    ensures var c := Translated(a, payloads[i]);
            ClientChunks(a, payloads[..i + 1]) == ClientChunks(a, payloads[..i]) + if c.Some? then [c.value] else []
  {
    if i > 0 {
      assert payloads[..i + 1][1..] == payloads[1..][..i] && payloads[..i][1..] == payloads[1..][..i - 1];
      ClientChunksSnoc(a, payloads[1..], i - 1);
    }
  }

  lemma LastUsageSnoc<J, C>(a: Adapter<J, C>, chunks: seq<C>, c: C)
    ensures LastUsage(a, chunks + [c]) == if a.usageOf(c).Some? then a.usageOf(c) else LastUsage(a, chunks)
  {
    assert (chunks + [c])[..|chunks|] == chunks;
  }

  lemma FrameAllSnoc<J, C>(a: Adapter<J, C>, chunks: seq<C>, c: C)
    ensures FrameAll(a, chunks + [c]) == FrameAll(a, chunks) + [Frame(a.dump(c))]
  {
  }

  /** What one more payload adds for the client. */
  lemma OneMorePayload<J, C>(a: Adapter<J, C>, payloads: seq<string>, i: nat)
    requires i < |payloads|
    ensures var before, after := ClientChunks(a, payloads[..i]), ClientChunks(a, payloads[..i + 1]);
            var c := Translated(a, payloads[i]);
            && (c.None? ==> after == before)
            && (c.Some? ==>
                  && FrameAll(a, after) == FrameAll(a, before) + [Frame(a.dump(c.value))]
                  && LastUsage(a, after)
                     == if a.usageOf(c.value).Some? then a.usageOf(c.value) else LastUsage(a, before))
  {
    var before, c := ClientChunks(a, payloads[..i]), Translated(a, payloads[i]);
    hide ClientChunks, LastUsage, FrameAll, Translated;
    ClientChunksSnoc(a, payloads, i);
    if c.Some? {
      LastUsageSnoc(a, before, c.value);
      FrameAllSnoc(a, before, c.value);
    }
  }

  /** Translate the payloads until the terminator; `done` tells whether it was seen. */
  method TranslatePayloads<J, C>(a: Adapter<J, C>, payloads: seq<string>)
    returns (frames: seq<string>, usage: Option<UsageCounts>, done: bool)
    ensures frames == FrameAll(a, ClientChunks(a, UntilDone(payloads)))
    ensures usage == LastUsage(a, ClientChunks(a, UntilDone(payloads)))
    ensures done <==> |UntilDone(payloads)| < |payloads|
  {
    frames, usage, done := [], None, false;
    var i := 0;
    while i < |payloads|
      invariant i <= |payloads| && !done
      invariant forall j | 0 <= j < i :: !IsDone(payloads[j])
      invariant frames == FrameAll(a, ClientChunks(a, payloads[..i]))
      invariant usage == LastUsage(a, ClientChunks(a, payloads[..i]))
    {
      hide ClientChunks, UntilDone, LastUsage, FrameAll, IsDone;
      var data := payloads[i];
      if IsDone(data) {
        done := true;
        UntilDonePrefix(payloads, i);
        return;
      }
      OneMorePayload(a, payloads, i);
      var event := a.loads(data);
      if event.Some? {
        var chunk := a.translate(event.value);
        if chunk.Some? {
          if a.usageOf(chunk.value).Some? {
            usage := a.usageOf(chunk.value);
          }
          frames := frames + [Frame(a.dump(chunk.value))];
        }
      }
      i := i + 1;
    }
    UntilDonePrefix(payloads, i);
    assert payloads[..i] == payloads;
  }

  /** Pull payloads from a byte stream that may fail at its end. */
  method PullPayloads(s: ByteStream) returns (payloads: seq<string>)
    ensures payloads == Payloads(s)
  {
    if s.failure.None? {
      payloads := IterSseData(s.chunks);
    } else {
      payloads := IterUntilFailure(s.chunks);
    }
  }

  /** How a streaming request reaches its client. */
  datatype Streamed = Streamed(frames: seq<string>, failure: Option<GozarError>)

  /** The generator behind the streaming response: its events, the usage the stream
      reported, and the failure it ends with, if any. */
  method SseResponseStream<J, C>(a: Adapter<J, C>, s: ByteStream) returns (out: Streamed, counts: UsageCounts)
    ensures out.frames == ClientOutput(a, s)
    ensures out.failure == if EndsWell(s) then None else Some(AsError(s.failure.value))
    ensures counts == ReportedUsage(a, s)
  {
    hide ClientChunks, UntilDone, LastUsage, Parse, ParseLines;
    var payloads := PullPayloads(s);
    var frames, usage, done := TranslatePayloads(a, payloads);
    counts := if usage.Some? then usage.value else UsageCounts(0, 0, 0);
    if !done && s.failure.Some? {
      assert frames + [] == frames;
      out := Streamed(frames, Some(AsError(s.failure.value)));
    } else {
      out := Streamed(frames + [SSE_DONE], None);
    }
  }

  /** The last usage the client chunks carried, zeros when none did. */
  function ReportedUsage<J, C>(a: Adapter<J, C>, s: ByteStream): UsageCounts {
    var usage := LastUsage(a, ClientChunks(a, UntilDone(Payloads(s))));
    if usage.Some? then usage.value else UsageCounts(0, 0, 0)
  }

  // --- The whole request -----------------------------------------------------

  /** In a run that served, the serving node's stream has one source and every node before
      it stayed silent. */
  lemma OneSource(scripts: seq<StreamScript>, maxAttempts: nat, order: seq<RoutingTarget>, n: nat) returns (x: Exchange)
    requires maxAttempts >= 1 && 0 < n <= |scripts| && IsRun(order, EstablishOutcomes(scripts, maxAttempts), n)
    requires EstablishOutcomes(scripts, maxAttempts)[n - 1].Ok?
    ensures ComesFrom(scripts[n - 1], maxAttempts, EstablishOutcomes(scripts, maxAttempts)[n - 1].value.answer, x)
    ensures forall i | 0 <= i < n - 1 :: NodeSilent(scripts[i], maxAttempts)
  {
    hide EstablishWithRefresh, NodeSilent, ComesFrom, AllowsFallback;
    var outcomes := EstablishOutcomes(scripts, maxAttempts);
    forall i | 0 <= i < n - 1
      ensures NodeSilent(scripts[i], maxAttempts)
    {
      assert outcomes[i].Err?;
      var _ := NodeForwardsOnce(scripts[i], maxAttempts);
    }
    x := NodeForwardsOnce(scripts[n - 1], maxAttempts);
  }

  /** What the nodes of an order meet; `upstream(i, t)` is what the i-th attempt meets. */
  function StreamScripts(order: seq<RoutingTarget>,
                         upstream: (nat, RoutingTarget) -> StreamScript): (scripts: seq<StreamScript>)
    ensures |scripts| == |order| && forall i: nat | i < |order| :: scripts[i] == upstream(i, order[i])
  {
    seq(|order|, i requires 0 <= i < |order| => upstream(i, order[i]))
  }

  /** What a streaming request over these nodes did. A failure before the stream is
      established answers with an error. Once established, the whole output comes from one
      HTTP call `source` of the last attempted node: no other call of any node forwarded a
      byte. A stream that fails later turns the selected attempt into a stream error. */
  ghost predicate StreamRun<J(!new), C(!new)>(order: seq<RoutingTarget>, scripts: seq<StreamScript>, maxAttempts: nat,
                                              n: nat, calls: nat, a: Adapter<J, C>, trace: PipelineTrace,
                                              served: Served<ByteStream>, source: Exchange,
                                              result: Result<Streamed, GozarError>)
    requires maxAttempts >= 1
    reads trace
  {
    var outcomes := EstablishOutcomes(scripts, maxAttempts);
    && |scripts| == |order| && IsRun(order, outcomes, n) && calls == StreamRequests(scripts, maxAttempts, n)
    && (match RunResult(outcomes, n)
        case Err(e) => result == Err(e) && trace.Holds(order, outcomes, n)
        case Ok(established) =>
          && result.Ok? && 0 < n && served == established
          && ComesFrom(scripts[n - 1], maxAttempts, served.answer, source)
          && (forall i | 0 <= i < n - 1 :: NodeSilent(scripts[i], maxAttempts))
          && result.value.frames == ClientOutput(a, served.answer)
          && (result.value.failure.None? <==> EndsWell(served.answer))
          && if result.value.failure.None? then
               trace.Holds(order, outcomes, n) && trace.attempts[n - 1].outcome == Succeeded(served.refreshed)
             else trace.HoldsBroken(order, outcomes, n, result.value.failure.value))
  }

  /** The end of an established stream: metered, bound and closed as a success, or, when it
      failed, closed as that failure with nothing metered. */
  twostate predicate StreamEnded(gw: Gateway, r: Request, plan: RoutePlan, account: Id, provider: string,
                                 counts: UsageCounts, failure: Option<GozarError>)
    requires r.correlationId in old(gw.traces)
    reads gw, gw.router.recorder, gw.router.sessions
  {
    && (if failure.None? then gw.Metered(r, plan.tokenId, account, provider, counts) && gw.BoundTo(r, account, Chat)
        else gw.UsageUnchanged())
    && gw.traces == old(gw.traces)[r.correlationId :=
         if failure.None? then ServedRow(old(gw.traces)[r.correlationId], r, account)
         else FailedRow(old(gw.traces)[r.correlationId], r, Some(account), failure.value)]
    && gw.history == old(gw.history)
                     + [Finalized(r.correlationId, if failure.None? then Success else OutcomeForError(failure.value))]
  }

  /** Serve an established stream to its client and settle the request. */
  method ServeStream<J(!new), C(!new)>(gw: Gateway, r: Request, plan: RoutePlan, account: Id,
                                       served: Served<ByteStream>,
                                       a: Adapter<J, C>, trace: PipelineTrace)
    returns (out: Streamed)
    requires gw.Valid() && r.correlationId in gw.traces
    modifies gw`traces, gw`history, gw.router.recorder, gw.router.sessions, trace
    ensures gw.Valid() && out.frames == ClientOutput(a, served.answer)
    ensures out.failure == if EndsWell(served.answer) then None else Some(AsError(served.answer.failure.value))
    ensures StreamEnded(gw, r, plan, account, served.provider, ReportedUsage(a, served.answer), out.failure)
    ensures trace.selectedNode == old(trace.selectedNode) && trace.selectedPosition == old(trace.selectedPosition)
    ensures trace.attempts == if out.failure.None? || old(trace.attempts) == [] then old(trace.attempts) else
              old(trace.attempts)[|old(trace.attempts)| - 1 :=
                old(trace.attempts)[|old(trace.attempts)| - 1].(outcome := StreamFailed(out.failure.value))]
  {
    hide EndsWell, ReportedUsage, ClientOutput, RecordFor, StatusCode, OutcomeForError, Router.Valid;
    var counts;
    out, counts := SseResponseStream(a, served.answer);
    if out.failure.Some? {
      var error := out.failure.value;
      trace.UpdateSelectedStreamAttempt(error);
      gw.FinalizeTrace(r.correlationId, OutcomeForError(error), StatusCode(error), Some(account), r.endedAt);
    } else {
      gw.Complete(r, plan.tokenId, account, served.provider, counts, Chat);
    }
  }

  /** Marking the last attempt of a served run as a stream error. */
  lemma BrokenAfter<S>(before: seq<Attempt>, targets: seq<RoutingTarget>, outcomes: seq<Result<S, GozarError>>, n: nat,
                       error: GozarError)
    requires IsRun(targets, outcomes, n) && Traces(before, targets, outcomes, n) && 0 < n && outcomes[n - 1].Ok?
    ensures var after := before[n - 1 := before[n - 1].(outcome := StreamFailed(error))];
            && |after| == n && after[n - 1] == Attempt(targets[n - 1], StreamFailed(error), false)
            && forall i | 0 <= i < n - 1 ::
                 outcomes[i].Err? && after[i] == Attempt(targets[i], Failed(outcomes[i].error), true)
  {
  }

  /** Establish a planned stream and serve it. */
  method RunStream<J(!new), C(!new)>(gw: Gateway, r: Request, plan: RoutePlan,
                                     upstream: (nat, RoutingTarget) -> StreamScript,
                                     maxAttempts: nat, a: Adapter<J, C>, trace: PipelineTrace)
    returns (result: Result<Streamed, GozarError>, calls: nat, ghost n: nat, ghost served: Served<ByteStream>,
             ghost source: Exchange)
    requires maxAttempts >= 1 && gw.Valid() && trace.Fresh()
    requires r.correlationId in gw.traces
    modifies gw`traces, gw`history, gw.router.recorder, gw.router.sessions, trace
    ensures gw.Valid()
    ensures StreamRun(plan.order, StreamScripts(plan.order, upstream), maxAttempts, n, calls, a, trace, served,
                      source, result)
    ensures result.Err? ==> gw.Ended(r, "", "", "", UsageCounts(0, 0, 0), Chat, Some(result.error))
    ensures result.Ok? ==>
      && 0 < n <= |plan.order|
      && StreamEnded(gw, r, plan, plan.order[n - 1].accountId, served.provider, ReportedUsage(a, served.answer),
                     result.value.failure)
  {
    hide Router.Valid, EstablishWithRefresh, ComesFrom, NodeSilent, EndsWell, ReportedUsage, ClientOutput,
      AllowsFallback, StreamRequests, OutcomeForError, StatusCode, RecordFor;
    served, source := Served("", ByteStream([], None), false), Refused;
    var scripts := StreamScripts(plan.order, upstream);
    var attempted, established, made := EstablishLoop(plan.order, scripts, maxAttempts, trace);
    n, calls := attempted, made;
    if established.Err? {
      gw.Fail(r, established.error);
      result := Err(established.error);
      return;
    }
    served := established.value;
    source := OneSource(scripts, maxAttempts, plan.order, n);
    ghost var before := trace.attempts;
    var out := ServeStream(gw, r, plan, plan.order[attempted - 1].accountId, established.value, a, trace);
    if out.failure.Some? {
      BrokenAfter(before, plan.order, EstablishOutcomes(scripts, maxAttempts), n, out.failure.value);
    }
    result := Ok(out);
  }

  /** A streaming request: admitted or refused by the router as a buffered one; refused, it
      attempts nothing. Admitted, it runs as `StreamRun` says. A stream that ends well is
      metered for the last attempted node's account; one that fails is metered for none. */
  method StreamChat<J(!new), C(!new)>(gw: Gateway, r: Request, upstream: (nat, RoutingTarget) -> StreamScript,
                                      maxAttempts: nat,
                                      a: Adapter<J, C>, trace: PipelineTrace)
    returns (result: Result<Streamed, GozarError>, calls: nat, ghost n: nat, ghost served: Served<ByteStream>,
             ghost source: Exchange)
    requires maxAttempts >= 1 && gw.Valid() && 23 * HOUR <= r.now && trace.Fresh()
    modifies gw`traces, gw`history, gw.router.recorder, gw.router.sessions, trace
    ensures gw.Valid() && old(gw.router.DecidesRightly(r, Chat))
    ensures var decision := old(gw.router.Decision(r, Chat));
      result.Ok? ==> decision.Ok? && 0 < n <= |decision.value.order|
    ensures var decision := old(gw.router.Decision(r, Chat));
      (decision.Err? ==> result == Err(RefusalError(decision.error)) && n == 0 && calls == 0 && trace.Fresh())
    ensures var decision := old(gw.router.Decision(r, Chat));
      (decision.Ok? ==>
        StreamRun(decision.value.order, StreamScripts(decision.value.order, upstream), maxAttempts, n, calls, a, trace,
                  served, source, result))
    ensures result.Err? ==> gw.OnlyTraced(r, Chat, true, result.error)
    ensures result.Ok? && result.value.failure.None? ==> (
      var plan := old(gw.router.Decision(r, Chat)).value;
      gw.ServedBy(r, plan.tokenId, plan.order[n - 1].accountId, served.provider, ReportedUsage(a, served.answer),
                  Chat, true))
    ensures result.Ok? && result.value.failure.Some? ==> (
      var plan := old(gw.router.Decision(r, Chat)).value;
      var error := result.value.failure.value;
      && gw.UsageUnchanged()
      && gw.history == old(gw.history) + [Opened(r.correlationId), Finalized(r.correlationId, OutcomeForError(error))]
      && gw.traces == old(gw.traces)[r.correlationId :=
           FailedRow(old(gw.RoutedRow(r, Chat, true)), r, Some(plan.order[n - 1].accountId), error)])
  {
    hide Router.Decision, Router.DecidesRightly, Router.Valid, StatusCode, OutcomeForError, RecordFor,
      EstablishWithRefresh, ReportedUsage, StreamRun, StreamRequests, StreamScripts, EstablishOutcomes;
    n, calls, served, source := 0, 0, Served("", ByteStream([], None), false), Refused;
    var plan := gw.Begin(r, Chat, true);
    if plan.Err? {
      gw.Fail(r, plan.error);
      result := Err(plan.error);
    } else {
      result, calls, n, served, source := RunStream(gw, r, plan.value, upstream, maxAttempts, a, trace);
    }
  }
}
