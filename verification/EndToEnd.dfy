/** What the client of a streaming request ends with, from the bytes the provider sent to the
    turn the client has folded, against what the buffered path would have answered. */
module EndToEnd {
  import opened Prelude
  import opened OpenAi
  import opened HttpRetry
  import opened Sse
  import opened Streaming
  import Anthropic
  import Codex

  /** A chunk's JSON is one line that is not the terminator, and the client reads it back. */
  ghost predicate Reads<J(!new)>(a: Adapter<J, Chunk>, read: string -> Option<Chunk>, c: Chunk) {
    OneLine(a.dump(c)) && !IsDone(a.dump(c)) && read(a.dump(c)) == Some(c)
  }

  /** What a client that reads event streams by the standard has folded up to the terminator. */
  ghost function ClientSees(read: string -> Option<Chunk>, text: string): ClientView {
    FoldStream(UntilDone(StandardEvents(text)), read)
  }

  /** What an adapter makes of a payload. */
  function Reading<J(!new)>(a: Adapter<J, Chunk>): string -> Option<Chunk> {
    (p: string) => Translated(a, p)
  }

  function Jsons<J>(a: Adapter<J, Chunk>, chunks: seq<Chunk>): seq<string> {
    Map(chunks, (c: Chunk) => a.dump(c))
  }

  lemma {:induction false} FlatFrames<J>(a: Adapter<J, Chunk>, chunks: seq<Chunk>)
    ensures Flatten(FrameAll(a, chunks)) == Frames(Jsons(a, chunks))
    decreases |chunks|
  {
    if chunks != [] {
      assert FrameAll(a, chunks)[1..] == FrameAll(a, chunks[1..]) && Jsons(a, chunks)[1..] == Jsons(a, chunks[1..]);
      FlatFrames(a, chunks[1..]);
    }
  }

  lemma {:induction false} NoCr(jsons: seq<string>)
    requires forall i | 0 <= i < |jsons| :: OneLine(jsons[i])
    ensures '\r' !in Frames(jsons)
  {
    if jsons != [] {
      NoCr(jsons[1..]);
      assert OneLine(jsons[0]);
    }
  }

  /** The frames of some payloads and the terminator are read by the standard as exactly
      those payloads and the terminator. */
  lemma StandardFrames(jsons: seq<string>)
    requires forall i | 0 <= i < |jsons| :: OneLine(jsons[i])
    ensures StandardEvents(Frames(jsons) + SSE_DONE) == jsons + [UPSTREAM_DONE]
  {
    hide Parse, StandardEvents, Frame, OneLine, Frames, CrOnlyInCrlf;
    var all := jsons + [UPSTREAM_DONE];
    DoneFrame();
    FramesAppend(jsons, [UPSTREAM_DONE]);
    ParseFrames(all);
    NoCr(all);
    NoCrAtAll(Frames(all));
    StartsWithData(all);
    DoneLine(Frames(jsons));
    BlankLineEndsEvent(Frames(jsons) + "data: [DONE]", "\n");
  }

  lemma DoneLine(text: string)
    ensures text + SSE_DONE == text + "data: [DONE]" + "\n" + "\n"
  {
  }

  lemma NoCrAtAll(text: string)
    requires '\r' !in text
    ensures CrOnlyInCrlf(text)
  {
  }

  lemma StartsWithData(jsons: seq<string>)
    requires jsons != []
    ensures Frames(jsons) != [] && Frames(jsons)[0] == 'd'
  {
  }

  lemma PayloadsBeforeDone(jsons: seq<string>)
    requires forall i | 0 <= i < |jsons| :: !IsDone(jsons[i])
    ensures UntilDone(jsons + [UPSTREAM_DONE]) == jsons
  {
    var all := jsons + [UPSTREAM_DONE];
    assert Strip(UPSTREAM_DONE) == UPSTREAM_DONE;
    hide IsDone, UntilDone;
    UntilDonePrefix(all, |jsons|);
  }

  lemma FoldSnoc<E>(events: seq<E>, e: E, translate: E -> Option<Chunk>)
    ensures FoldStream(events + [e], translate) == FoldEvent(FoldStream(events, translate), translate(e))
  {
    assert (events + [e])[..|events|] == events;
  }

  lemma JsonsSnoc<J>(a: Adapter<J, Chunk>, chunks: seq<Chunk>, c: Chunk)
    ensures Jsons(a, chunks + [c]) == Jsons(a, chunks) + [a.dump(c)]
  {
  }

  /** One more payload for the client, had it folded the ones before. */
  lemma FoldOneMore<J(!new)>(a: Adapter<J, Chunk>, read: string -> Option<Chunk>, chunks: seq<Chunk>,
                             payloads: seq<string>, p: string)
    requires forall c :: Reads(a, read, c)
    requires FoldStream(Jsons(a, chunks), read) == FoldStream(payloads, Reading(a))
    ensures var c := Translated(a, p);
            FoldStream(Jsons(a, chunks + if c.Some? then [c.value] else []), read)
            == FoldStream(payloads + [p], Reading(a))
  {
    hide FoldStream, Jsons, Translated;
    FoldSnoc(payloads, p, Reading(a));
    var c := Translated(a, p);
    if c.Some? {
      assert Reads(a, read, c.value);
      JsonsSnoc(a, chunks, c.value);
      FoldSnoc(Jsons(a, chunks), a.dump(c.value), read);
    } else {
      NothingAdded(chunks);
    }
  }

  lemma ClientChunksLast<J(!new)>(a: Adapter<J, Chunk>, init: seq<string>, p: string)
    ensures var c := Translated(a, p);
            ClientChunks(a, init + [p]) == ClientChunks(a, init) + if c.Some? then [c.value] else []
  {
    var all := init + [p];
    assert all[..|init|] == init && all[..|init| + 1] == all;
    ClientChunksSnoc(a, all, |init|);
  }

  lemma SplitLast(payloads: seq<string>)
    requires payloads != []
    ensures payloads == payloads[..|payloads| - 1] + [payloads[|payloads| - 1]]
  {
  }

  lemma {:induction false} FoldOfChunks<J(!new)>(a: Adapter<J, Chunk>, read: string -> Option<Chunk>,
                                                 payloads: seq<string>)
    requires forall c :: Reads(a, read, c)
    ensures FoldStream(Jsons(a, ClientChunks(a, payloads)), read) == FoldStream(payloads, Reading(a))
    decreases |payloads|
  {
    if payloads != [] {
      hide FoldStream, Jsons, ClientChunks, Translated, Reads, Reading;
      var init, last := payloads[..|payloads| - 1], payloads[|payloads| - 1];
      SplitLast(payloads);
      FoldOfChunks(a, read, init);
      ClientChunksLast(a, init, last);
      FoldOneMore(a, read, ClientChunks(a, init), init, last);
    }
  }

  /** The client of a stream that ends well has folded exactly the translated events the
      provider sent up to its terminator. */
  lemma ClientSeesStream<J(!new)>(a: Adapter<J, Chunk>, read: string -> Option<Chunk>, s: ByteStream)
    requires EndsWell(s) && forall c :: Reads(a, read, c)
    ensures ClientSees(read, Flatten(ClientOutput(a, s)))
            == FoldStream(UntilDone(Payloads(s)), Reading(a))
  {
    var payloads := UntilDone(Payloads(s));
    var chunks := ClientChunks(a, payloads);
    var jsons := Jsons(a, chunks);
    forall i | 0 <= i < |jsons|
      ensures OneLine(jsons[i]) && !IsDone(jsons[i])
    {
      assert Reads(a, read, chunks[i]);
    }
    OutputText(a, s);
    StandardFrames(jsons);
    PayloadsBeforeDone(jsons);
    FoldOfChunks(a, read, payloads);
    hide Jsons, ClientChunks, UntilDone, Payloads, FoldStream, Translated, StandardEvents;
  }

  lemma OutputText<J>(a: Adapter<J, Chunk>, s: ByteStream)
    requires EndsWell(s)
    ensures Flatten(ClientOutput(a, s)) == Frames(Jsons(a, ClientChunks(a, UntilDone(Payloads(s))))) + SSE_DONE
  {
    var frames := FrameAll(a, ClientChunks(a, UntilDone(Payloads(s))));
    FlatFrames(a, ClientChunks(a, UntilDone(Payloads(s))));
    FlattenAppend(frames, [SSE_DONE]);
    assert Flatten([SSE_DONE]) == SSE_DONE + Flatten([]);
    NothingAdded(SSE_DONE);
    hide FrameAll, ClientChunks, Payloads, UntilDone, Jsons;
  }

  // --- Anthropic ---------------------------------------------------------------

  /** The events of some payloads; what is not JSON is skipped. */
  function EventsOf<J>(loads: string -> Option<J>, payloads: seq<string>): seq<J> {
    if payloads == [] then []
    else
      var last := loads(payloads[|payloads| - 1]);
      EventsOf(loads, payloads[..|payloads| - 1]) + if last.Some? then [last.value] else []
  }

  lemma {:induction false} FoldOfEvents<J(!new)>(a: Adapter<J, Chunk>, translate: J -> Option<Chunk>,
                                                 payloads: seq<string>)
    requires forall e :: a.translate(e) == translate(e)
    ensures FoldStream(payloads, Reading(a)) == FoldStream(EventsOf(a.loads, payloads), translate)
    decreases |payloads|
  {
    if payloads != [] {
      var init, last := payloads[..|payloads| - 1], a.loads(payloads[|payloads| - 1]);
      FoldOfEvents(a, translate, init);
      if last.Some? {
        FoldSnoc(EventsOf(a.loads, init), last.value, translate);
      } else {
        NothingAdded(EventsOf(a.loads, init));
      }
    }
  }

  /** From the provider's bytes to the client's turn: over a stream of Anthropic's that ends
      well and follows its protocol, the client ends with the buffered message's finish reason
      and, in order, its tool calls' ids and names; with its text exactly when none came with
      a block's start, and with a call's argument value exactly when that was streamed. */
  lemma AnthropicClient(codec: Codec, a: Adapter<Anthropic.Event, Chunk>, read: string -> Option<Chunk>,
                        s: ByteStream)
    requires Lawful(codec) && EndsWell(s) && forall c :: Reads(a, read, c)
    requires forall e :: a.translate(e) == Anthropic.FromStreamEvent(e)
    requires var state := Anthropic.Accumulate(EventsOf(a.loads, UntilDone(Payloads(s))));
             state.Some? && Anthropic.Complete(codec, state.value.blocks)
    ensures var state := Anthropic.Accumulate(EventsOf(a.loads, UntilDone(Payloads(s)))).value;
            var view := ClientSees(read, Flatten(ClientOutput(a, s)));
            var message := Anthropic.Message(codec, state.blocks);
            var streamed := InOrder(view.tools, |state.blocks|);
            var buffered := Anthropic.CallsOf(codec, message);
            && view.finish == Anthropic.MapStopReason(state.stopReason)
            && (view.text == Anthropic.TextOf(message)
                <==> forall b | b in state.blocks :: b.OpenText? ==> b.initial == "")
            && |streamed| == |buffered| == |Anthropic.ToolBlocks(state.blocks)|
            && forall i | 0 <= i < |streamed| ::
                 && streamed[i].id == buffered[i].id && streamed[i].name == buffered[i].name
                 && (Anthropic.ParseToolArguments(codec, streamed[i].arguments)
                     == Anthropic.ParseToolArguments(codec, buffered[i].arguments)
                     <==> Anthropic.InputStreamed(Anthropic.ToolBlocks(state.blocks)[i]))
  {
    ClientSeesStream(a, read, s);
    FoldOfEvents(a, Anthropic.FromStreamEvent, UntilDone(Payloads(s)));
    Anthropic.StreamedEqualsBuffered(codec, EventsOf(a.loads, UntilDone(Payloads(s))));
    hide *;
  }

  // --- Codex -------------------------------------------------------------------

  lemma {:induction false} FoldOfDecoded<J(!new)>(a: Adapter<J, Chunk>, translate: Option<J> -> Option<Chunk>,
                                                  payloads: seq<string>)
    requires translate(None) == None && forall e :: a.translate(e) == translate(Some(e))
    ensures FoldStream(payloads, Reading(a)) == FoldStream(Map(payloads, a.loads), translate)
    decreases |payloads|
  {
    if payloads != [] {
      var init, last := payloads[..|payloads| - 1], payloads[|payloads| - 1];
      FoldOfDecoded(a, translate, init);
      assert Map(payloads, a.loads) == Map(init, a.loads) + [a.loads(last)];
      FoldSnoc(Map(init, a.loads), a.loads(last), translate);
    }
  }

  /** From the provider's bytes to the client's turn: over a whole Codex answer that follows
      the protocol, the client reads the text the buffered path answers, holds its tool calls
      exactly when at most one was sent, and has its finish reason exactly when none was and
      nothing was cut short. */
  lemma CodexClient(a: Adapter<Codex.Event, Chunk>, read: string -> Option<Chunk>, s: ByteStream,
                    response: Codex.Response)
    requires EndsWell(s) && forall c :: Reads(a, read, c)
    requires forall e :: a.translate(e) == Codex.FromStreamEvent(Some(e))
    requires var events := Map(UntilDone(Payloads(s)), a.loads);
             && Codex.Answers(events, response) && Codex.SpellsItems(events) && Codex.Pending(events) == ""
             && Codex.FollowsCalls(events) && Codex.OpenCall(events).None?
    ensures var events := Map(UntilDone(Payloads(s)), a.loads);
            var buffered := Codex.Aggregate(events, s.failure);
            && buffered.Ok?
            && var view := ClientSees(read, Flatten(ClientOutput(a, s)));
               var calls := Codex.CallsOf(buffered.value.output);
               && view.text == Codex.TextOf(buffered.value.output)
               && (InOrder(view.tools, 1) == calls <==> |Codex.AddedCalls(events)| <= 1)
               && (view.finish == Some(Codex.FinishReason(buffered.value.cutShort, calls != []))
                   <==> Codex.AddedCalls(events) == [] && !response.cutShort)
  {
    var events := Map(UntilDone(Payloads(s)), a.loads);
    ClientSeesStream(a, read, s);
    FoldOfDecoded(a, Codex.FromStreamEvent, UntilDone(Payloads(s)));
    Codex.StreamedTextIsBuffered(events, response, s.failure);
    Codex.StreamedCallsIff(events, response, s.failure);
    hide *;
  }
}
