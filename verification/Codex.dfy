/** The Codex Responses adapter, and the aggregation of its stream into one response. */
module Codex {
  import opened Prelude
  import opened OpenAi
  import opened HttpRetry
  import Streaming

  datatype ItemPart = OutputText(text: string) | InputText(text: string) | OtherItemPart

  /** An input or output item; an absent id is the empty text. */
  datatype Item =
    | FunctionCall(callId: string, itemId: string, name: string, arguments: string)
    | MessageItem(role: string, parts: seq<ItemPart>)
    | FunctionCallOutput(callId: string, output: string)
    | Reasoning
    | OtherItem

  datatype ProviderRequest = ProviderRequest(input: seq<Item>, instructions: Option<string>)

  datatype Response = Response(output: seq<Item>, cutShort: bool)

  // --- Requests --------------------------------------------------------------

  function PartText(part: Part): string {
    match part
    case RawText(text) => text
    case TextPart(text) => text
    case ImagePart(_) => ""
    case OtherPart(note) => TextOrEmpty(note)
  }

  function TextFromContent(content: Content): string {
    match content
    case NoContent => ""
    case Text(text) => text
    case Parts(parts) => Flatten(Map(parts, PartText))
  }

  function CallItems(calls: seq<ToolCall>): seq<Item> {
    Map(calls, (c: ToolCall) => FunctionCall(c.id, "", c.name, c.arguments))
  }

  /** The input items of one message; a system message has none. */
  function ItemsFor(m: ChatMessage): seq<Item> {
    var text := TextFromContent(m.content);
    if IsSystemRole(m.role) then []
    else if m.role == "assistant" then
      CallItems(m.toolCalls) + if text != "" then [MessageItem("assistant", [OutputText(text)])] else []
    else if m.role == "tool" then [FunctionCallOutput(m.toolCallId, text)]
    else [MessageItem(m.role, [InputText(text)])]
  }

  function InstructionText(m: ChatMessage): seq<string> {
    if IsSystemRole(m.role) && TextFromContent(m.content) != "" then [TextFromContent(m.content)] else []
  }

  /** The texts and notes of some parts, in order. */
  function NotedParts(parts: seq<Part>): seq<string> {
    if parts == [] then []
    else
      var last := parts[|parts| - 1];
      NotedParts(parts[..|parts| - 1])
        + if last.RawText? || last.TextPart? then [last.text]
          else if last.OtherPart? && last.note.Some? then [last.note.value]
          else []
  }

  /** The texts and notes a content says, in order. */
  function NotedIn(content: Content): seq<string> {
    match content
    case NoContent => []
    case Text(text) => [text]
    case Parts(parts) => NotedParts(parts)
  }

  lemma {:induction false} PartTexts(parts: seq<Part>)
    ensures Flatten(Map(parts, PartText)) == Flatten(NotedParts(parts))
    decreases |parts|
  {
    if parts != [] {
      var n := |parts| - 1;
      assert parts[..n + 1] == parts;
      PartTexts(parts[..n]);
      FlattenMapSnoc(parts, n, PartText);
      FlattenSnoc(NotedParts(parts[..n]), PartText(parts[n]));
      NothingAdded(NotedParts(parts[..n]));
      NothingAdded(Flatten(NotedParts(parts[..n])));
      hide Flatten, Map;
    }
  }

  /** A content's text is its texts and notes, one after the other. */
  lemma ContentTextIs(content: Content)
    ensures TextFromContent(content) == Flatten(NotedIn(content))
    ensures HasInTurn(TextFromContent(content), NotedIn(content))
  {
    FlattenHas(NotedIn(content));
    if content.Parts? {
      PartTexts(content.parts);
    } else if content.Text? {
      assert Flatten([content.text]) == content.text + Flatten<char>([]);
    }
  }

  /** The texts a system or developer message says. */
  function InstructionPieces(m: ChatMessage): seq<string> {
    if m.role == "system" || m.role == "developer" then NotedIn(m.content) else []
  }

  /** The instructions have every text of every system and developer message, in order. */
  lemma {:induction false} InstructionsHave(messages: seq<ChatMessage>)
    ensures HasInTurn(Join(Flatten(Map(messages, InstructionText)), "\n\n"), Flatten(Map(messages, InstructionPieces)))
    decreases |messages|
  {
    if messages != [] {
      var n := |messages| - 1;
      var m := messages[n];
      assert messages[..n + 1] == messages;
      InstructionsHave(messages[..n]);
      FlattenMapSnoc(messages, n, InstructionText);
      FlattenMapSnoc(messages, n, InstructionPieces);
      ContentTextIs(m.content);
      OneMoreText(Flatten(Map(messages[..n], InstructionText)), InstructionText(m), "\n\n",
                  Flatten(Map(messages[..n], InstructionPieces)), InstructionPieces(m), TextFromContent(m.content));
    }
  }

  /** What a message becomes: a system message nothing, a tool's its output under its call's id,
      an assistant's its calls in order and then its text, any other one message of its role,
      with all its texts. */
  lemma ItemsKept(m: ChatMessage)
    ensures var items, text := ItemsFor(m), Flatten(NotedIn(m.content));
            && (m.role == "system" || m.role == "developer" ==> items == [])
            && (m.role == "tool" ==> items == [FunctionCallOutput(m.toolCallId, text)])
            && (m.role == "assistant" ==>
                  && |items| == |m.toolCalls| + (if text == "" then 0 else 1)
                  && (forall i | 0 <= i < |m.toolCalls| ::
                        items[i] == FunctionCall(m.toolCalls[i].id, "", m.toolCalls[i].name, m.toolCalls[i].arguments))
                  && (text != "" ==> items[|m.toolCalls|] == MessageItem("assistant", [OutputText(text)])))
            && (m.role !in {"system", "developer", "tool", "assistant"} ==>
                  items == [MessageItem(m.role, [InputText(text)])])
  {
    ContentTextIs(m.content);
    hide TextFromContent, NotedIn, Flatten, HasInTurn;
  }

  method MapCalls(calls: seq<ToolCall>) returns (items: seq<Item>)
    ensures items == CallItems(calls)
  {
    items := [];
    for i := 0 to |calls|
      invariant items == CallItems(calls[..i])
    {
      items := items + [FunctionCall(calls[i].id, "", calls[i].name, calls[i].arguments)];
    }
    assert calls[..|calls|] == calls;
  }

  method MapMessage(m: ChatMessage) returns (items: seq<Item>)
    requires !IsSystemRole(m.role)
    ensures items == ItemsFor(m)
  {
    var text := TextFromContent(m.content);
    if m.role == "assistant" {
      items := MapCalls(m.toolCalls);
      if text != "" {
        items := items + [MessageItem("assistant", [OutputText(text)])];
      }
    } else if m.role == "tool" {
      items := [FunctionCallOutput(m.toolCallId, text)];
    } else {
      items := [MessageItem(m.role, [InputText(text)])];
    }
  }

  method ToProviderRequest(messages: seq<ChatMessage>) returns (req: ProviderRequest)
    ensures req.input == Flatten(Map(messages, ItemsFor))
    ensures var texts := Flatten(Map(messages, InstructionText));
            req.instructions == if texts == [] then None else Some(Join(texts, "\n\n"))
    ensures HasInTurn(TextOrEmpty(req.instructions), Flatten(Map(messages, InstructionPieces)))
  {
    var instructions: seq<string> := [];
    var input: seq<Item> := [];
    for i := 0 to |messages|
      invariant instructions == Flatten(Map(messages[..i], InstructionText))
      invariant input == Flatten(Map(messages[..i], ItemsFor))
    {
      FlattenMapSnoc(messages, i, InstructionText);
      FlattenMapSnoc(messages, i, ItemsFor);
      if IsSystemRole(messages[i].role) {
        var text := TextFromContent(messages[i].content);
        if text != "" {
          instructions := instructions + [text];
        }
      } else {
        var items := MapMessage(messages[i]);
        input := input + items;
      }
    }
    assert messages[..|messages|] == messages;
    InstructionsHave(messages);
    req := ProviderRequest(input, if instructions == [] then None else Some(Join(instructions, "\n\n")));
  }

  // --- Responses -------------------------------------------------------------

  function PartsText(parts: seq<ItemPart>): string {
    if parts == [] then ""
    else
      var last := parts[|parts| - 1];
      PartsText(parts[..|parts| - 1]) + if last.OutputText? then last.text else ""
  }

  function ItemText(item: Item): string {
    if item.MessageItem? then PartsText(item.parts) else ""
  }

  function TextOf(items: seq<Item>): string {
    if items == [] then "" else TextOf(items[..|items| - 1]) + ItemText(items[|items| - 1])
  }

  function CallOf(item: Item): ToolCall
    requires item.FunctionCall?
  {
    ToolCall(if item.callId != "" then item.callId else item.itemId, item.name, item.arguments)
  }

  function CallsOf(items: seq<Item>): seq<ToolCall> {
    if items == [] then []
    else
      var last := items[|items| - 1];
      CallsOf(items[..|items| - 1]) + if last.FunctionCall? then [CallOf(last)] else []
  }

  function FinishReason(cutShort: bool, hasCalls: bool): string {
    if cutShort then "length" else if hasCalls then "tool_calls" else "stop"
  }

  /** A call answers to its call id, or to its item's id when it has none. */
  lemma CallIds(item: Item)
    requires item.FunctionCall?
    ensures var call := CallOf(item);
            && (item.callId != "" ==> call.id == item.callId) && (item.callId == "" ==> call.id == item.itemId)
            && call.name == item.name && call.arguments == item.arguments
  {
  }

  /** A response cut short says so, whatever else it holds; one that was not names its calls. */
  lemma FinishReasons(cutShort: bool, hasCalls: bool)
    ensures FinishReason(cutShort, hasCalls) == "length" <==> cutShort
    ensures FinishReason(cutShort, hasCalls) == "tool_calls" <==> hasCalls && !cutShort
    ensures FinishReason(cutShort, hasCalls) == "stop" <==> !hasCalls && !cutShort
  {
  }

  lemma OneMoreItem(items: seq<Item>, item: Item)
    ensures TextOf(items + [item]) == TextOf(items) + ItemText(item)
    ensures CallsOf(items + [item]) == CallsOf(items) + if item.FunctionCall? then [CallOf(item)] else []
  {
    assert (items + [item])[..|items|] == items;
  }

  lemma ItemSnoc(items: seq<Item>, i: nat)
    requires i < |items|
    ensures TextOf(items[..i + 1]) == TextOf(items[..i]) + ItemText(items[i])
    ensures CallsOf(items[..i + 1])
            == if items[i].FunctionCall? then CallsOf(items[..i]) + [CallOf(items[i])] else CallsOf(items[..i])
  {
    assert items[..i + 1] == items[..i] + [items[i]];
    OneMoreItem(items[..i], items[i]);
  }

  lemma PartSnoc(parts: seq<ItemPart>, j: nat)
    requires j < |parts|
    ensures PartsText(parts[..j + 1]) == PartsText(parts[..j]) + if parts[j].OutputText? then parts[j].text else ""
  {
    assert parts[..j + 1][..j] == parts[..j];
  }

  lemma NothingSaid()
    ensures PartsText([]) == "" && TextOf([]) == "" && CallsOf([]) == []
  {
  }

  method FromProviderResponse(resp: Response) returns (turn: AssistantTurn)
    ensures turn.content == if TextOf(resp.output) == "" then None else Some(TextOf(resp.output))
    ensures turn.toolCalls == CallsOf(resp.output)
    ensures turn.finish == Some(FinishReason(resp.cutShort, CallsOf(resp.output) != []))
  {
    var text: string := "";
    var calls: seq<ToolCall> := [];
    var items := resp.output;
    NothingSaid();
    hide TextOf, CallsOf, PartsText, CallOf;
    for i := 0 to |items|
      invariant text == TextOf(items[..i]) && calls == CallsOf(items[..i])
    {
      ItemSnoc(items, i);
      if items[i].MessageItem? {
        ghost var before := text;
        var parts := items[i].parts;
        NothingAdded(before);
        for j := 0 to |parts|
          invariant text == before + PartsText(parts[..j])
        {
          PartSnoc(parts, j);
          if parts[j].OutputText? {
            text := text + parts[j].text;
          }
        }
        assert parts[..|parts|] == parts;
      } else if items[i].FunctionCall? {
        calls := calls + [CallOf(items[i])];
      }
    }
    assert items[..|items|] == items;
    var finish := FinishReason(resp.cutShort, calls != []);
    turn := AssistantTurn(if text == "" then None else Some(text), calls, Some(finish));
  }

  lemma CallItemSnoc(calls: seq<ToolCall>, call: ToolCall)
    ensures CallsOf(CallItems(calls + [call])) == CallsOf(CallItems(calls)) + [call]
    ensures TextOf(CallItems(calls + [call])) == TextOf(CallItems(calls))
  {
    var item := FunctionCall(call.id, "", call.name, call.arguments);
    assert CallOf(item) == call && ItemText(item) == "";
    assert CallItems(calls + [call]) == CallItems(calls) + [item];
    OneMoreItem(CallItems(calls), item);
    hide TextOf, CallsOf, CallItems, ItemText;
  }

  lemma {:induction false} CallItemsBack(calls: seq<ToolCall>)
    ensures CallsOf(CallItems(calls)) == calls && TextOf(CallItems(calls)) == ""
    decreases |calls|
  {
    if |calls| == 0 {
      assert CallItems(calls) == [];
      assert calls == [];
    } else {
      hide *;
      var head, last := calls[..|calls| - 1], calls[|calls| - 1];
      assert calls == head + [last];
      CallItemsBack(head);
      CallItemSnoc(head, last);
    }
  }

  /** An assistant turn sent to Codex and read back is the same turn: its text (none when it
      was empty) and its tool calls, verbatim. */
  lemma TurnRoundTrip(m: ChatMessage)
    requires m.role == "assistant"
    ensures TextOf(ItemsFor(m)) == Flatten(NotedIn(m.content)) && CallsOf(ItemsFor(m)) == m.toolCalls
  {
    ContentTextIs(m.content);
    var text := TextFromContent(m.content);
    var calls := CallItems(m.toolCalls);
    CallItemsBack(m.toolCalls);
    if text == "" {
      assert ItemsFor(m) == calls + [] == calls;
    } else {
      var item := MessageItem("assistant", [OutputText(text)]);
      OneMoreItem(calls, item);
      assert item.parts[..0] == [];
      assert PartsText(item.parts[..0]) == "";
    }
  }

  // --- Aggregating a stream --------------------------------------------------

  datatype Event =
    | OutputTextDelta(text: string)
    | ArgumentsDelta(fragment: string)
    | ItemAdded(item: Item)
    | ItemDone(item: Item)
    | Completed(response: Option<Response>)
    | Failed
    | ReasoningEvent
    | OtherEvent

  datatype StreamError = ReportedFailure | EndedEarly | Broken(failure: UpstreamFailure)

  /** The stream's answer is known: a completed response or a reported failure. */
  predicate Ends(event: Option<Event>) {
    event.Some? && ((event.value.Completed? && event.value.response.Some?) || event.value.Failed?)
  }

  function DoneItems(events: seq<Option<Event>>): seq<Item> {
    if events == [] then []
    else
      var last := events[|events| - 1];
      DoneItems(events[..|events| - 1]) + if last.Some? && last.value.ItemDone? then [last.value.item] else []
  }

  /** The finished items spliced into a completed response that carries none. */
  function Spliced(response: Response, items: seq<Item>): Response {
    if response.output == [] then response.(output := items) else response
  }

  /** The buffered answer of some events and of how their stream ended: the first event that
      ends the stream decides. */
  function Aggregate(events: seq<Option<Event>>, failure: Option<UpstreamFailure>): Result<Response, StreamError> {
    var n := IndexWhere(events, Ends);
    if n < |events| then
      if events[n].value.Failed? then Err(ReportedFailure)
      else Ok(Spliced(events[n].value.response.value, DoneItems(events[..n])))
    else if failure.Some? then Err(Broken(failure.value))
    else Err(EndedEarly)
  }

  lemma AggregateAt(events: seq<Option<Event>>, failure: Option<UpstreamFailure>, n: nat)
    requires n < |events| && Ends(events[n]) && forall i | 0 <= i < n :: !Ends(events[i])
    ensures Aggregate(events, failure) == if events[n].value.Failed? then Err(ReportedFailure)
                                          else Ok(Spliced(events[n].value.response.value, DoneItems(events[..n])))
  {
    assert IndexWhere(events, Ends) == n;
  }

  /** A completed response that carries output is the answer as it is; one that carries none is
      given the items finished before it. */
  lemma CompletedAnswers(events: seq<Option<Event>>, failure: Option<UpstreamFailure>, n: nat, response: Response)
    requires n < |events| && events[n] == Some(Completed(Some(response))) && forall i | 0 <= i < n :: !Ends(events[i])
    ensures response.output != [] ==> Aggregate(events, failure) == Ok(response)
    ensures response.output == [] ==>
              Aggregate(events, failure) == Ok(Response(DoneItems(events[..n]), response.cutShort))
  {
    AggregateAt(events, failure, n);
  }

  lemma NoAnswer(events: seq<Option<Event>>, failure: Option<UpstreamFailure>)
    requires forall i | 0 <= i < |events| :: !Ends(events[i])
    ensures Aggregate(events, failure) == if failure.Some? then Err(Broken(failure.value)) else Err(EndedEarly)
  {
  }

  lemma DoneSnoc(events: seq<Option<Event>>, i: nat)
    requires i < |events|
    ensures DoneItems(events[..i + 1])
            == if events[i].Some? && events[i].value.ItemDone? then DoneItems(events[..i]) + [events[i].value.item]
               else DoneItems(events[..i])
  {
    assert events[..i + 1][..i] == events[..i];
  }

  /** Serve a buffered call from a stream of the client's own: a payload that is not an event
      is skipped, and a broken connection is an error unless the answer came before it. */
  method CallCodexNonStreaming(attempts: int, base: real, cap: real, world: nat -> Exchange, draw: nat -> real,
                               decode: string -> Option<Event>)
    returns (result: Result<Response, StreamError>)
    ensures var s := StreamOutcome(world, if attempts < 1 then 1 else attempts);
            result == Aggregate(Map(Streaming.Payloads(s), decode), s.failure)
  {
    var client := new UpstreamClient(attempts, base, cap, false);
    var stream, _, _ := client.Stream(world, draw);
    var payloads := Streaming.PullPayloads(stream);
    result := AggregatePayloads(payloads, decode, stream.failure);
    client.Aclose();
  }

  method AggregatePayloads(payloads: seq<string>, decode: string -> Option<Event>, failure: Option<UpstreamFailure>)
    returns (result: Result<Response, StreamError>)
    ensures result == Aggregate(Map(payloads, decode), failure)
  {
    ghost var events := Map(payloads, decode);
    var items: seq<Item> := [];
    for i := 0 to |payloads|
      invariant items == DoneItems(events[..i])
      invariant forall j | 0 <= j < i :: !Ends(events[j])
    {
      hide DoneItems, Aggregate;
      var event := decode(payloads[i]);
      assert event == events[i];
      DoneSnoc(events, i);
      if event.Some? {
        match event.value {
          case ItemDone(item) => items := items + [item];
          case Completed(response) =>
            if response.Some? {
              AggregateAt(events, failure, i);
              return Ok(Spliced(response.value, items));
            }
          case Failed =>
            AggregateAt(events, failure, i);
            return Err(ReportedFailure);
          case _ =>
        }
      }
    }
    NoAnswer(events, failure);
    result := if failure.Some? then Err(Broken(failure.value)) else Err(EndedEarly);
  }

  // --- Streaming to the client -------------------------------------------------

  function FromStreamEvent(event: Option<Event>): Option<Chunk> {
    if event.None? then None
    else
      match event.value
      case OutputTextDelta(text) => Some(Chunk(ContentDelta(text), None))
      case ItemAdded(item) =>
        if item.FunctionCall? then
          var call := CallOf(item);
          Some(Chunk(ToolStart(0, call.id, call.name, call.arguments), None))
        else None
      case ArgumentsDelta(fragment) => Some(Chunk(ToolArguments(0, fragment), None))
      case Completed(_) => Some(Chunk(EmptyDelta, Some("stop")))
      case _ => None
  }

  /** The text of deltas not yet closed by the item that repeats it. */
  function Pending(events: seq<Option<Event>>): string {
    if events == [] then ""
    else
      var before, last := Pending(events[..|events| - 1]), events[|events| - 1];
      if last.None? then before
      else if last.value.OutputTextDelta? then before + last.value.text
      else if last.value.ItemDone? && last.value.item.MessageItem? then ""
      else before
  }

  /** Every finished message item spells the deltas since the one before it. */
  ghost predicate SpellsItems(events: seq<Option<Event>>) {
    forall i | 0 <= i < |events| && events[i].Some? && events[i].value.ItemDone? && events[i].value.item.MessageItem? ::
      ItemText(events[i].value.item) == Pending(events[..i])
  }

  lemma SpellsPrefix(events: seq<Option<Event>>, n: nat)
    requires SpellsItems(events) && n <= |events|
    ensures SpellsItems(events[..n])
  {
    forall i | 0 <= i < n && events[i].Some? && events[i].value.ItemDone? && events[i].value.item.MessageItem?
      ensures ItemText(events[i].value.item) == Pending(events[..n][..i])
    {
      assert events[..n][..i] == events[..i];
    }
  }

  function DeltaText(event: Option<Event>): string {
    if event.Some? && event.value.OutputTextDelta? then event.value.text else ""
  }

  lemma FoldText(view: ClientView, event: Option<Event>)
    ensures FoldEvent(view, FromStreamEvent(event)).text == view.text + DeltaText(event)
  {
  }

  predicate ClosesMessage(event: Option<Event>) {
    event.Some? && event.value.ItemDone? && event.value.item.MessageItem?
  }

  lemma PendingSnoc(events: seq<Option<Event>>, event: Option<Event>)
    ensures Pending(events + [event]) == if ClosesMessage(event) then "" else Pending(events) + DeltaText(event)
  {
    assert (events + [event])[..|events|] == events;
  }

  lemma DoneTextSnoc(events: seq<Option<Event>>, event: Option<Event>)
    ensures TextOf(DoneItems(events + [event]))
            == TextOf(DoneItems(events)) + if ClosesMessage(event) then ItemText(event.value.item) else ""
  {
    assert (events + [event])[..|events|] == events;
    if event.Some? && event.value.ItemDone? {
      OneMoreItem(DoneItems(events), event.value.item);
    } else {
      assert DoneItems(events + [event]) == DoneItems(events);
    }
  }

  lemma SpellsLast(events: seq<Option<Event>>, event: Option<Event>)
    requires SpellsItems(events + [event]) && ClosesMessage(event)
    ensures ItemText(event.value.item) == Pending(events)
  {
    var all := events + [event];
    assert all[..|events|] == events && all[|events|] == event;
  }

  /** One event keeps "text shown = text of finished items + pending deltas". */
  lemma StreamedTextStep(events: seq<Option<Event>>, event: Option<Event>, shown: string)
    requires SpellsItems(events + [event]) && shown == TextOf(DoneItems(events)) + Pending(events)
    ensures shown + DeltaText(event) == TextOf(DoneItems(events + [event])) + Pending(events + [event])
  {
    hide TextOf, ItemText, SpellsItems, DoneItems, Pending;
    PendingSnoc(events, event);
    DoneTextSnoc(events, event);
    if ClosesMessage(event) {
      SpellsLast(events, event);
      NothingAdded(TextOf(DoneItems(events)) + Pending(events));
    } else {
      NothingAdded(TextOf(DoneItems(events)));
      Associative(TextOf(DoneItems(events)), Pending(events), DeltaText(event));
    }
  }

  lemma {:induction false} StreamedText(events: seq<Option<Event>>)
    requires SpellsItems(events)
    ensures FoldStream(events, FromStreamEvent).text == TextOf(DoneItems(events)) + Pending(events)
    decreases |events|
  {
    if events != [] {
      var n := |events| - 1;
      var view := FoldStream(events[..n], FromStreamEvent);
      SpellsPrefix(events, n);
      StreamedText(events[..n]);
      FoldText(view, events[n]);
      assert events == events[..n] + [events[n]];
      StreamedTextStep(events[..n], events[n], view.text);
      hide TextOf, DoneItems, Pending, SpellsItems, FoldEvent, FromStreamEvent, DeltaText;
    }
  }

  /** The events are a whole answer: they end with its completed response, not before, and
      the response carries no output of its own, or the finished items. */
  predicate Answers(events: seq<Option<Event>>, response: Response) {
    && events != [] && events[|events| - 1] == Some(Completed(Some(response)))
    && (forall i | 0 <= i < |events| - 1 :: !Ends(events[i]))
    && (response.output == [] || response.output == DoneItems(events))
  }

  lemma AnswerAggregates(events: seq<Option<Event>>, response: Response, failure: Option<UpstreamFailure>)
    requires Answers(events, response)
    ensures Aggregate(events, failure) == Ok(response.(output := DoneItems(events)))
  {
    AggregateAt(events, failure, |events| - 1);
    assert DoneItems(events) == DoneItems(events[..|events| - 1]);
  }

  /** For every answer whose finished items spell their deltas, the client of the streaming
      path and the client of the buffered path read the same text. */
  lemma StreamedTextIsBuffered(events: seq<Option<Event>>, response: Response, failure: Option<UpstreamFailure>)
    requires Answers(events, response) && SpellsItems(events) && Pending(events) == ""
    ensures Aggregate(events, failure).Ok?
    ensures FoldStream(events, FromStreamEvent).text == TextOf(Aggregate(events, failure).value.output)
  {
    AnswerAggregates(events, response, failure);
    StreamedText(events);
    NothingAdded(TextOf(DoneItems(events)));
  }

  // --- Streamed tool calls -----------------------------------------------------

  function AddedCalls(events: seq<Option<Event>>): seq<ToolCall> {
    if events == [] then []
    else
      var last := events[|events| - 1];
      AddedCalls(events[..|events| - 1])
      + if last.Some? && last.value.ItemAdded? && last.value.item.FunctionCall? then [CallOf(last.value.item)] else []
  }

  /** The call being sent: as added, with the argument fragments so far. */
  function OpenCall(events: seq<Option<Event>>): Option<ToolCall> {
    if events == [] then None
    else NextOpen(OpenCall(events[..|events| - 1]), events[|events| - 1])
  }

  function NextOpen(open: Option<ToolCall>, event: Option<Event>): Option<ToolCall> {
    if event.None? then open
    else
      match event.value
      case ItemAdded(item) => if item.FunctionCall? then Some(CallOf(item)) else open
      case ArgumentsDelta(fragment) =>
        if open.Some? then Some(open.value.(arguments := open.value.arguments + fragment)) else None
      case ItemDone(item) => if item.FunctionCall? then None else open
      case _ => open
  }

  /** The protocol of calls: one at a time, fragments only while one is open, and a finished
      call is the open one, its arguments spelled out. */
  predicate CallFollows(open: Option<ToolCall>, event: Option<Event>) {
    event.Some? ==>
      match event.value
      case ItemAdded(item) => item.FunctionCall? ==> open.None?
      case ArgumentsDelta(_) => open.Some?
      case ItemDone(item) => item.FunctionCall? ==> open == Some(CallOf(item))
      case _ => true
  }

  predicate FollowsCalls(events: seq<Option<Event>>) {
    events == []
    || (FollowsCalls(events[..|events| - 1]) && CallFollows(OpenCall(events[..|events| - 1]), events[|events| - 1]))
  }

  /** What the client holds of the calls so far: every call is sent under index 0. */
  predicate HoldsCalls(tools: map<nat, ToolCall>, done: seq<ToolCall>, open: Option<ToolCall>, added: nat) {
    && |done| + (if open.Some? then 1 else 0) == added
    && (added == 0 ==> tools == map[])
    && (added == 1 ==> tools == map[0 := if open.Some? then open.value else done[0]])
    && (added > 1 ==> tools.Keys == {0})
  }

  lemma HoldsStep(view: ClientView, event: Option<Event>, done: seq<ToolCall>, open: Option<ToolCall>, added: nat)
    requires HoldsCalls(view.tools, done, open, added) && CallFollows(open, event)
    ensures var isAdded := event.Some? && event.value.ItemAdded? && event.value.item.FunctionCall?;
            var isDone := event.Some? && event.value.ItemDone? && event.value.item.FunctionCall?;
            HoldsCalls(FoldEvent(view, FromStreamEvent(event)).tools,
                       if isDone then done + [CallOf(event.value.item)] else done,
                       NextOpen(open, event), if isAdded then added + 1 else added)
  {
    assert forall text: string :: "" + text == text;
  }

  lemma {:induction false} ClientHoldsCalls(events: seq<Option<Event>>)
    requires FollowsCalls(events)
    ensures HoldsCalls(FoldStream(events, FromStreamEvent).tools, CallsOf(DoneItems(events)), OpenCall(events),
                       |AddedCalls(events)|)
    decreases |events|
  {
    if events != [] {
      var n := |events| - 1;
      var event := events[n];
      ClientHoldsCalls(events[..n]);
      HoldsStep(FoldStream(events[..n], FromStreamEvent), event, CallsOf(DoneItems(events[..n])), OpenCall(events[..n]),
                |AddedCalls(events[..n])|);
      if event.Some? && event.value.ItemDone? {
        OneMoreItem(DoneItems(events[..n]), event.value.item);
        assert CallsOf(DoneItems(events[..n])) + [] == CallsOf(DoneItems(events[..n]));
        assert DoneItems(events) == DoneItems(events[..n]) + [event.value.item];
      } else {
        assert DoneItems(events) == DoneItems(events[..n]);
      }
      hide HoldsCalls, FoldEvent, FromStreamEvent, NextOpen, CallsOf, CallFollows, FollowsCalls;
    }
  }

  lemma {:induction false} StreamedFinish(events: seq<Option<Event>>)
    ensures FoldStream(events, FromStreamEvent).finish
            == if exists e | e in events :: e.Some? && e.value.Completed? then Some("stop") else None
    decreases |events|
  {
    if events != [] {
      var n := |events| - 1;
      StreamedFinish(events[..n]);
      assert forall e :: e in events <==> e in events[..n] || e == events[n];
    }
  }

  lemma OneSlot(tools: map<nat, ToolCall>)
    ensures InOrder(tools, 1) == if 0 in tools then [tools[0]] else []
  {
    assert InOrder(tools, 0) == [];
  }

  /** What the client shows of `added` finished calls. */
  lemma ShownCalls(tools: map<nat, ToolCall>, calls: seq<ToolCall>, added: nat)
    requires HoldsCalls(tools, calls, None, added)
    ensures (InOrder(tools, 1) == calls <==> added <= 1) && |calls| == added
    ensures forall i | i in tools :: i == 0
  {
    OneSlot(tools);
    hide InOrder;
  }

  /** Where the streamed form falls short of the buffered one. For every answer that follows
      the protocol, the client of the streaming path ends with the tool calls of the buffered
      path exactly when at most one call was sent, and with its finish reason exactly when
      none was and the answer was not cut short. */
  lemma StreamedCallsIff(events: seq<Option<Event>>, response: Response, failure: Option<UpstreamFailure>)
    requires Answers(events, response) && FollowsCalls(events) && OpenCall(events).None?
    ensures Aggregate(events, failure).Ok?
    ensures var view := FoldStream(events, FromStreamEvent);
            var buffered := Aggregate(events, failure).value;
            var calls := CallsOf(buffered.output);
            && (InOrder(view.tools, 1) == calls <==> |AddedCalls(events)| <= 1)
            && (forall i | i in view.tools :: i == 0)
            && (view.finish == Some(FinishReason(buffered.cutShort, calls != []))
                <==> AddedCalls(events) == [] && !response.cutShort)
  {
    assert Some(Completed(Some(response))) in events;
    hide FoldStream, CallsOf, OpenCall, AddedCalls, DoneItems, Aggregate, FollowsCalls, InOrder, HoldsCalls, Answers;
    AnswerAggregates(events, response, failure);
    ClientHoldsCalls(events);
    StreamedFinish(events);
    ShownCalls(FoldStream(events, FromStreamEvent).tools, CallsOf(DoneItems(events)), |AddedCalls(events)|);
  }

  lemma OneMoreEvent(events: seq<Option<Event>>, event: Option<Event>)
    ensures var all := events + [event];
            && OpenCall(all) == NextOpen(OpenCall(events), event)
            && (FollowsCalls(all) <==> FollowsCalls(events) && CallFollows(OpenCall(events), event))
            && AddedCalls(all) == AddedCalls(events)
                 + (if event.Some? && event.value.ItemAdded? && event.value.item.FunctionCall?
                    then [CallOf(event.value.item)] else [])
  {
    assert (events + [event])[..|events|] == events;
  }

  /** An answer with two calls: the buffered client sees both, the streaming client one. */
  lemma TwoCallsDiffer(a: Item, b: Item, events: seq<Option<Event>>)
    requires a.FunctionCall? && b.FunctionCall?
    requires events == [Some(ItemAdded(a)), Some(ItemDone(a)), Some(ItemAdded(b)), Some(ItemDone(b)),
                        Some(Completed(Some(Response([], false))))]
    ensures Answers(events, Response([], false)) && FollowsCalls(events) && OpenCall(events).None?
    ensures Aggregate(events, None).Ok?
    ensures InOrder(FoldStream(events, FromStreamEvent).tools, 1) != CallsOf(Aggregate(events, None).value.output)
  {
    OneMoreEvent([], events[0]);
    OneMoreEvent(events[..1], events[1]);
    OneMoreEvent(events[..2], events[2]);
    OneMoreEvent(events[..3], events[3]);
    OneMoreEvent(events[..4], events[4]);
    assert [] + [events[0]] == events[..1] && events[..1] + [events[1]] == events[..2];
    assert events[..2] + [events[2]] == events[..3] && events[..3] + [events[3]] == events[..4];
    assert events[..4] + [events[4]] == events;
    hide CallOf, AddedCalls, OpenCall, FollowsCalls, DoneItems, FoldStream;
    StreamedCallsIff(events, Response([], false), None);
  }

  // --- Every answer has a stream -------------------------------------------------

  /** One way to stream an item: a message's text and the item, a call as added without
      arguments, its arguments and the item, anything else the item. */
  function ItemEvents(item: Item): seq<Option<Event>> {
    match item
    case MessageItem(_, _) => [Some(OutputTextDelta(ItemText(item))), None, Some(ItemDone(item))]
    case FunctionCall(callId, itemId, name, arguments) =>
      [Some(ItemAdded(FunctionCall(callId, itemId, name, ""))), Some(ArgumentsDelta(arguments)), Some(ItemDone(item))]
    case _ => [Some(ReasoningEvent), None, Some(ItemDone(item))]
  }

  function AnswerEvents(items: seq<Item>): seq<Option<Event>> {
    if items == [] then [Some(OtherEvent)]
    else AnswerEvents(items[..|items| - 1]) + ItemEvents(items[|items| - 1])
  }

  /** The protocol so far: calls one at a time, messages spelled, nothing ended. */
  ghost predicate Underway(events: seq<Option<Event>>, items: seq<Item>) {
    && FollowsCalls(events) && SpellsItems(events) && DoneItems(events) == items
    && (forall i | 0 <= i < |events| :: !Ends(events[i]))
  }

  lemma UnderwaySnoc(events: seq<Option<Event>>, items: seq<Item>, event: Option<Event>)
    requires Underway(events, items) && !Ends(event) && CallFollows(OpenCall(events), event)
    requires ClosesMessage(event) ==> ItemText(event.value.item) == Pending(events)
    ensures Underway(events + [event],
                     if event.Some? && event.value.ItemDone? then items + [event.value.item] else items)
    ensures Pending(events + [event]) == if ClosesMessage(event) then "" else Pending(events) + DeltaText(event)
    ensures OpenCall(events + [event]) == NextOpen(OpenCall(events), event)
  {
    var all := events + [event];
    OneMoreEvent(events, event);
    PendingSnoc(events, event);
    assert all[..|events|] == events && all[..|events| + 1] == all;
    DoneSnoc(all, |events|);
    hide FollowsCalls, OpenCall, NextOpen, DoneItems, CallFollows, Ends;
    forall i | 0 <= i < |all| && all[i].Some? && all[i].value.ItemDone? && all[i].value.item.MessageItem?
      ensures ItemText(all[i].value.item) == Pending(all[..i])
    {
      assert i < |events| ==> all[..i] == events[..i];
    }
  }

  lemma MessageStreams(events: seq<Option<Event>>, items: seq<Item>, item: Item)
    requires Underway(events, items) && Pending(events) == "" && OpenCall(events).None? && item.MessageItem?
    ensures var all := events + ItemEvents(item);
            Underway(all, items + [item]) && Pending(all) == "" && OpenCall(all).None?
  {
    hide Underway, Pending, OpenCall, ItemText;
    var first: Option<Event>, second: Option<Event> := Some(OutputTextDelta(ItemText(item))), None;
    var once, twice := events + [first], events + [first] + [second];
    NothingAdded(ItemText(item));
    UnderwaySnoc(events, items, first);
    UnderwaySnoc(once, items, second);
    UnderwaySnoc(twice, items, Some(ItemDone(item)));
    assert events + ItemEvents(item) == twice + [Some(ItemDone(item))];
  }

  lemma CallStreams(events: seq<Option<Event>>, items: seq<Item>, item: Item)
    requires Underway(events, items) && Pending(events) == "" && OpenCall(events).None? && item.FunctionCall?
    ensures var all := events + ItemEvents(item);
            Underway(all, items + [item]) && Pending(all) == "" && OpenCall(all).None?
  {
    hide Underway, Pending, OpenCall, ItemText;
    var first: Option<Event> := Some(ItemAdded(FunctionCall(item.callId, item.itemId, item.name, "")));
    var second: Option<Event> := Some(ArgumentsDelta(item.arguments));
    var once, twice := events + [first], events + [first] + [second];
    NothingAdded(item.arguments);
    NothingAdded("");
    UnderwaySnoc(events, items, first);
    UnderwaySnoc(once, items, second);
    UnderwaySnoc(twice, items, Some(ItemDone(item)));
    assert events + ItemEvents(item) == twice + [Some(ItemDone(item))];
  }

  /** An event that is no text, no call and no end. */
  predicate Quiet(event: Option<Event>) {
    event.Some? ==>
      || event.value.ReasoningEvent?
      || (event.value.ItemDone? && !event.value.item.MessageItem? && !event.value.item.FunctionCall?)
  }

  lemma QuietSnoc(events: seq<Option<Event>>, items: seq<Item>, event: Option<Event>)
    requires Underway(events, items) && Pending(events) == "" && OpenCall(events).None? && Quiet(event)
    ensures Underway(events + [event],
                     if event.Some? && event.value.ItemDone? then items + [event.value.item] else items)
    ensures Pending(events + [event]) == "" && OpenCall(events + [event]).None?
  {
    hide Underway, Pending, OpenCall, ItemText;
    UnderwaySnoc(events, items, event);
  }

  lemma QuietOnes(item: Item)
    requires !item.MessageItem? && !item.FunctionCall?
    ensures Quiet(None) && Quiet(Some(ReasoningEvent)) && Quiet(Some(ItemDone(item)))
  {
  }

  lemma OtherStreams(events: seq<Option<Event>>, items: seq<Item>, item: Item)
    requires Underway(events, items) && Pending(events) == "" && OpenCall(events).None?
    requires !item.MessageItem? && !item.FunctionCall?
    ensures var all := events + ItemEvents(item);
            Underway(all, items + [item]) && Pending(all) == "" && OpenCall(all).None?
  {
    var reasoning: Option<Event> := Some(ReasoningEvent);
    assert ItemEvents(item) == [reasoning, None, Some(ItemDone(item))];
    hide *;
    ThreeMore(events, reasoning, None, Some(ItemDone(item)));
    QuietOnes(item);
    QuietSnoc(events, items, reasoning);
    QuietSnoc(events + [reasoning], items, None);
    QuietSnoc(events + [reasoning] + [None], items, Some(ItemDone(item)));
  }

  lemma ItemStreams(events: seq<Option<Event>>, items: seq<Item>, item: Item)
    requires Underway(events, items) && Pending(events) == "" && OpenCall(events).None?
    ensures var all := events + ItemEvents(item);
            Underway(all, items + [item]) && Pending(all) == "" && OpenCall(all).None?
  {
    hide *;
    if item.MessageItem? {
      MessageStreams(events, items, item);
    } else if item.FunctionCall? {
      CallStreams(events, items, item);
    } else {
      OtherStreams(events, items, item);
    }
  }

  lemma NothingUnderway()
    ensures Underway([], []) && Pending([]) == "" && OpenCall([]).None?
  {
  }

  lemma AnswerEnds(events: seq<Option<Event>>, items: seq<Item>, cutShort: bool)
    requires Underway(events, items) && Pending(events) == "" && OpenCall(events).None?
    ensures var answer := events + [Some(Completed(Some(Response([], cutShort))))];
            && Answers(answer, Response([], cutShort)) && DoneItems(answer) == items
            && FollowsCalls(answer) && OpenCall(answer).None? && SpellsItems(answer) && Pending(answer) == ""
  {
    var last: Option<Event> := Some(Completed(Some(Response([], cutShort))));
    var all := events + [last];
    OneMoreEvent(events, last);
    PendingSnoc(events, last);
    NothingAdded(Pending(events));
    assert all[..|events|] == events && all[..|events| + 1] == all;
    DoneSnoc(all, |events|);
    hide FollowsCalls, OpenCall, DoneItems;
    forall i | 0 <= i < |all| && all[i].Some? && all[i].value.ItemDone? && all[i].value.item.MessageItem?
      ensures ItemText(all[i].value.item) == Pending(all[..i])
    {
      assert all[..i] == events[..i];
    }
  }

  lemma {:induction false} ItemsStream(items: seq<Item>)
    ensures var events := AnswerEvents(items);
            Underway(events, items) && Pending(events) == "" && OpenCall(events).None?
    decreases |items|
  {
    if items == [] {
      NothingUnderway();
      hide Underway, Pending, OpenCall;
      UnderwaySnoc([], [], Some(OtherEvent));
      assert [] + [Some(OtherEvent)] == [Some(OtherEvent)];
    } else {
      hide Underway, Pending, OpenCall, ItemEvents;
      var n := |items| - 1;
      ItemsStream(items[..n]);
      ItemStreams(AnswerEvents(items[..n]), items[..n], items[n]);
      assert items == items[..n] + [items[n]];
    }
  }

  /** Every list of items can be streamed by the protocol, and ends in an answer the results on
      streamed text and calls are about. */
  lemma EveryAnswerStreams(items: seq<Item>, cutShort: bool)
    ensures var answer := AnswerEvents(items) + [Some(Completed(Some(Response([], cutShort))))];
            && Answers(answer, Response([], cutShort)) && DoneItems(answer) == items
            && FollowsCalls(answer) && OpenCall(answer).None? && SpellsItems(answer) && Pending(answer) == ""
  {
    hide *;
    ItemsStream(items);
    AnswerEnds(AnswerEvents(items), items, cutShort);
  }
}
