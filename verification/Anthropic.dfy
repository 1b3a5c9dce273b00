/** The Anthropic Messages adapter: requests out, responses and stream events in. */
module Anthropic {
  import opened Prelude
  import opened OpenAi

  const DEFAULT_MAX_TOKENS := 4096

  datatype Block =
    | TextBlock(text: string)
    | ToolUse(id: string, name: string, input: Json)
    | Image(url: string)
    | ToolResult(toolUseId: string, text: string)
    | OtherBlock(note: Option<string>)

  datatype ProviderMessage = ProviderMessage(role: string, content: seq<Block>)

  datatype ProviderRequest = ProviderRequest(messages: seq<ProviderMessage>, system: Option<string>, maxTokens: int)

  function ParseToolArguments(codec: Codec, arguments: string): Json {
    if arguments == "" then EMPTY_OBJECT
    else
      var parsed := codec.loads(arguments);
      if parsed.Some? then parsed.value else JObject([("_raw_arguments", JString(arguments))])
  }

  // --- Requests --------------------------------------------------------------

  function PartBlocks(part: Part): seq<Block> {
    match part
    case RawText(text) => if text == "" then [] else [TextBlock(text)]
    case TextPart(text) => [TextBlock(text)]
    case ImagePart(url) => [Image(url)]
    case OtherPart(note) => [OtherBlock(note)]
  }

  function ContentBlocks(content: Content): seq<Block> {
    match content
    case NoContent => []
    case Text(text) => if text == "" then [] else [TextBlock(text)]
    case Parts(parts) => Flatten(Map(parts, PartBlocks))
  }

  function PartText(part: Part): seq<string> {
    if part.RawText? || part.TextPart? then [part.text] else []
  }

  function ContentText(content: Content): string {
    match content
    case NoContent => ""
    case Text(text) => text
    case Parts(parts) => Join(Flatten(Map(parts, PartText)), "\n")
  }

  function CallBlock(codec: Codec, call: ToolCall): Block {
    ToolUse(call.id, call.name, ParseToolArguments(codec, call.arguments))
  }

  function CallBlocks(codec: Codec, calls: seq<ToolCall>): seq<Block> {
    Map(calls, (c: ToolCall) => CallBlock(codec, c))
  }

  /** What one conversation message becomes. */
  function MessageFor(codec: Codec, m: ChatMessage): ProviderMessage {
    if m.role == "tool" then ProviderMessage("user", [ToolResult(m.toolCallId, ContentText(m.content))])
    else if m.role == "assistant" then
      ProviderMessage("assistant", ContentBlocks(m.content) + CallBlocks(codec, m.toolCalls))
    else ProviderMessage("user", ContentBlocks(m.content))
  }

  /** The text a message contributes to the `system` field. */
  function SystemText(m: ChatMessage): seq<string> {
    if IsSystemRole(m.role) && ContentText(m.content) != "" then [ContentText(m.content)] else []
  }

  function SystemTexts(messages: seq<ChatMessage>): seq<string> {
    Flatten(Map(messages, SystemText))
  }

  function Conversation(messages: seq<ChatMessage>): seq<ChatMessage> {
    Filter(messages, (m: ChatMessage) => !IsSystemRole(m.role))
  }

  method ContentToBlocks(content: Content) returns (blocks: seq<Block>)
    ensures blocks == ContentBlocks(content)
  {
    match content {
      case NoContent => blocks := [];
      case Text(text) => blocks := if text == "" then [] else [TextBlock(text)];
      case Parts(parts) =>
        blocks := [];
        for i := 0 to |parts|
          invariant blocks == Flatten(Map(parts[..i], PartBlocks))
        {
          match parts[i] {
            case RawText(text) =>
              if text != "" {
                blocks := blocks + [TextBlock(text)];
              }
            case TextPart(text) => blocks := blocks + [TextBlock(text)];
            case ImagePart(url) => blocks := blocks + [Image(url)];
            case OtherPart(note) => blocks := blocks + [OtherBlock(note)];
          }
          FlattenMapSnoc(parts, i, PartBlocks);
        }
        assert parts[..|parts|] == parts;
    }
  }

  method AssistantToolCallsToBlocks(codec: Codec, calls: seq<ToolCall>) returns (blocks: seq<Block>)
    ensures blocks == CallBlocks(codec, calls)
  {
    blocks := [];
    for i := 0 to |calls|
      invariant blocks == CallBlocks(codec, calls[..i])
    {
      blocks := blocks + [ToolUse(calls[i].id, calls[i].name, ParseToolArguments(codec, calls[i].arguments))];
    }
    assert calls[..|calls|] == calls;
  }

  method MapMessage(codec: Codec, message: ChatMessage) returns (turn: ProviderMessage)
    requires !IsSystemRole(message.role)
    ensures turn == MessageFor(codec, message)
  {
    if message.role == "tool" {
      return ProviderMessage("user", [ToolResult(message.toolCallId, ContentText(message.content))]);
    }
    var blocks := ContentToBlocks(message.content);
    if message.role == "assistant" && message.toolCalls != [] {
      var calls := AssistantToolCallsToBlocks(codec, message.toolCalls);
      blocks := blocks + calls;
    }
    turn := ProviderMessage(if message.role == "assistant" then "assistant" else "user", blocks);
  }

  /** Hoist the system messages, map the others one by one. Nothing is lost or reordered:
      `messages` is the conversation, message for message, and `system` is every non-empty
      system text, in order. */
  method ToProviderRequest(codec: Codec, messages: seq<ChatMessage>, maxTokens: Option<int>)
    returns (req: ProviderRequest)
    ensures req.messages == Map(Conversation(messages), (m: ChatMessage) => MessageFor(codec, m))
    ensures req.system == if SystemTexts(messages) == [] then None else Some(Join(SystemTexts(messages), "\n\n"))
    ensures HasInTurn(TextOrEmpty(req.system), Flatten(Map(messages, SystemPieces)))
    ensures req.maxTokens == if maxTokens.Some? then maxTokens.value else 4096
  {
    var systemTexts: seq<string> := [];
    var mapped: seq<ProviderMessage> := [];
    assert SystemTexts(messages[..0]) == [] && Conversation(messages[..0]) == [];
    hide ContentText, MessageFor, Flatten;
    for i := 0 to |messages|
      invariant systemTexts == SystemTexts(messages[..i])
      invariant mapped == Map(Conversation(messages[..i]), (m: ChatMessage) => MessageFor(codec, m))
    {
      var message := messages[i];
      FlattenMapSnoc(messages, i, SystemText);
      OneMoreTurn(codec, messages, i);
      if IsSystemRole(message.role) {
        var text := ContentText(message.content);
        if text != "" {
          systemTexts := systemTexts + [text];
        }
      } else {
        var turn := MapMessage(codec, message);
        mapped := mapped + [turn];
      }
    }
    assert messages[..|messages|] == messages;
    SystemHas(messages);
    req := ProviderRequest(mapped, if systemTexts == [] then None else Some(Join(systemTexts, "\n\n")),
                           if maxTokens.Some? then maxTokens.value else DEFAULT_MAX_TOKENS);
  }

  lemma OneMoreTurn(codec: Codec, messages: seq<ChatMessage>, i: nat)
    requires i < |messages|
    ensures Map(Conversation(messages[..i + 1]), (m: ChatMessage) => MessageFor(codec, m))
            == Map(Conversation(messages[..i]), (m: ChatMessage) => MessageFor(codec, m))
               + (if IsSystemRole(messages[i].role) then [] else [MessageFor(codec, messages[i])])
  {
    FilterSnoc(messages, i, (m: ChatMessage) => !IsSystemRole(m.role));
    hide Filter, MessageFor;
  }

  // --- Responses -------------------------------------------------------------

  function TextOf(blocks: seq<Block>): string {
    if blocks == [] then ""
    else
      var last := blocks[|blocks| - 1];
      TextOf(blocks[..|blocks| - 1]) + if last.TextBlock? then last.text else ""
  }

  predicate HasText(blocks: seq<Block>) {
    exists b | b in blocks :: b.TextBlock?
  }

  function CallsOf(codec: Codec, blocks: seq<Block>): seq<ToolCall> {
    if blocks == [] then []
    else
      var last := blocks[|blocks| - 1];
      CallsOf(codec, blocks[..|blocks| - 1])
        + if last.ToolUse? then [ToolCall(last.id, last.name, codec.dumps(last.input))] else []
  }

  function MapStopReason(stopReason: Option<string>): Option<string> {
    match stopReason
    case None => None
    case Some(reason) =>
      Some(if reason == "max_tokens" then "length" else if reason == "tool_use" then "tool_calls" else "stop")
  }

  /** Which stop reasons a client hears as which finish reason. */
  lemma FinishReasons(stopReason: Option<string>)
    ensures var finish := MapStopReason(stopReason);
            && (finish == None <==> stopReason == None)
            && (finish == Some("length") <==> stopReason == Some("max_tokens"))
            && (finish == Some("tool_calls") <==> stopReason == Some("tool_use"))
            && (finish.Some? ==> finish.value in {"length", "tool_calls", "stop"})
  {
  }

  method FromProviderResponse(codec: Codec, blocks: seq<Block>, stopReason: Option<string>)
    returns (turn: AssistantTurn)
    ensures turn.content == if HasText(blocks) then Some(TextOf(blocks)) else None
    ensures turn.toolCalls == CallsOf(codec, blocks)
    ensures turn.finish == MapStopReason(stopReason)
  {
    var text, hasText := "", false;
    var calls: seq<ToolCall> := [];
    for i := 0 to |blocks|
      invariant text == TextOf(blocks[..i]) && hasText == HasText(blocks[..i])
      invariant calls == CallsOf(codec, blocks[..i])
    {
      assert blocks[..i + 1][..i] == blocks[..i];
      assert forall b :: b in blocks[..i + 1] <==> b in blocks[..i] || b == blocks[i];
      match blocks[i] {
        case TextBlock(t) => text, hasText := text + t, true;
        case ToolUse(id, name, input) => calls := calls + [ToolCall(id, name, codec.dumps(input))];
        case _ =>
      }
    }
    assert blocks[..|blocks|] == blocks;
    turn := AssistantTurn(if hasText then Some(text) else None, calls, MapStopReason(stopReason));
  }

  // --- The assistant turn's round trip ---------------------------------------

  lemma {:induction false} CallsBack(codec: Codec, head: seq<Block>, calls: seq<ToolCall>)
    requires CallsOf(codec, head) == []
    ensures CallsOf(codec, head + CallBlocks(codec, calls))
            == Map(calls, (c: ToolCall) => c.(arguments := codec.dumps(ParseToolArguments(codec, c.arguments))))
    ensures TextOf(head + CallBlocks(codec, calls)) == TextOf(head)
    decreases |calls|
  {
    if calls == [] {
      assert head + CallBlocks(codec, calls) == head;
    } else {
      var n := |calls| - 1;
      var all := head + CallBlocks(codec, calls);
      CallsBack(codec, head, calls[..n]);
      assert all[..|all| - 1] == head + CallBlocks(codec, calls[..n]);
    }
  }

  /** The part reaches the provider as text; a raw empty string does not. */
  predicate Speaks(part: Part) {
    part.TextPart? || (part.RawText? && part.text != "")
  }

  predicate SpeaksIn(content: Content) {
    match content
    case NoContent => false
    case Text(text) => text != ""
    case Parts(parts) => exists p | p in parts :: Speaks(p)
  }

  /** The images of some blocks, in order. */
  function ImagesOf(blocks: seq<Block>): seq<string> {
    if blocks == [] then []
    else
      var last := blocks[|blocks| - 1];
      ImagesOf(blocks[..|blocks| - 1]) + if last.Image? then [last.url] else []
  }

  lemma OneMoreBlock(codec: Codec, blocks: seq<Block>, b: Block)
    ensures TextOf(blocks + [b]) == TextOf(blocks) + if b.TextBlock? then b.text else ""
    ensures CallsOf(codec, blocks + [b])
            == CallsOf(codec, blocks) + if b.ToolUse? then [ToolCall(b.id, b.name, codec.dumps(b.input))] else []
    ensures HasText(blocks + [b]) <==> HasText(blocks) || b.TextBlock?
    ensures ImagesOf(blocks + [b]) == ImagesOf(blocks) + if b.Image? then [b.url] else []
  {
    assert (blocks + [b])[..|blocks|] == blocks;
    assert forall c :: c in blocks + [b] <==> c in blocks || c == b;
  }

  lemma OneMorePart(codec: Codec, blocks: seq<Block>, part: Part)
    ensures TextOf(blocks + PartBlocks(part))
            == TextOf(blocks) + if part.RawText? || part.TextPart? then part.text else ""
    ensures ImagesOf(blocks + PartBlocks(part)) == ImagesOf(blocks) + if part.ImagePart? then [part.url] else []
    ensures CallsOf(codec, blocks + PartBlocks(part)) == CallsOf(codec, blocks)
    ensures HasText(blocks + PartBlocks(part)) <==> HasText(blocks) || Speaks(part)
  {
    var more := PartBlocks(part);
    NothingAdded(blocks);
    NothingAdded(TextOf(blocks));
    NothingAdded(ImagesOf(blocks));
    if more != [] {
      OneMoreBlock(codec, blocks, more[0]);
    }
    hide TextOf, CallsOf, HasText, ImagesOf;
  }

  lemma {:induction false} PartsKept(codec: Codec, parts: seq<Part>)
    ensures var blocks := Flatten(Map(parts, PartBlocks));
            && CallsOf(codec, blocks) == [] && TextOf(blocks) == Flatten(TextParts(parts))
            && ImagesOf(blocks) == ImageParts(parts)
            && (HasText(blocks) <==> exists p | p in parts :: Speaks(p))
    decreases |parts|
  {
    if parts != [] {
      var n := |parts| - 1;
      assert parts[..n + 1] == parts;
      assert forall p :: p in parts <==> p in parts[..n] || p == parts[n];
      PartsKept(codec, parts[..n]);
      FlattenMapSnoc(parts, n, PartBlocks);
      FlattenSnoc(TextParts(parts[..n]), if parts[n].RawText? || parts[n].TextPart? then parts[n].text else "");
      OneMorePart(codec, Flatten(Map(parts[..n], PartBlocks)), parts[n]);
      NothingAdded(TextParts(parts[..n]));
      NothingAdded(Flatten(TextParts(parts[..n])));
      hide Flatten, TextOf, CallsOf, HasText, ImagesOf, Map, PartBlocks, Speaks;
    }
  }

  lemma OneTextKept(codec: Codec, text: string)
    ensures var blocks := ContentBlocks(Text(text));
            && CallsOf(codec, blocks) == [] && TextOf(blocks) == Flatten([text]) && ImagesOf(blocks) == []
            && HasText(blocks) == (text != "")
  {
    FlattenSnoc([], text);
    FlattenNone<char>();
    NothingAdded(text);
    if text != "" {
      OneMoreBlock(codec, [], TextBlock(text));
      NothingAdded([TextBlock(text)]);
    }
    assert [] + [text] == [text];
    hide Flatten;
  }

  /** The blocks of a content say its texts and show its images, in order. */
  lemma ContentKept(codec: Codec, content: Content)
    ensures var blocks := ContentBlocks(content);
            && CallsOf(codec, blocks) == [] && TextOf(blocks) == Flatten(TextsIn(content))
            && ImagesOf(blocks) == ImagesIn(content) && HasText(blocks) == SpeaksIn(content)
  {
    match content {
      case NoContent =>
      case Text(text) => OneTextKept(codec, text);
      case Parts(parts) =>
        PartsKept(codec, parts);
        hide Flatten, TextOf, CallsOf, HasText, ImagesOf, Map, PartBlocks, Speaks, TextParts, ImageParts;
    }
  }

  /** An assistant turn sent to the provider and read back keeps what its content says, and
      its tool calls in order with their ids, names and argument values. The argument text
      comes back canonical, and canonical text comes back as it is. */
  lemma TurnRoundTrip(codec: Codec, m: ChatMessage)
    requires Lawful(codec) && m.role == "assistant"
    ensures var blocks := MessageFor(codec, m).content;
            var calls := CallsOf(codec, blocks);
            && TextOf(blocks) == Flatten(TextsIn(m.content)) && HasText(blocks) == SpeaksIn(m.content)
            && |calls| == |m.toolCalls|
            && (forall i | 0 <= i < |calls| ::
                  && calls[i].id == m.toolCalls[i].id && calls[i].name == m.toolCalls[i].name
                  && ParseToolArguments(codec, calls[i].arguments)
                     == ParseToolArguments(codec, m.toolCalls[i].arguments)
                  && ((exists v :: m.toolCalls[i].arguments == codec.dumps(v)) ==> calls[i] == m.toolCalls[i]))
  {
    var head := ContentBlocks(m.content);
    ContentKept(codec, m.content);
    CallsBack(codec, head, m.toolCalls);
    TextIsAhead(codec, head, m.toolCalls);
    hide ContentBlocks, TextsIn, SpeaksIn, TextOf, CallsOf, HasText, Flatten;
    forall i | 0 <= i < |m.toolCalls|
      ensures var back := codec.dumps(ParseToolArguments(codec, m.toolCalls[i].arguments));
              && ParseToolArguments(codec, back) == ParseToolArguments(codec, m.toolCalls[i].arguments)
              && ((exists v :: m.toolCalls[i].arguments == codec.dumps(v)) ==> back == m.toolCalls[i].arguments)
    {
      Canonical(codec, m.toolCalls[i].arguments);
    }
  }

  lemma TextIsAhead(codec: Codec, head: seq<Block>, calls: seq<ToolCall>)
    ensures HasText(head + CallBlocks(codec, calls)) == HasText(head)
  {
    var tail := CallBlocks(codec, calls);
    assert forall b :: b in head + tail <==> b in head || b in tail;
  }

  lemma Canonical(codec: Codec, arguments: string)
    requires Lawful(codec)
    ensures var back := codec.dumps(ParseToolArguments(codec, arguments));
            && ParseToolArguments(codec, back) == ParseToolArguments(codec, arguments)
            && ((exists v :: arguments == codec.dumps(v)) ==> back == arguments)
  {
    var v := ParseToolArguments(codec, arguments);
    assert codec.loads(codec.dumps(v)) == Some(v);
    if w :| arguments == codec.dumps(w) {
      assert codec.loads(codec.dumps(w)) == Some(w);
    }
  }

  /** The tool calls of an assistant turn are its last blocks, in order, each with its id, its
      name and the value its arguments spell: an empty object for none, and for text that is
      not JSON an object that keeps the text. */
  lemma CallsSent(codec: Codec, m: ChatMessage, i: nat)
    requires m.role == "assistant" && i < |m.toolCalls|
    ensures var blocks, call := MessageFor(codec, m).content, m.toolCalls[i];
            && |blocks| >= |m.toolCalls|
            && var block := blocks[|blocks| - |m.toolCalls| + i];
               && block.ToolUse? && block.id == call.id && block.name == call.name
               && (call.arguments == "" ==> block.input == JObject([]))
               && (call.arguments != "" && codec.loads(call.arguments).Some? ==>
                     codec.loads(call.arguments) == Some(block.input))
               && (call.arguments != "" && codec.loads(call.arguments).None? ==>
                     block.input == JObject([("_raw_arguments", JString(call.arguments))]))
  {
  }

  // --- What a request says -----------------------------------------------------

  lemma {:induction false} PartTexts(parts: seq<Part>)
    ensures Flatten(Map(parts, PartText)) == TextParts(parts)
    decreases |parts|
  {
    if parts != [] {
      var n := |parts| - 1;
      assert parts[..n + 1] == parts;
      PartTexts(parts[..n]);
      FlattenMapSnoc(parts, n, PartText);
    }
  }

  /** A content's text is its texts, line by line. */
  lemma ContentTextIs(content: Content)
    ensures ContentText(content) == Join(TextsIn(content), "\n")
    ensures HasInTurn(ContentText(content), TextsIn(content))
    ensures content.Text? ==> ContentText(content) == content.text
  {
    var texts := TextsIn(content);
    if content.Parts? {
      PartTexts(content.parts);
    } else if content.Text? {
      JoinOne(content.text, "\n");
    }
    JoinedHas(texts, "\n");
  }

  /** The texts a system or developer message says. */
  function SystemPieces(m: ChatMessage): seq<string> {
    if m.role == "system" || m.role == "developer" then TextsIn(m.content) else []
  }

  /** The system field has every text of every system and developer message, in order. */
  lemma {:induction false} SystemHas(messages: seq<ChatMessage>)
    ensures HasInTurn(Join(SystemTexts(messages), "\n\n"), Flatten(Map(messages, SystemPieces)))
    decreases |messages|
  {
    if messages != [] {
      var n := |messages| - 1;
      var m := messages[n];
      assert messages[..n + 1] == messages;
      SystemHas(messages[..n]);
      FlattenMapSnoc(messages, n, SystemText);
      FlattenMapSnoc(messages, n, SystemPieces);
      ContentTextIs(m.content);
      OneMoreText(SystemTexts(messages[..n]), SystemText(m), "\n\n", Flatten(Map(messages[..n], SystemPieces)),
                  SystemPieces(m), ContentText(m.content));
    }
  }

  /** What a tool's, a user's and an assistant's message becomes: a user turn with the result
      under its call's id, a user turn, and an assistant turn, with all their texts and
      images. */
  lemma TurnKept(codec: Codec, m: ChatMessage)
    ensures var turn := MessageFor(codec, m);
            && (m.role == "tool" ==>
                  && turn.role == "user" && |turn.content| == 1 && turn.content[0].ToolResult?
                  && turn.content[0].toolUseId == m.toolCallId
                  && turn.content[0].text == Join(TextsIn(m.content), "\n")
                  && HasInTurn(turn.content[0].text, TextsIn(m.content)))
            && (m.role != "tool" ==>
                  && turn.role == (if m.role == "assistant" then "assistant" else "user")
                  && TextOf(turn.content) == Flatten(TextsIn(m.content))
                  && ImagesOf(turn.content) == ImagesIn(m.content))
  {
    ContentTextIs(m.content);
    ContentKept(codec, m.content);
    hide TextOf, ImagesOf, ContentText, TextsIn, ImagesIn, ContentBlocks, HasInTurn;
    if m.role == "assistant" {
      CallsBack(codec, ContentBlocks(m.content), m.toolCalls);
      CallsShowNothing(codec, ContentBlocks(m.content), m.toolCalls);
    }
  }

  lemma {:induction false} CallsShowNothing(codec: Codec, head: seq<Block>, calls: seq<ToolCall>)
    ensures ImagesOf(head + CallBlocks(codec, calls)) == ImagesOf(head)
    decreases |calls|
  {
    if calls == [] {
      NothingAdded(head);
    } else {
      var n := |calls| - 1;
      var all := head + CallBlocks(codec, calls);
      CallsShowNothing(codec, head, calls[..n]);
      assert all[..|all| - 1] == head + CallBlocks(codec, calls[..n]);
    }
  }

  /** Every message that is not the system's or the developer's has its turn, and no other. */
  lemma TurnsAreMessages(messages: seq<ChatMessage>, m: ChatMessage)
    ensures m in Conversation(messages) <==> m in messages && m.role != "system" && m.role != "developer"
  {
  }

  // --- Streaming -------------------------------------------------------------

  datatype StartBlock =
    | StartText(text: string)
    | StartTool(id: string, name: string, input: Json)
    | StartOther

  datatype Event =
    | MessageStart
    | BlockStart(index: nat, block: StartBlock)
    | TextDelta(index: nat, text: string)
    | InputJsonDelta(index: nat, partialJson: string)
    | OtherDelta(index: nat)
    | BlockStop(index: nat)
    | MessageDelta(stopReason: Option<string>, reportsUsage: bool)
    | OtherEvent

  /** One event to at most one chunk. */
  function FromStreamEvent(event: Event): Option<Chunk> {
    match event
    case MessageStart => Some(Chunk(RoleDelta, None))
    case TextDelta(_, text) => Some(Chunk(ContentDelta(text), None))
    case InputJsonDelta(index, partialJson) => Some(Chunk(ToolArguments(index, partialJson), None))
    case BlockStart(index, StartTool(id, name, _)) => Some(Chunk(ToolStart(index, id, name, ""), None))
    case MessageDelta(stopReason, reportsUsage) =>
      var finish := MapStopReason(stopReason);
      if finish.None? && !reportsUsage then None else Some(Chunk(EmptyDelta, finish))
    case _ => None
  }

  /** The client hears of a message's start, of every text and argument fragment, of every
      tool block's start, and of a message event that says why the message stopped or what it
      used; of nothing else. */
  lemma ClientHears(e: Event)
    ensures FromStreamEvent(e).Some?
       <==> match e
            case MessageStart => true
            case BlockStart(_, block) => block.StartTool?
            case TextDelta(_, _) => true
            case InputJsonDelta(_, _) => true
            case MessageDelta(stopReason, reportsUsage) => stopReason.Some? || reportsUsage
            case _ => false
    ensures e.MessageStart? ==> FromStreamEvent(e) == Some(Chunk(RoleDelta, None))
  {
  }

  /** A content block as its events build it up. */
  datatype OpenBlock =
    | OpenText(initial: string, appended: string)
    | OpenTool(id: string, name: string, initialInput: Json, partialJson: string)
    | OpenOther

  datatype Partial = Partial(blocks: seq<OpenBlock>, stopReason: Option<string>)

  function Open(block: StartBlock): OpenBlock {
    match block
    case StartText(text) => OpenText(text, "")
    case StartTool(id, name, input) => OpenTool(id, name, input, "")
    case StartOther => OpenOther
  }

  /** The protocol: blocks start in index order, text goes to the newest block, and argument
      fragments go to a tool block. */
  predicate Follows(state: Partial, event: Event) {
    match event
    case BlockStart(index, _) => index == |state.blocks|
    case TextDelta(index, _) => index + 1 == |state.blocks| && state.blocks[index].OpenText?
    case InputJsonDelta(index, _) => index < |state.blocks| && state.blocks[index].OpenTool?
    case _ => true
  }

  function Advance(state: Partial, event: Event): Partial
    requires Follows(state, event)
  {
    match event
    case BlockStart(_, block) => state.(blocks := state.blocks + [Open(block)])
    case TextDelta(index, text) =>
      state.(blocks := state.blocks[index := state.blocks[index].(appended := state.blocks[index].appended + text)])
    case InputJsonDelta(index, partialJson) =>
      var block := state.blocks[index];
      state.(blocks := state.blocks[index := block.(partialJson := block.partialJson + partialJson)])
    case MessageDelta(stopReason, _) => if stopReason.Some? then state.(stopReason := stopReason) else state
    case _ => state
  }

  /** The message a stream spells out, event by event; None when it breaks the protocol. */
  function Accumulate(events: seq<Event>): Option<Partial> {
    if events == [] then Some(Partial([], None))
    else
      var before := Accumulate(events[..|events| - 1]);
      var event := events[|events| - 1];
      if before.Some? && Follows(before.value, event) then Some(Advance(before.value, event)) else None
  }

  /** One way to stream a block: its start, what is appended to it in one piece, its stop. */
  function BlockEvents(block: OpenBlock, index: nat): seq<Event> {
    match block
    case OpenText(initial, appended) =>
      [BlockStart(index, StartText(initial)), TextDelta(index, appended), BlockStop(index)]
    case OpenTool(id, name, input, partialJson) =>
      [BlockStart(index, StartTool(id, name, input)), InputJsonDelta(index, partialJson), BlockStop(index)]
    case OpenOther => [BlockStart(index, StartOther), OtherDelta(index), BlockStop(index)]
  }

  function MessageEvents(blocks: seq<OpenBlock>): seq<Event> {
    if blocks == [] then [MessageStart]
    else
      var n := |blocks| - 1;
      MessageEvents(blocks[..n]) + BlockEvents(blocks[n], n)
  }

  lemma OneMoreEvent(events: seq<Event>, event: Event)
    ensures Accumulate(events + [event])
            == if Accumulate(events).Some? && Follows(Accumulate(events).value, event) then
                 Some(Advance(Accumulate(events).value, event))
               else None
  {
    assert (events + [event])[..|events|] == events;
  }

  /** A block as its start event leaves it. */
  function Started(block: OpenBlock): OpenBlock {
    match block
    case OpenText(initial, _) => OpenText(initial, "")
    case OpenTool(id, name, input, _) => OpenTool(id, name, input, "")
    case OpenOther => OpenOther
  }

  lemma StartsAndFills(blocks: seq<OpenBlock>, block: OpenBlock)
    ensures var more := BlockEvents(block, |blocks|);
            var state, started := Partial(blocks, None), Partial(blocks + [Started(block)], None);
            && |more| == 3
            && Follows(state, more[0]) && Advance(state, more[0]) == started
            && Follows(started, more[1]) && Advance(started, more[1]) == Partial(blocks + [block], None)
            && Follows(Partial(blocks + [block], None), more[2])
            && Advance(Partial(blocks + [block], None), more[2]) == Partial(blocks + [block], None)
  {
    var n := |blocks|;
    var begun := blocks + [Started(block)];
    assert begun[n := block] == blocks + [block];
    match block {
      case OpenText(_, appended) => NothingAdded(appended);
      case OpenTool(_, _, _, partialJson) => NothingAdded(partialJson);
      case OpenOther => assert begun == blocks + [block];
    }
  }

  lemma BlockStreams(events: seq<Event>, blocks: seq<OpenBlock>, block: OpenBlock)
    requires Accumulate(events) == Some(Partial(blocks, None))
    ensures Accumulate(events + BlockEvents(block, |blocks|)) == Some(Partial(blocks + [block], None))
  {
    var more := BlockEvents(block, |blocks|);
    hide Accumulate, BlockEvents, Follows, Advance, Started;
    StartsAndFills(blocks, block);
    OneMoreEvent(events, more[0]);
    OneMoreEvent(events + [more[0]], more[1]);
    OneMoreEvent(events + [more[0]] + [more[1]], more[2]);
    assert events + more == events + [more[0]] + [more[1]] + [more[2]];
  }

  lemma {:induction false} BlocksStream(blocks: seq<OpenBlock>)
    ensures Accumulate(MessageEvents(blocks)) == Some(Partial(blocks, None))
    decreases |blocks|
  {
    if blocks == [] {
      OneMoreEvent([], MessageStart);
      assert [] + [MessageStart] == [MessageStart];
    } else {
      hide Accumulate, BlockEvents;
      var n := |blocks| - 1;
      BlocksStream(blocks[..n]);
      BlockStreams(MessageEvents(blocks[..n]), blocks[..n], blocks[n]);
      assert blocks == blocks[..n] + [blocks[n]];
    }
  }

  /** Every message can be streamed by the protocol, whatever its blocks, and with any stop
      reason at its end. */
  lemma EveryMessageStreams(blocks: seq<OpenBlock>, stopReason: Option<string>)
    ensures Accumulate(MessageEvents(blocks) + [MessageDelta(stopReason, true)]) == Some(Partial(blocks, stopReason))
  {
    BlocksStream(blocks);
    hide Accumulate, MessageEvents;
    OneMoreEvent(MessageEvents(blocks), MessageDelta(stopReason, true));
  }

  /** A tool block's input: its initial input unless fragments arrived. */
  function ToolInput(codec: Codec, block: OpenBlock): Option<Json>
    requires block.OpenTool?
  {
    if block.partialJson == "" then Some(block.initialInput) else codec.loads(block.partialJson)
  }

  predicate Closes(codec: Codec, block: OpenBlock) {
    block.OpenTool? ==> ToolInput(codec, block).Some?
  }

  function Close(codec: Codec, block: OpenBlock): Block
    requires Closes(codec, block)
  {
    match block
    case OpenText(initial, appended) => TextBlock(initial + appended)
    case OpenTool(id, name, _, _) => ToolUse(id, name, ToolInput(codec, block).value)
    case OpenOther => OtherBlock(None)
  }

  /** Every tool block's fragments spell JSON. */
  ghost predicate Complete(codec: Codec, blocks: seq<OpenBlock>) {
    forall b | b in blocks :: Closes(codec, b)
  }

  /** The buffered message with the same content. */
  function Message(codec: Codec, blocks: seq<OpenBlock>): seq<Block>
    requires Complete(codec, blocks)
  {
    seq(|blocks|, i requires 0 <= i < |blocks| => assert blocks[i] in blocks; Close(codec, blocks[i]))
  }

  /** The text that arrived in deltas. */
  function DeltaText(blocks: seq<OpenBlock>): string {
    if blocks == [] then ""
    else
      var last := blocks[|blocks| - 1];
      DeltaText(blocks[..|blocks| - 1]) + if last.OpenText? then last.appended else ""
  }

  function OpenCalls(blocks: seq<OpenBlock>): seq<ToolCall> {
    if blocks == [] then []
    else
      var last := blocks[|blocks| - 1];
      OpenCalls(blocks[..|blocks| - 1])
        + if last.OpenTool? then [ToolCall(last.id, last.name, last.partialJson)] else []
  }

  /** What the client holds after some events, in terms of the blocks so far. */
  ghost predicate Tracks(view: ClientView, state: Partial) {
    && view.text == DeltaText(state.blocks)
    && view.finish == MapStopReason(state.stopReason)
    && (forall i: nat :: TracksAt(view.tools, state.blocks, i))
  }

  predicate TracksAt(tools: map<nat, ToolCall>, blocks: seq<OpenBlock>, i: nat) {
    if i < |blocks| && blocks[i].OpenTool? then
      i in tools && tools[i] == ToolCall(blocks[i].id, blocks[i].name, blocks[i].partialJson)
    else i !in tools
  }

  lemma LastBlockText(blocks: seq<OpenBlock>, text: string)
    requires blocks != [] && blocks[|blocks| - 1].OpenText?
    ensures var n := |blocks| - 1;
            DeltaText(blocks[n := blocks[n].(appended := blocks[n].appended + text)]) == DeltaText(blocks) + text
  {
    var n := |blocks| - 1;
    var after := blocks[n := blocks[n].(appended := blocks[n].appended + text)];
    assert after[..n] == blocks[..n];
  }

  lemma {:induction false} SameTexts(a: seq<OpenBlock>, b: seq<OpenBlock>)
    requires |a| == |b| && forall i | 0 <= i < |a| :: a[i] == b[i] || (a[i].OpenTool? && b[i].OpenTool?)
    ensures DeltaText(a) == DeltaText(b)
    decreases |a|
  {
    if a != [] {
      SameTexts(a[..|a| - 1], b[..|b| - 1]);
    }
  }

  lemma TracksStart(view: ClientView, state: Partial, event: Event)
    requires Tracks(view, state) && Follows(state, event) && event.BlockStart?
    ensures Tracks(FoldEvent(view, FromStreamEvent(event)), Advance(state, event))
  {
    var view', state' := FoldEvent(view, FromStreamEvent(event)), Advance(state, event);
    var n, block := event.index, event.block;
    assert TracksAt(view.tools, state.blocks, n);
    assert "" + "" == "";
    assert view'.tools == if block.StartTool? then view.tools[n := ToolCall(block.id, block.name, "")] else view.tools;
    assert view'.text == view.text && view'.finish == view.finish;
    assert state' == Partial(state.blocks + [Open(block)], state.stopReason);
    AddedBlockText(state.blocks, block);
    hide DeltaText, FoldEvent, FromStreamEvent, Advance, MapStopReason;
    forall i: nat
      ensures TracksAt(view'.tools, state'.blocks, i)
    {
      assert TracksAt(view.tools, state.blocks, i);
    }
  }

  lemma AddedBlockText(blocks: seq<OpenBlock>, block: StartBlock)
    ensures DeltaText(blocks + [Open(block)]) == DeltaText(blocks)
  {
    assert (blocks + [Open(block)])[..|blocks|] == blocks;
  }

  lemma TracksText(view: ClientView, state: Partial, event: Event)
    requires Tracks(view, state) && Follows(state, event) && event.TextDelta?
    ensures Tracks(FoldEvent(view, FromStreamEvent(event)), Advance(state, event))
  {
    LastBlockText(state.blocks, event.text);
    hide DeltaText;
    var view', state' := FoldEvent(view, FromStreamEvent(event)), Advance(state, event);
    forall i: nat
      ensures TracksAt(view'.tools, state'.blocks, i)
    {
      assert TracksAt(view.tools, state.blocks, i);
    }
  }

  lemma TracksInput(view: ClientView, state: Partial, event: Event)
    requires Tracks(view, state) && Follows(state, event) && event.InputJsonDelta?
    ensures Tracks(FoldEvent(view, FromStreamEvent(event)), Advance(state, event))
  {
    SameTexts(state.blocks, Advance(state, event).blocks);
    hide DeltaText;
    var view', state' := FoldEvent(view, FromStreamEvent(event)), Advance(state, event);
    forall i: nat
      ensures TracksAt(view'.tools, state'.blocks, i)
    {
      assert TracksAt(view.tools, state.blocks, i);
    }
  }

  lemma TracksStep(view: ClientView, state: Partial, event: Event)
    requires Tracks(view, state) && Follows(state, event)
    ensures Tracks(FoldEvent(view, FromStreamEvent(event)), Advance(state, event))
  {
    match event {
      case BlockStart(_, _) => TracksStart(view, state, event);
      case TextDelta(_, _) => TracksText(view, state, event);
      case InputJsonDelta(_, _) => TracksInput(view, state, event);
      case _ =>
    }
  }

  lemma {:induction false} ClientTracks(events: seq<Event>)
    requires Accumulate(events).Some?
    ensures Tracks(FoldStream(events, FromStreamEvent), Accumulate(events).value)
    decreases |events|
  {
    if events != [] {
      var n := |events| - 1;
      ClientTracks(events[..n]);
      TracksStep(FoldStream(events[..n], FromStreamEvent), Accumulate(events[..n]).value, events[n]);
    }
  }

  lemma {:induction false} ToolsInOrder(view: ClientView, state: Partial, n: nat)
    requires Tracks(view, state) && n <= |state.blocks|
    ensures InOrder(view.tools, n) == OpenCalls(state.blocks[..n])
  {
    if n > 0 {
      ToolsInOrder(view, state, n - 1);
      assert state.blocks[..n][..n - 1] == state.blocks[..n - 1];
      assert TracksAt(view.tools, state.blocks, n - 1);
    }
  }

  /** Text that came with a block's start event and so never reached the client. */
  function InitialText(blocks: seq<OpenBlock>): nat {
    if blocks == [] then 0
    else
      var last := blocks[|blocks| - 1];
      InitialText(blocks[..|blocks| - 1]) + if last.OpenText? then |last.initial| else 0
  }

  lemma {:induction false} MessageText(codec: Codec, blocks: seq<OpenBlock>)
    requires Complete(codec, blocks)
    ensures |TextOf(Message(codec, blocks))| == |DeltaText(blocks)| + InitialText(blocks)
    ensures InitialText(blocks) == 0 ==> TextOf(Message(codec, blocks)) == DeltaText(blocks)
    decreases |blocks|
  {
    if blocks != [] {
      var n := |blocks| - 1;
      var message := Message(codec, blocks);
      MessageText(codec, blocks[..n]);
      assert message[..n] == Message(codec, blocks[..n]);
      assert message[n] == Close(codec, blocks[n]);
      hide Message, Complete, ToolInput;
    }
  }

  lemma {:induction false} NoInitialText(blocks: seq<OpenBlock>)
    ensures InitialText(blocks) == 0 <==> forall b | b in blocks :: b.OpenText? ==> b.initial == ""
    decreases |blocks|
  {
    if blocks != [] {
      var n := |blocks| - 1;
      NoInitialText(blocks[..n]);
      assert forall b :: b in blocks <==> b in blocks[..n] || b == blocks[n];
    }
  }

  /** Which open blocks the message's tool calls come from. */
  function ToolBlocks(blocks: seq<OpenBlock>): seq<OpenBlock> {
    if blocks == [] then []
    else
      var last := blocks[|blocks| - 1];
      ToolBlocks(blocks[..|blocks| - 1]) + if last.OpenTool? then [last] else []
  }

  /** The client sees a tool's input as the message has it unless the input came whole with
      the start event. */
  predicate InputStreamed(block: OpenBlock) {
    block.OpenTool? && (block.partialJson != "" || block.initialInput == EMPTY_OBJECT)
  }

  lemma {:induction false} MessageCalls(codec: Codec, blocks: seq<OpenBlock>)
    requires Lawful(codec) && Complete(codec, blocks)
    ensures var streamed, buffered := OpenCalls(blocks), CallsOf(codec, Message(codec, blocks));
            var tools := ToolBlocks(blocks);
            && |streamed| == |buffered| == |tools|
            && forall i | 0 <= i < |streamed| ::
                 && streamed[i].id == buffered[i].id && streamed[i].name == buffered[i].name
                 && (ParseToolArguments(codec, streamed[i].arguments)
                     == ParseToolArguments(codec, buffered[i].arguments)
                     <==> InputStreamed(tools[i]))
    decreases |blocks|
  {
    if blocks != [] {
      var n := |blocks| - 1;
      assert blocks[n] in blocks;
      MessageCalls(codec, blocks[..n]);
      assert Message(codec, blocks)[..n] == Message(codec, blocks[..n]);
      if blocks[n].OpenTool? {
        var input := ToolInput(codec, blocks[n]).value;
        assert codec.loads(codec.dumps(input)) == Some(input);
      }
    }
  }

  lemma ToolKeysBounded(view: ClientView, state: Partial)
    requires Tracks(view, state)
    ensures forall i | i in view.tools :: i < |state.blocks|
  {
    forall i | i in view.tools
      ensures i < |state.blocks|
    {
      assert TracksAt(view.tools, state.blocks, i);
    }
  }

  /** Streamed and buffered agree. For every stream that follows the protocol, the client
      that folds the translated chunks by index ends with the finish reason, and the ordered
      tool-call ids and names, of the translated buffered message. Its text is the message's
      text exactly when no text came with a block's start, and a call's argument value is the
      message's exactly when the input did not come whole with the start. */
  lemma StreamedEqualsBuffered(codec: Codec, events: seq<Event>)
    requires Lawful(codec) && Accumulate(events).Some? && Complete(codec, Accumulate(events).value.blocks)
    ensures var state := Accumulate(events).value;
            var view := FoldStream(events, FromStreamEvent);
            var message := Message(codec, state.blocks);
            var streamed, buffered := InOrder(view.tools, |state.blocks|), CallsOf(codec, message);
            var tools := ToolBlocks(state.blocks);
            && view.finish == MapStopReason(state.stopReason)
            && (view.text == TextOf(message) <==> forall b | b in state.blocks :: b.OpenText? ==> b.initial == "")
            && (forall i | i in view.tools :: i < |state.blocks|)
            && |streamed| == |buffered| == |tools|
            && forall i | 0 <= i < |streamed| ::
                 && streamed[i].id == buffered[i].id && streamed[i].name == buffered[i].name
                 && (ParseToolArguments(codec, streamed[i].arguments)
                     == ParseToolArguments(codec, buffered[i].arguments)
                     <==> InputStreamed(tools[i]))
  {
    var state := Accumulate(events).value;
    var view := FoldStream(events, FromStreamEvent);
    ClientTracks(events);
    ToolsInOrder(view, state, |state.blocks|);
    assert state.blocks[..|state.blocks|] == state.blocks;
    ToolKeysBounded(view, state);
    MessageText(codec, state.blocks);
    NoInitialText(state.blocks);
    MessageCalls(codec, state.blocks);
  }

  lemma OneStart(block: StartBlock)
    ensures Accumulate([BlockStart(0, block)]) == Some(Partial([Open(block)], None))
    ensures FoldStream([BlockStart(0, block)], FromStreamEvent)
            == FoldEvent(ClientView("", map[], None), FromStreamEvent(BlockStart(0, block)))
  {
    var events := [BlockStart(0, block)];
    assert events[..0] == [];
    assert Accumulate(events[..0]) == Some(Partial([], None));
    assert FoldStream(events[..0], FromStreamEvent) == ClientView("", map[], None);
    assert [] + [Open(block)] == [Open(block)];
  }

  /** A stream whose one text block arrives whole with its start: the message has the text,
      the streaming client has none. */
  lemma StartTextIsLost(codec: Codec, text: string)
    requires text != ""
    ensures var events := [BlockStart(0, StartText(text))];
            && Accumulate(events) == Some(Partial([OpenText(text, "")], None))
            && FoldStream(events, FromStreamEvent).text == ""
            && Complete(codec, [OpenText(text, "")]) && TextOf(Message(codec, [OpenText(text, "")])) == text
  {
    OneStart(StartText(text));
    var message := Message(codec, [OpenText(text, "")]);
    assert text + "" == text;
    assert message == [TextBlock(text)] && message[..0] == [];
    assert TextOf(message[..0]) == "";
  }

  /** A tool call whose input arrives whole with its start: the message has the input, the
      streaming client an empty object. */
  lemma StartInputIsLost(codec: Codec, id: string, name: string, input: Json)
    requires Lawful(codec) && input != EMPTY_OBJECT
    ensures var events := [BlockStart(0, StartTool(id, name, input))];
            var blocks := [OpenTool(id, name, input, "")];
            var view := FoldStream(events, FromStreamEvent);
            && Accumulate(events) == Some(Partial(blocks, None)) && Complete(codec, blocks)
            && Message(codec, blocks) == [ToolUse(id, name, input)]
            && 0 in view.tools && ParseToolArguments(codec, view.tools[0].arguments) == EMPTY_OBJECT
  {
    OneStart(StartTool(id, name, input));
    assert "" + "" == "";
  }
}
