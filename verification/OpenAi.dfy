/** The OpenAI side of translation: chat messages, assistant turns, stream chunks, and how a
    client folds chunks into a turn. */
module OpenAi {
  import opened Prelude

  datatype Json =
    | JNull
    | JBool(b: bool)
    | JNumber(n: int)
    | JString(s: string)
    | JArray(items: seq<Json>)
    | JObject(fields: seq<(string, Json)>)

  const EMPTY_OBJECT := JObject([])

  /** `json.dumps` and `json.loads`. */
  datatype Codec = Codec(dumps: Json -> string, loads: string -> Option<Json>)

  /** Decoding undoes encoding, and the empty text is not JSON. */
  ghost predicate Lawful(codec: Codec) {
    (forall v :: codec.loads(codec.dumps(v)) == Some(v)) && codec.loads("") == None
  }

  /** A tool call; an absent id or name is the empty text. */
  datatype ToolCall = ToolCall(id: string, name: string, arguments: string)

  datatype Part =
    | RawText(text: string)
    | TextPart(text: string)
    | ImagePart(url: string)
    | OtherPart(note: Option<string>)

  datatype Content = NoContent | Text(text: string) | Parts(parts: seq<Part>)

  datatype ChatMessage = ChatMessage(role: string, content: Content, toolCalls: seq<ToolCall>, toolCallId: string)

  predicate IsSystemRole(role: string) {
    role == "system" || role == "developer"
  }

  /** What a completion hands the client. */
  datatype AssistantTurn = AssistantTurn(content: Option<string>, toolCalls: seq<ToolCall>, finish: Option<string>)

  function TextOrEmpty(content: Option<string>): string {
    if content.Some? then content.value else ""
  }

  datatype Delta =
    | RoleDelta
    | ContentDelta(text: string)
    | ToolStart(index: nat, id: string, name: string, arguments: string)
    | ToolArguments(index: nat, fragment: string)
    | EmptyDelta

  datatype Chunk = Chunk(delta: Delta, finish: Option<string>)

  // --- A client folding a stream ----------------------------------------------

  /** A client's view of a streamed turn: tool calls are keyed by their index. */
  datatype ClientView = ClientView(text: string, tools: map<nat, ToolCall>, finish: Option<string>)

  function FoldChunk(view: ClientView, chunk: Chunk): ClientView {
    var v := view.(finish := if chunk.finish.Some? then chunk.finish else view.finish);
    match chunk.delta
    case RoleDelta => v
    case ContentDelta(text) => v.(text := v.text + text)
    case ToolStart(index, id, name, arguments) =>
      var earlier := if index in v.tools then v.tools[index].arguments else "";
      v.(tools := v.tools[index := ToolCall(id, name, earlier + arguments)])
    case ToolArguments(index, fragment) =>
      if index in v.tools then
        var call := v.tools[index];
        v.(tools := v.tools[index := call.(arguments := call.arguments + fragment)])
      else v.(tools := v.tools[index := ToolCall("", "", fragment)])
    case EmptyDelta => v
  }

  /** Fold what an adapter made of an event; dropped events reach no client. */
  function FoldEvent(view: ClientView, chunk: Option<Chunk>): ClientView {
    if chunk.Some? then FoldChunk(view, chunk.value) else view
  }

  function FoldStream<E>(events: seq<E>, translate: E -> Option<Chunk>): ClientView {
    if events == [] then ClientView("", map[], None)
    else FoldEvent(FoldStream(events[..|events| - 1], translate), translate(events[|events| - 1]))
  }

  /** The client's tool calls below index `n`, by index. */
  function InOrder(tools: map<nat, ToolCall>, n: nat): seq<ToolCall> {
    if n == 0 then []
    else InOrder(tools, n - 1) + if n - 1 in tools then [tools[n - 1]] else []
  }

  function Join(texts: seq<string>, separator: string): string {
    if texts == [] then ""
    else if |texts| == 1 then texts[0]
    else Join(texts[..|texts| - 1], separator) + separator + texts[|texts| - 1]
  }

  lemma JoinOne(text: string, separator: string)
    ensures Join([text], separator) == text
  {
  }

  lemma JoinSnoc(texts: seq<string>, text: string, separator: string)
    requires texts != []
    ensures Join(texts + [text], separator) == Join(texts, separator) + separator + text
  {
    assert (texts + [text])[..|texts|] == texts;
  }

  // --- Which texts a content says, and finding them in a longer text ------------

  function TextParts(parts: seq<Part>): seq<string> {
    if parts == [] then []
    else
      var last := parts[|parts| - 1];
      TextParts(parts[..|parts| - 1]) + if last.RawText? || last.TextPart? then [last.text] else []
  }

  /** The texts a content says, in order. */
  function TextsIn(content: Content): seq<string> {
    match content
    case NoContent => []
    case Text(text) => [text]
    case Parts(parts) => TextParts(parts)
  }

  function ImageParts(parts: seq<Part>): seq<string> {
    if parts == [] then []
    else
      var last := parts[|parts| - 1];
      ImageParts(parts[..|parts| - 1]) + if last.ImagePart? then [last.url] else []
  }

  /** The images a content shows, in order. */
  function ImagesIn(content: Content): seq<string> {
    if content.Parts? then ImageParts(content.parts) else []
  }

  predicate PieceAt(text: string, piece: string, k: nat) {
    k + |piece| <= |text| && text[k..k + |piece|] == piece
  }

  /** The pieces stand in the text, whole and one after the other. */
  ghost predicate HasInTurn(text: string, pieces: seq<string>)
    decreases |pieces|
  {
    pieces == [] || exists k: nat :: PieceAt(text, pieces[0], k) && HasInTurn(text[k + |pieces[0]|..], pieces[1..])
  }

  lemma HasItself(text: string)
    ensures HasInTurn(text, [text])
  {
    assert PieceAt(text, [text][0], 0) && [text][1..] == [];
  }

  lemma HasFirst(text: string, k: nat, pieces: seq<string>)
    requires pieces != [] && PieceAt(text, pieces[0], k) && HasInTurn(text[k + |pieces[0]|..], pieces[1..])
    ensures HasInTurn(text, pieces)
  {
  }

  lemma PieceFurther(a: string, b: string, piece: string, k: nat)
    ensures PieceAt(a, piece, k) ==> PieceAt(a + b, piece, k) && (a + b)[k + |piece|..] == a[k + |piece|..] + b
    ensures PieceAt(b, piece, k) ==>
              PieceAt(a + b, piece, |a| + k) && (a + b)[|a| + k + |piece|..] == b[k + |piece|..]
  {
    if PieceAt(a, piece, k) {
      assert (a + b)[k..k + |piece|] == a[k..k + |piece|];
    }
    if PieceAt(b, piece, k) {
      assert (a + b)[|a| + k..|a| + k + |piece|] == b[k..k + |piece|];
    }
  }

  /** One more piece found in front of what a longer text has. */
  lemma HasStep(a: string, b: string, ps: seq<string>, qs: seq<string>, k: nat)
    requires ps != [] && PieceAt(a, ps[0], k) && HasInTurn(a[k + |ps[0]|..] + b, ps[1..] + qs)
    ensures HasInTurn(a + b, ps + qs)
  {
    hide HasInTurn;
    PieceFurther(a, b, ps[0], k);
    assert (ps + qs)[0] == ps[0] && (ps + qs)[1..] == ps[1..] + qs;
    HasFirst(a + b, k, ps + qs);
  }

  lemma HasAfter(a: string, b: string, qs: seq<string>, k: nat)
    requires qs != [] && PieceAt(b, qs[0], k) && HasInTurn(b[k + |qs[0]|..], qs[1..])
    ensures HasInTurn(a + b, qs)
  {
    hide HasInTurn;
    PieceFurther(a, b, qs[0], k);
    HasFirst(a + b, |a| + k, qs);
  }

  /** What two texts have in turn, their concatenation has in turn. */
  lemma {:induction false} HasBoth(a: string, b: string, ps: seq<string>, qs: seq<string>)
    requires HasInTurn(a, ps) && HasInTurn(b, qs)
    ensures HasInTurn(a + b, ps + qs)
    decreases |ps|, |qs|
  {
    if ps != [] {
      var k: nat :| PieceAt(a, ps[0], k) && HasInTurn(a[k + |ps[0]|..], ps[1..]);
      hide HasInTurn;
      HasBoth(a[k + |ps[0]|..], b, ps[1..], qs);
      HasStep(a, b, ps, qs, k);
    } else {
      NothingAdded(qs);
      if qs != [] {
        var k: nat :| PieceAt(b, qs[0], k) && HasInTurn(b[k + |qs[0]|..], qs[1..]);
        hide HasInTurn;
        HasAfter(a, b, qs, k);
      }
    }
  }

  /** Joined texts have in turn whatever the single texts have. */
  lemma {:induction false} JoinHas(texts: seq<string>, separator: string, pieces: seq<seq<string>>)
    requires |pieces| == |texts| && forall i | 0 <= i < |texts| :: HasInTurn(texts[i], pieces[i])
    ensures HasInTurn(Join(texts, separator), Flatten(pieces))
    decreases |texts|
  {
    if |texts| == 0 {
      assert pieces == [];
    } else {
      var n := |texts| - 1;
      var before, some := texts[..n], pieces[..n];
      assert texts == before + [texts[n]] && pieces == some + [pieces[n]];
      JoinHas(before, separator, some);
      FlattenSnoc(some, pieces[n]);
      hide Join, HasInTurn, Flatten;
      if n == 0 {
        assert before == [] && some == [] && texts == [texts[0]];
        JoinOne(texts[0], separator);
        FlattenNone<string>();
        NothingAdded(pieces[0]);
      } else {
        JoinSnoc(before, texts[n], separator);
        HasMore(Join(before, separator), separator, Flatten(some));
        HasBoth(Join(before, separator) + separator, texts[n], Flatten(some), pieces[n]);
      }
    }
  }

  lemma HasMore(text: string, more: string, pieces: seq<string>)
    requires HasInTurn(text, pieces)
    ensures HasInTurn(text + more, pieces)
  {
    HasBoth(text, more, pieces, []);
    NothingAdded(pieces);
  }

  lemma JoinedHas(texts: seq<string>, separator: string)
    ensures HasInTurn(Join(texts, separator), texts)
  {
    var single := (t: string) => [t];
    forall i | 0 <= i < |texts|
      ensures HasInTurn(texts[i], Map(texts, single)[i])
    {
      HasItself(texts[i]);
    }
    JoinHas(texts, separator, Map(texts, single));
    FlattenSingle(texts);
  }

  /** One more text for a join, none when it is empty, still has its pieces in turn. */
  lemma OneMoreText(texts: seq<string>, more: seq<string>, separator: string, pieces: seq<string>,
                    morePieces: seq<string>, text: string)
    requires HasInTurn(Join(texts, separator), pieces)
    requires more == [text] || (more == [] && (text == "" || morePieces == []))
    requires HasInTurn(text, morePieces)
    ensures HasInTurn(Join(texts + more, separator), pieces + morePieces)
  {
    hide HasInTurn, Join;
    var joined := Join(texts, separator);
    if more == [] {
      NothingAdded(texts);
      NothingAdded(pieces);
      NothingAdded(joined);
      if morePieces != [] {
        HasBoth(joined, text, pieces, morePieces);
      }
    } else if texts == [] {
      NothingAdded(more);
      JoinOne(text, separator);
      JoinNone(separator);
      HasBoth(joined, text, pieces, morePieces);
      NothingAdded(text);
    } else {
      JoinSnoc(texts, text, separator);
      HasMore(joined, separator, pieces);
      HasBoth(joined + separator, text, pieces, morePieces);
    }
  }

  lemma JoinNone(separator: string)
    ensures Join([], separator) == ""
  {
  }

  lemma {:induction false} FlattenHas(texts: seq<string>)
    ensures HasInTurn(Flatten(texts), texts)
  {
    if texts != [] {
      FlattenHas(texts[1..]);
      HasItself(texts[0]);
      HasBoth(texts[0], Flatten(texts[1..]), [texts[0]], texts[1..]);
      assert [texts[0]] + texts[1..] == texts;
    }
  }
}
