/** The incremental Server-Sent Events parser and the framing it undoes.

    The parser buffers text across network chunks; its specification parses the whole
    text in one pass. A second, independent definition follows the event-stream
    interpretation of section 9.2.6 of the WHATWG HTML standard. */
module Sse {
  import opened Prelude
  import opened Utf8

  // --- Text helpers ----------------------------------------------------------

  /** `str.partition(sep)`: the text before the first separator, whether there is one, and
      the text after it. */
  function Partition(text: string, sep: char): (string, bool, string) {
    var i := IndexOf(text, sep);
    if i < |text| then (text[..i], true, text[i + 1..]) else (text, false, [])
  }

  /** `str.rstrip("\r")`. */
  function StripCr(line: string): string {
    if line != [] && line[|line| - 1] == '\r' then StripCr(line[..|line| - 1]) else line
  }

  /** `"\n".join(lines)`. */
  function JoinLf(lines: seq<string>): string {
    if lines == [] then []
    else if |lines| == 1 then lines[0]
    else JoinLf(lines[..|lines| - 1]) + "\n" + lines[|lines| - 1]
  }

  /** The `data` value of a line, or None for any other field. */
  function DataValue(line: string): Option<string> {
    var (field, sep, value) := Partition(line, ':');
    if field != "data" then None
    else if sep && value != [] && value[0] == ' ' then Some(value[1..])
    else Some(value)
  }

  // --- One-pass specification ------------------------------------------------

  /** What reading some lines yields: the dispatched payloads and the data lines of the
      event still open. */
  datatype Parsed = Parsed(payloads: seq<string>, open: seq<string>)

  function FeedLine(p: Parsed, raw: string): Parsed {
    var line := StripCr(raw);
    if line == [] then (if p.open == [] then p else Parsed(p.payloads + [JoinLf(p.open)], []))
    else if line[0] == ':' then p
    else
      var value := DataValue(line);
      if value.Some? then Parsed(p.payloads, p.open + [value.value]) else p
  }

  function FeedLines(p: Parsed, lines: seq<string>): Parsed
    decreases |lines|
  {
    if lines == [] then p else FeedLines(FeedLine(p, lines[0]), lines[1..])
  }

  /** The LF-terminated lines of a text, and the unterminated rest. */
  function SplitLines(text: string): (r: (seq<string>, string))
    decreases |text|
  {
    var (line, found, rest) := Partition(text, '\n');
    if !found then ([], text)
    else
      var (lines, tail) := SplitLines(rest);
      ([line] + lines, tail)
  }

  /** The payloads dispatched by blank lines, and the event left open before the tail. */
  function ParseLines(text: string): Parsed {
    FeedLines(Parsed([], []), SplitLines(text).0)
  }

  /** An unterminated last line still contributes, and an open event is dispatched. */
  function Finish(p: Parsed, buffer: string): seq<string> {
    var tail := StripCr(buffer);
    var value := if tail != [] && tail[0] != ':' then DataValue(tail) else None;
    var open := if value.Some? then p.open + [value.value] else p.open;
    if open == [] then p.payloads else p.payloads + [JoinLf(open)]
  }

  function Parse(text: string): seq<string> {
    Finish(ParseLines(text), SplitLines(text).1)
  }

  /** What is stripped of a line is its trailing CRs, all of them and nothing else. */
  lemma {:induction false} StripCrIs(line: string)
    ensures StripCr(line) <= line
    ensures StripCr(line) == [] || StripCr(line)[|StripCr(line)| - 1] != '\r'
    ensures forall i | |StripCr(line)| <= i < |line| :: line[i] == '\r'
    decreases |line|
  {
    if line != [] && line[|line| - 1] == '\r' {
      StripCrIs(line[..|line| - 1]);
    }
  }

  // --- Lines and chunks ------------------------------------------------------

  lemma PartitionAppend(a: string, b: string, sep: char)
    ensures Partition(a, sep).1 ==> Partition(a + b, sep) == (Partition(a, sep).0, true, Partition(a, sep).2 + b)
    ensures !Partition(a, sep).1 ==>
      Partition(a + b, sep) == (a + Partition(b, sep).0, Partition(b, sep).1, Partition(b, sep).2)
  {
    hide IndexOf;
    var i, j := IndexOf(a, sep), IndexOf(b, sep);
    if i < |a| {
      IndexIs(a + b, sep, i);
      assert (a + b)[..i] == a[..i] && (a + b)[i + 1..] == a[i + 1..] + b;
    } else {
      forall m | 0 <= m < |a| + j
        ensures (a + b)[m] != sep
      {
        assert (a + b)[m] == if m < |a| then a[m] else b[m - |a|];
      }
      IndexIs(a + b, sep, |a| + j);
      if j < |b| {
        assert (a + b)[..|a| + j] == a + b[..j] && (a + b)[|a| + j + 1..] == b[j + 1..];
      }
    }
  }

  lemma IndexIs(text: string, sep: char, i: nat)
    requires i <= |text| && (i < |text| ==> text[i] == sep) && forall j | 0 <= j < i :: text[j] != sep
    ensures IndexOf(text, sep) == i
  {
  }

  lemma NoLineYet(text: string)
    requires !Partition(text, '\n').1
    ensures SplitLines(text) == ([], text)
  {
  }

  lemma RestIsShorter(text: string)
    ensures Partition(text, '\n').1 ==> |Partition(text, '\n').2| < |text|
  {
  }

  lemma SplitStep(text: string, line: string, rest: string)
    requires Partition(text, '\n') == (line, true, rest)
    ensures SplitLines(text) == ([line] + SplitLines(rest).0, SplitLines(rest).1)
  {
  }

  /** Splitting a longer text only splits what was left over. */
  lemma {:induction false} SplitAppend(a: string, b: string)
    ensures SplitLines(a + b).0 == SplitLines(a).0 + SplitLines(SplitLines(a).1 + b).0
    ensures SplitLines(a + b).1 == SplitLines(SplitLines(a).1 + b).1
    decreases |a|
  {
    hide SplitLines, Partition;
    PartitionAppend(a, b, '\n');
    var (line, found, rest) := Partition(a, '\n');
    if found {
      RestIsShorter(a);
      SplitAppend(rest, b);
      SplitStep(a, line, rest);
      SplitStep(a + b, line, rest + b);
    } else {
      NoLineYet(a);
    }
  }

  lemma {:induction false} TailHasNoLf(text: string)
    ensures '\n' !in SplitLines(text).1
    decreases |text|
  {
    var (line, found, rest) := Partition(text, '\n');
    if found {
      TailHasNoLf(rest);
    }
  }

  lemma {:induction false} FeedLinesAppend(p: Parsed, a: seq<string>, b: seq<string>)
    ensures FeedLines(p, a + b) == FeedLines(FeedLines(p, a), b)
    decreases |a|
  {
    if a == [] {
      assert a + b == b;
    } else {
      assert (a + b)[0] == a[0] && (a + b)[1..] == a[1..] + b;
      FeedLinesAppend(FeedLine(p, a[0]), a[1..], b);
    }
  }

  // --- The incremental parser ------------------------------------------------

  /** Consume the complete lines of the buffer. */
  method DrainBuffer(payloads: seq<string>, open: seq<string>, pending: string)
    returns (payloads': seq<string>, open': seq<string>, buffer: string)
    ensures Parsed(payloads', open') == FeedLines(Parsed(payloads, open), SplitLines(pending).0)
    ensures buffer == SplitLines(pending).1
  {
    payloads', open', buffer := payloads, open, pending;
    while '\n' in buffer
      invariant FeedLines(Parsed(payloads', open'), SplitLines(buffer).0)
                == FeedLines(Parsed(payloads, open), SplitLines(pending).0)
      invariant SplitLines(buffer).1 == SplitLines(pending).1
      decreases |buffer|
    {
      var (line, found, rest) := Partition(buffer, '\n');
      assert SplitLines(buffer).0 == [line] + SplitLines(rest).0;
      ghost var before := Parsed(payloads', open');
      buffer := rest;
      ghost var raw := line;
      line := StripCr(line);
      if line == [] {
        if open' != [] {
          payloads' := payloads' + [JoinLf(open')];
          open' := [];
        }
      } else if line[0] != ':' {
        var value := DataValue(line);
        if value.Some? {
          open' := open' + [value.value];
        }
      }
      assert Parsed(payloads', open') == FeedLine(before, raw);
    }
    assert Partition(buffer, '\n').1 ==> '\n' in buffer;
  }

  /** Read all chunks: the payloads dispatched so far, the open event, and the rest of the
      text. */
  method ReadChunks(chunks: seq<seq<Byte>>) returns (payloads: seq<string>, open: seq<string>, buffer: string)
    ensures Parsed(payloads, open) == ParseLines(DecodeChunks(chunks)) && buffer == SplitLines(DecodeChunks(chunks)).1
  {
    payloads, open, buffer := [], [], [];
    ghost var text: string := [];
    for i := 0 to |chunks|
      invariant DecodeChunks(chunks) == text + DecodeChunks(chunks[i..])
      invariant Parsed(payloads, open) == ParseLines(text) && buffer == SplitLines(text).1
    {
      var raw := chunks[i];
      assert chunks[i..][1..] == chunks[i + 1..];
      SplitAppend(text, Decode(raw));
      FeedLinesAppend(Parsed([], []), SplitLines(text).0, SplitLines(buffer + Decode(raw)).0);
      if raw != [] {
        payloads, open, buffer := DrainBuffer(payloads, open, buffer + Decode(raw));
      } else {
        assert text + Decode(raw) == text && Decode(raw) == [];
      }
      Associative(text, Decode(raw), DecodeChunks(chunks[i + 1..]));
      text := text + Decode(raw);
    }
    assert DecodeChunks(chunks) == text;
  }

  /** Parse a byte stream delivered in chunks: the payloads are those of one pass over the
      text the chunks decode to. */
  method IterSseData(chunks: seq<seq<Byte>>) returns (payloads: seq<string>)
    ensures payloads == Parse(DecodeChunks(chunks))
  {
    var open, buffer;
    payloads, open, buffer := ReadChunks(chunks);
    var tail := StripCr(buffer);
    if tail != [] && tail[0] != ':' {
      var value := DataValue(tail);
      if value.Some? {
        open := open + [value.value];
      }
    }
    if open != [] {
      payloads := payloads + [JoinLf(open)];
    }
  }

  /** The same, when the stream fails after its chunks: nothing more is dispatched. */
  method IterUntilFailure(chunks: seq<seq<Byte>>) returns (payloads: seq<string>)
    ensures payloads == ParseLines(DecodeChunks(chunks)).payloads
  {
    var open, buffer;
    payloads, open, buffer := ReadChunks(chunks);
  }

  // --- Framing ---------------------------------------------------------------

  const SSE_DONE := "data: [DONE]\n\n"
  const UPSTREAM_DONE := "[DONE]"

  /** `data: <json>` followed by a blank line. */
  function Frame(json: string): string {
    "data: " + json + "\n\n"
  }

  function Frames(jsons: seq<string>): string {
    if jsons == [] then [] else Frame(jsons[0]) + Frames(jsons[1..])
  }

  /** What `json.dumps` output satisfies: no raw line break. */
  predicate OneLine(text: string) {
    '\n' !in text && '\r' !in text
  }

  predicate AsciiText(text: string) {
    forall i | 0 <= i < |text| :: text[i] < 128 as char
  }

  predicate IsDone(data: string) {
    Strip(data) == UPSTREAM_DONE
  }

  /** The terminator is recognised with white space around it, and nothing else is. */
  lemma DoneIs(data: string)
    ensures IsDone(data) <==> exists head, tail | Blank(head) && Blank(tail) :: data == head + "[DONE]" + tail
  {
    var head, tail := StripIs(data);
    if IsDone(data) {
      assert data == head + "[DONE]" + tail;
    }
    if head, tail :| Blank(head) && Blank(tail) && data == head + "[DONE]" + tail {
      StripOf(head, "[DONE]", tail);
    }
  }

  lemma SplitFrame(json: string)
    requires OneLine(json)
    ensures SplitLines(Frame(json)) == (["data: " + json, []], [])
  {
    var f := Frame(json);
    var i := IndexOf(f, '\n');
    assert f[|json| + 6] == '\n';
    assert forall j | 0 <= j < |json| :: f[6 + j] == json[j];
    assert i == |json| + 6;
    assert f[..i] == "data: " + json && f[i + 1..] == "\n";
    assert "\n"[..0] == [] && "\n"[1..] == [];
    SplitStep("\n", [], []);
    assert SplitLines("\n").0 == [[]];
    SplitStep(f, "data: " + json, "\n");
    assert ["data: " + json] + [[]] == ["data: " + json, []];
  }

  lemma DataLine(json: string)
    requires OneLine(json)
    ensures StripCr("data: " + json) == "data: " + json && DataValue("data: " + json) == Some(json)
  {
    var line := "data: " + json;
    assert line[4] == ':' && IndexOf(line, ':') == 4;
    assert line[..4] == "data" && line[5..] == " " + json && line[5..][1..] == json;
    assert line[|line| - 1] != '\r';
  }

  /** A frame at the front of a text dispatches its payload and leaves the rest. */
  lemma ParseFrame(payloads: seq<string>, json: string, rest: string)
    requires OneLine(json)
    ensures FeedLines(Parsed(payloads, []), SplitLines(Frame(json) + rest).0)
            == FeedLines(Parsed(payloads + [json], []), SplitLines(rest).0)
    ensures SplitLines(Frame(json) + rest).1 == SplitLines(rest).1
  {
    SplitFrame(json);
    SplitAppend(Frame(json), rest);
    assert [] + rest == rest;
    var line: string := "data: " + json;
    var two, more := [line, []], SplitLines(rest).0;
    FeedLinesAppend(Parsed(payloads, []), two, more);
    DataLine(json);
    assert two[1..] == [[]] && two[1..][1..] == [];
    assert FeedLine(Parsed(payloads, []), line) == Parsed(payloads, [json]);
    assert FeedLine(Parsed(payloads, [json]), []) == Parsed(payloads + [json], []);
  }

  lemma NothingParsed(payloads: seq<string>)
    ensures SplitLines([]) == ([], []) && FeedLines(Parsed(payloads, []), []) == Parsed(payloads, [])
  {
  }

  lemma {:induction false} ParseFramesFrom(payloads: seq<string>, jsons: seq<string>)
    requires forall i | 0 <= i < |jsons| :: OneLine(jsons[i])
    ensures FeedLines(Parsed(payloads, []), SplitLines(Frames(jsons)).0) == Parsed(payloads + jsons, [])
    ensures SplitLines(Frames(jsons)).1 == []
    decreases |jsons|
  {
    NothingParsed(payloads);
    hide Frame, FeedLine, FeedLines, SplitLines, OneLine;
    if jsons != [] {
      ParseFrame(payloads, jsons[0], Frames(jsons[1..]));
      ParseFramesFrom(payloads + [jsons[0]], jsons[1..]);
      assert payloads + [jsons[0]] + jsons[1..] == payloads + jsons;
    } else {
      assert payloads + jsons == payloads;
    }
  }

  lemma FinishNothing(payloads: seq<string>)
    ensures Finish(Parsed(payloads, []), []) == payloads
  {
  }

  /** Parsing undoes framing: each frame gives back exactly its payload. */
  lemma ParseFrames(jsons: seq<string>)
    requires forall i | 0 <= i < |jsons| :: OneLine(jsons[i])
    ensures Parse(Frames(jsons)) == jsons
  {
    FinishNothing(jsons);
    hide FeedLines, Frame, Frames, OneLine, SplitLines, Finish, FeedLine;
    ParseFramesFrom([], jsons);
    assert [] + jsons == jsons;
  }

  lemma {:induction false} FramesAppend(a: seq<string>, b: seq<string>)
    ensures Frames(a + b) == Frames(a) + Frames(b)
  {
    if a == [] {
      assert a + b == b;
    } else {
      assert (a + b)[0] == a[0] && (a + b)[1..] == a[1..] + b;
      FramesAppend(a[1..], b);
      Associative(Frame(a[0]), Frames(a[1..]), Frames(b));
    }
  }

  lemma {:induction false} AsciiEncoding(text: string)
    requires AsciiText(text)
    ensures Ascii(EncodeText(text))
  {
    if text != [] {
      AsciiEncoding(text[1..]);
    }
  }

  lemma {:induction false} FramesAscii(jsons: seq<string>)
    requires forall i | 0 <= i < |jsons| :: AsciiText(jsons[i])
    ensures AsciiText(Frames(jsons))
  {
    if jsons != [] {
      FramesAscii(jsons[1..]);
      assert AsciiText(Frame(jsons[0]));
    }
  }

  /** Any fragments of an encoded ASCII text decode, chunk by chunk, to that text. */
  lemma FragmentsDecode(text: string, fragments: seq<seq<Byte>>)
    requires AsciiText(text) && Flatten(fragments) == EncodeText(text)
    ensures DecodeChunks(fragments) == text
  {
    AsciiEncoding(text);
    AsciiNeverCut(fragments);
    ChunkwiseIff(fragments);
    DecodeEncode(text);
  }

  /** A framed answer and its terminator, sent as ASCII and re-split at arbitrary byte
      boundaries, parse back to the payloads and then the terminator. */
  lemma WireRoundTrip(jsons: seq<string>, fragments: seq<seq<Byte>>)
    requires forall i | 0 <= i < |jsons| :: OneLine(jsons[i]) && AsciiText(jsons[i])
    requires Flatten(fragments) == EncodeText(Frames(jsons) + SSE_DONE)
    ensures Parse(DecodeChunks(fragments)) == jsons + [UPSTREAM_DONE]
  {
    hide Parse, Frame, EncodeText, DecodeChunks, IsSpace;
    var all := jsons + [UPSTREAM_DONE];
    FramesAppend(jsons, [UPSTREAM_DONE]);
    DoneFrame();
    FramesAscii(all);
    FragmentsDecode(Frames(all), fragments);
    ParseFrames(all);
  }

  lemma DoneFrame()
    ensures Frames([UPSTREAM_DONE]) == SSE_DONE && OneLine(UPSTREAM_DONE) && AsciiText(UPSTREAM_DONE)
  {
    assert [UPSTREAM_DONE][1..] == [];
    assert Frame(UPSTREAM_DONE) == SSE_DONE;
  }

  /** Two chunks that cut the two-byte character U+00E9: read as one they carry it, read as
      the gateway reads them they carry two replacement characters. */
  lemma CutCharacterChangesPayload(a: seq<Byte>, b: seq<Byte>)
    requires a == EncodeText("data: ") + [0xC3] && b == [0xA9] + EncodeText("\n\n")
    ensures Parse(Decode(a + b)) == ["\U{E9}"]
    ensures Parse(DecodeChunks([a, b])) == ["\U{FFFD}\U{FFFD}"]
  {
    var x, y := EncodeText("data: "), EncodeText("\n\n");
    assert AsciiText("data: ") && AsciiText("\n\n");
    AsciiEncoding("data: ");
    AsciiEncoding("\n\n");
    DecodeEncode("data: ");
    DecodeEncode("\n\n");
    CutPayload(x, y);
  }

  lemma CutPayload(x: seq<Byte>, y: seq<Byte>)
    requires Ascii(x) && Ascii(y) && Decode(x) == "data: " && Decode(y) == "\n\n"
    ensures Parse(Decode((x + [0xC3]) + ([0xA9] + y))) == ["\U{E9}"]
    ensures Parse(DecodeChunks([x + [0xC3], [0xA9] + y])) == ["\U{FFFD}\U{FFFD}"]
  {
    hide Parse;
    var a, b := x + [0xC3], [0xA9] + y;
    CutCharacter(x, y);
    assert a + b == x + [0xC3, 0xA9] + y;
    TwoReplacements(Decode(a), Decode(b));
    DecodePair(a, b);
    OneFrame("\U{E9}");
    OneFrame("\U{FFFD}\U{FFFD}");
  }

  lemma DecodePair(a: seq<Byte>, b: seq<Byte>)
    ensures DecodeChunks([a, b]) == Decode(a) + Decode(b)
  {
    var chunks, none: seq<seq<Byte>> := [a, b], [];
    assert chunks[1..] == [b] && chunks[1..][1..] == none;
    assert DecodeChunks(chunks[1..]) == Decode(b) + DecodeChunks(none);
    assert DecodeChunks(chunks) == Decode(a) + DecodeChunks(chunks[1..]);
  }

  lemma TwoReplacements(x: string, y: string)
    requires x == "data: " + [REPLACEMENT] && y == [REPLACEMENT] + "\n\n"
    ensures x + y == Frame("\U{FFFD}\U{FFFD}")
  {
  }

  lemma OneFrame(json: string)
    requires OneLine(json)
    ensures Parse(Frame(json)) == [json]
  {
    assert [json][1..] == [] && Frame(json) + [] == Frame(json);
    ParseFrames([json]);
  }

  lemma CutCharacter(x: seq<Byte>, y: seq<Byte>)
    requires Ascii(x) && Ascii(y)
    ensures Decode(x + [0xC3, 0xA9] + y) == Decode(x) + "\U{E9}" + Decode(y)
    ensures Decode(x + [0xC3]) == Decode(x) + [REPLACEMENT] && Decode([0xA9] + y) == [REPLACEMENT] + Decode(y)
  {
    AsciiLeavesNothing(x);
    var two: seq<Byte> := [0xC3, 0xA9];
    TwoChunks(x, two + y);
    assert x + (two + y) == x + two + y;
    assert Decode(two + y) == "\U{E9}" + Decode(y) by {
      var s := two + y;
      assert s[1..] == [0xA9] + y && s[1..][1..] == y;
      assert Decode(s) == DecodeFrom([0xC3], s[1..]);
      assert [0xC3] + [0xA9 as Byte] == two;
      Extend([0xC3], 0xA9);
      assert Character(two) == '\U{E9}';
    }
    Associative(Decode(x), "\U{E9}", Decode(y));
    TwoChunks(x, [0xC3]);
    assert Decode([0xC3]) == [REPLACEMENT];
    assert ([0xA9] + y)[1..] == y;
  }

  // --- Section 9.2.6 of the WHATWG HTML standard -----------------------------

  /** The position of the first CR or LF. */
  function FirstEol(text: string): (i: nat)
    ensures i <= |text| && (i < |text| ==> text[i] == '\n' || text[i] == '\r')
    ensures forall j | 0 <= j < i :: text[j] != '\n' && text[j] != '\r'
  {
    IndexWhere(text, (c: char) => c == '\n' || c == '\r')
  }

  /** Lines end at CRLF, a lone LF or a lone CR; what is left at the end of the stream is
      discarded. */
  function StandardLines(text: string): seq<string>
    decreases |text|
  {
    var i := FirstEol(text);
    if i == |text| then []
    else if text[i] == '\r' && i + 1 < |text| && text[i + 1] == '\n' then [text[..i]] + StandardLines(text[i + 2..])
    else [text[..i]] + StandardLines(text[i + 1..])
  }

  datatype Interpreter = Interpreter(events: seq<string>, dataBuffer: string)

  function ProcessField(st: Interpreter, field: string, value: string): Interpreter {
    if field == "data" then st.(dataBuffer := st.dataBuffer + value + "\n") else st
  }

  function InterpretLine(st: Interpreter, line: string): Interpreter {
    if line == [] then
      if st.dataBuffer == [] then st
      else Interpreter(st.events + [st.dataBuffer[..|st.dataBuffer| - 1]], [])
    else if line[0] == ':' then st
    else if ':' in line then
      var i := IndexOf(line, ':');
      var value := line[i + 1..];
      ProcessField(st, line[..i], if value != [] && value[0] == ' ' then value[1..] else value)
    else ProcessField(st, line, [])
  }

  function InterpretLines(st: Interpreter, lines: seq<string>): Interpreter
    decreases |lines|
  {
    if lines == [] then st else InterpretLines(InterpretLine(st, lines[0]), lines[1..])
  }

  /** The data of the events the standard dispatches. */
  function StandardEvents(text: string): seq<string> {
    var body := if text != [] && text[0] == '\U{FEFF}' then text[1..] else text;
    InterpretLines(Interpreter([], []), StandardLines(body)).events
  }

  predicate CrAt(text: string, i: nat) {
    i < |text| && text[i] == '\r'
  }

  predicate CrOnlyInCrlf(text: string) {
    forall i | 0 <= i < |text| && CrAt(text, i) :: i + 1 < |text| && text[i + 1] == '\n'
  }

  /** The data lines of the event the end of the stream interrupts. */
  function OpenAtEnd(text: string): seq<string> {
    var tail := StripCr(SplitLines(text).1);
    var value := if tail != [] && tail[0] != ':' then DataValue(tail) else None;
    ParseLines(text).open + if value.Some? then [value.value] else []
  }

  function DataBuffer(open: seq<string>): string {
    if open == [] then [] else DataBuffer(open[..|open| - 1]) + open[|open| - 1] + "\n"
  }

  lemma {:induction false} DataBufferIsJoin(open: seq<string>)
    requires open != []
    ensures DataBuffer(open) == JoinLf(open) + "\n"
  {
    if |open| > 1 {
      DataBufferIsJoin(open[..|open| - 1]);
    } else {
      assert DataBuffer(open[..0]) == [];
    }
  }

  lemma LineAgrees(p: Parsed, raw: string)
    ensures var q := FeedLine(p, raw);
            InterpretLine(Interpreter(p.payloads, DataBuffer(p.open)), StripCr(raw))
              == Interpreter(q.payloads, DataBuffer(q.open))
  {
    var line := StripCr(raw);
    if line == [] {
      if p.open != [] {
        DataBufferIsJoin(p.open);
        assert DataBuffer(p.open)[..|DataBuffer(p.open)| - 1] == JoinLf(p.open);
      }
    } else if line[0] != ':' {
      var value := DataValue(line);
      if value.Some? {
        assert (p.open + [value.value])[..|p.open|] == p.open;
      }
    }
  }

  lemma {:induction false} LinesAgree(p: Parsed, raws: seq<string>)
    ensures var q := FeedLines(p, raws);
            InterpretLines(Interpreter(p.payloads, DataBuffer(p.open)), Map(raws, StripCr))
              == Interpreter(q.payloads, DataBuffer(q.open))
    decreases |raws|
  {
    if raws != [] {
      LineAgrees(p, raws[0]);
      assert Map(raws, StripCr)[1..] == Map(raws[1..], StripCr);
      LinesAgree(FeedLine(p, raws[0]), raws[1..]);
    }
  }

  lemma EolIs(text: string, i: nat)
    requires i < |text| && (text[i] == '\n' || text[i] == '\r')
    requires forall j | 0 <= j < i :: text[j] != '\n' && text[j] != '\r'
    ensures FirstEol(text) == i
  {
  }

  /** The line up to the first LF, as the standard cuts it. */
  lemma FirstLine(text: string, i: nat)
    requires CrOnlyInCrlf(text) && i == IndexOf(text, '\n') && i < |text|
    ensures var n := FirstEol(text);
            && (n == i || (n == i - 1 && text[n] == '\r'))
            && StripCr(text[..i]) == text[..n]
  {
    hide IndexOf, FirstEol;
    var line := text[..i];
    var n := if i > 0 && text[i - 1] == '\r' then i - 1 else i;
    forall j | 0 <= j < n
      ensures text[j] != '\n' && text[j] != '\r'
    {
      assert CrAt(text, j) <==> text[j] == '\r';
    }
    EolIs(text, n);
    assert line[..n] == text[..n] && StripCr(text[..n]) == text[..n];
    assert n < i ==> line[|line| - 1] == '\r';
  }

  /** The standard's first line, when it ends at position `n`. */
  lemma StandardLine(text: string, n: nat)
    requires n < |text| && n == FirstEol(text)
    ensures text[n] == '\n' ==> StandardLines(text) == [text[..n]] + StandardLines(text[n + 1..])
    ensures text[n] == '\r' && n + 1 < |text| && text[n + 1] == '\n' ==>
              StandardLines(text) == [text[..n]] + StandardLines(text[n + 2..])
  {
    hide FirstEol;
  }

  lemma StandardStep(text: string, i: nat)
    requires CrOnlyInCrlf(text) && i == IndexOf(text, '\n') && i < |text|
    ensures StandardLines(text) == [StripCr(text[..i])] + StandardLines(text[i + 1..])
  {
    hide IndexOf, FirstEol, StripCr, CrOnlyInCrlf, StandardLines;
    FirstLine(text, i);
    var n := FirstEol(text);
    StandardLine(text, n);
    if n < i {
      assert n + 1 == i;
    } else {
      assert n == i;
    }
  }

  lemma NoLf(text: string)
    requires CrOnlyInCrlf(text) && IndexOf(text, '\n') == |text|
    ensures StandardLines(text) == [] && SplitLines(text).0 == []
  {
    forall j | 0 <= j < |text|
      ensures text[j] != '\r'
    {
      assert CrAt(text, j) <==> text[j] == '\r';
    }
    assert FirstEol(text) == |text|;
  }

  lemma RestKeepsCrlf(text: string, i: nat)
    requires CrOnlyInCrlf(text) && i < |text|
    ensures CrOnlyInCrlf(text[i + 1..])
  {
    var rest := text[i + 1..];
    forall j | 0 <= j < |rest| && CrAt(rest, j)
      ensures j + 1 < |rest| && rest[j + 1] == '\n'
    {
      assert CrAt(text, i + 1 + j);
    }
  }

  /** Where CR stands only before LF, the standard's lines are the LF lines without CR. */
  lemma {:induction false} StandardLinesAreStripped(text: string)
    requires CrOnlyInCrlf(text)
    ensures StandardLines(text) == Map(SplitLines(text).0, StripCr)
    decreases |text|
  {
    hide StripCr, StandardLines, SplitLines, CrOnlyInCrlf, IndexOf;
    var i := IndexOf(text, '\n');
    if i < |text| {
      var line, rest := text[..i], text[i + 1..];
      StandardStep(text, i);
      RestKeepsCrlf(text, i);
      StandardLinesAreStripped(rest);
      SplitStep(text, line, rest);
      assert Map([line] + SplitLines(rest).0, StripCr) == [StripCr(line)] + Map(SplitLines(rest).0, StripCr);
    } else {
      NoLf(text);
    }
  }

  /** On LF and CRLF streams without a byte order mark the parser dispatches what the
      standard dispatches, and one more event exactly when the stream ends inside one. */
  lemma ConformsIff(text: string)
    requires CrOnlyInCrlf(text) && (text != [] ==> text[0] != '\U{FEFF}')
    ensures StandardEvents(text) == ParseLines(text).payloads
    ensures Parse(text) == StandardEvents(text) <==> OpenAtEnd(text) == []
  {
    StandardLinesAreStripped(text);
    LinesAgree(Parsed([], []), SplitLines(text).0);
    assert DataBuffer([]) == [];
    if OpenAtEnd(text) != [] {
      assert |Parse(text)| == |ParseLines(text).payloads| + 1;
    }
  }

  /** A stream that ends inside an event, such as `data: x` alone: the parser dispatches the
      event, the standard discards it. */
  lemma InterruptedEventDiffers(json: string, text: string)
    requires OneLine(json) && text == "data: " + json
    ensures Parse(text) == [json] && StandardEvents(text) == []
  {
    assert text[0] == 'd';
    NoLineBreaks(text);
    DataLine(json);
    InterruptedIs(json, text);
  }

  lemma InterruptedIs(json: string, text: string)
    requires SplitLines(text) == ([], text) && StandardLines(text) == [] && text != [] && text[0] == 'd'
    requires StripCr(text) == text && DataValue(text) == Some(json)
    ensures Parse(text) == [json] && StandardEvents(text) == []
  {
    hide StripCr, DataValue, SplitLines, StandardLines;
    assert [] + [json] == [json];
  }

  lemma NoLineBreaks(text: string)
    requires '\n' !in text && '\r' !in text
    ensures SplitLines(text) == ([], text) && StandardLines(text) == []
  {
    IndexIs(text, '\n', |text|);
    assert CrOnlyInCrlf(text);
    NoLf(text);
  }

  /** A stream whose last line is blank leaves no event open, so it is read as the
      standard reads it. */
  lemma BlankLineEndsEvent(head: string, eol: string)
    requires eol == "\n" || eol == "\r\n"
    requires var text := head + "\n" + eol; CrOnlyInCrlf(text) && text[0] != '\U{FEFF}'
    ensures Parse(head + "\n" + eol) == StandardEvents(head + "\n" + eol)
  {
    var body, text := head + "\n", head + "\n" + eol;
    EndsAtLf(head);
    SplitAppend(body, eol);
    assert [] + eol == eol;
    var blank := eol[..|eol| - 1];
    assert eol[|eol| - 1] == '\n' && IndexOf(eol, '\n') == |eol| - 1;
    SplitStep(eol, blank, []);
    assert blank == [] || (blank == "\r" && blank[..0] == []);
    assert StripCr(blank) == [];
    assert [blank] + SplitLines([]).0 == [blank];
    var lines := SplitLines(body).0;
    FeedLinesAppend(Parsed([], []), lines, [blank]);
    assert [blank][1..] == [];
    ConformsIff(text);
  }

  lemma EndsAtLf(head: string)
    ensures SplitLines(head + "\n").1 == []
  {
    var tail := SplitLines(head).1;
    TailHasNoLf(head);
    SplitAppend(head, "\n");
    var t := tail + "\n";
    assert t[|tail|] == '\n' && forall j | 0 <= j < |tail| :: t[j] == tail[j];
    assert IndexOf(t, '\n') == |tail| && t[..|tail|] == tail && t[|tail| + 1..] == [];
    SplitStep(t, tail, []);
  }
}
