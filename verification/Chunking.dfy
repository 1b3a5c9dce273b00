/** What cutting characters at chunk boundaries does to the parsed payloads.

    A text decoded whole and the same text decoded chunk by chunk are compared glyph by
    glyph: a glyph is one character of the whole text, and its width is how many characters
    the chunk-wise text shows for it. */
module Chunking {
  import opened Prelude
  import opened Utf8
  import opened Sse

  /** The text ends inside the value of a `data` line. */
  predicate InDataValue(text: string) {
    var (field, found, _) := Partition(SplitLines(text).1, ':');
    found && field == "data"
  }

  /** The boundary between the bytes before and the next chunk cuts a character inside the
      value of a `data` line. */
  predicate CutsValue(before: seq<Byte>, chunk: seq<Byte>) {
    Cuts(before, chunk) && InDataValue(Decode(before))
  }

  /** No boundary of the chunks cuts a character inside the value of a `data` line. */
  predicate NoValueCuts(chunks: seq<seq<Byte>>) {
    chunks == []
    || (var before, last := chunks[..|chunks| - 1], chunks[|chunks| - 1];
        NoValueCuts(before) && !CutsValue(Flatten(before), last))
  }

  // --- Glyphs ----------------------------------------------------------------

  datatype Glyph = Glyph(c: char, width: nat)

  /** Only a character outside ASCII can be shown in pieces. */
  predicate ValidGlyphs(g: seq<Glyph>) {
    forall i | 0 <= i < |g| :: g[i].width >= 1 && (g[i].width > 1 ==> g[i].c as int >= 0x80)
  }

  function Replacements(n: nat): string {
    seq(n, i => REPLACEMENT)
  }

  function Shown(x: Glyph): string {
    if x.width == 1 then [x.c] else Replacements(x.width)
  }

  function Whole(g: seq<Glyph>): string {
    seq(|g|, i requires 0 <= i < |g| => g[i].c)
  }

  function Pieces(g: seq<Glyph>): string {
    if g == [] then "" else Pieces(g[..|g| - 1]) + Shown(g[|g| - 1])
  }

  function Plain(text: string): seq<Glyph> {
    seq(|text|, i requires 0 <= i < |text| => Glyph(text[i], 1))
  }

  lemma PiecesSnoc(g: seq<Glyph>, x: Glyph)
    ensures Pieces(g + [x]) == Pieces(g) + Shown(x)
    ensures Whole(g + [x]) == Whole(g) + [x.c]
  {
    assert (g + [x])[..|g|] == g;
  }

  lemma {:induction false} PiecesAppend(a: seq<Glyph>, b: seq<Glyph>)
    ensures Pieces(a + b) == Pieces(a) + Pieces(b) && Whole(a + b) == Whole(a) + Whole(b)
    decreases |b|
  {
    if b == [] {
      assert a + b == a;
    } else {
      var init, x := b[..|b| - 1], b[|b| - 1];
      assert b == init + [x] && a + b == (a + init) + [x];
      PiecesAppend(a, init);
      PiecesSnoc(a + init, x);
      PiecesSnoc(init, x);
      Associative(Pieces(a), Pieces(init), Shown(x));
      hide Pieces, Shown;
    }
  }

  lemma {:induction false} PlainText(text: string)
    ensures Pieces(Plain(text)) == text && Whole(Plain(text)) == text && ValidGlyphs(Plain(text))
    decreases |text|
  {
    if text != "" {
      var n := |text| - 1;
      PlainText(text[..n]);
      assert Plain(text) == Plain(text[..n]) + [Glyph(text[n], 1)];
      PiecesSnoc(Plain(text[..n]), Glyph(text[n], 1));
      assert text == text[..n] + [text[n]];
    }
  }

  /** A character inside a `data` value is shown in pieces. */
  ghost predicate Dirty(g: seq<Glyph>) {
    exists i :: DirtyAt(g, i)
  }

  predicate DirtyAt(g: seq<Glyph>, i: int) {
    0 <= i < |g| && g[i].width > 1 && InDataValue(Whole(g[..i]))
  }

  lemma DirtySnoc(g: seq<Glyph>, x: Glyph)
    ensures Dirty(g + [x]) <==> Dirty(g) || (x.width > 1 && InDataValue(Whole(g)))
  {
    hide InDataValue, Whole;
    var all := g + [x];
    assert all[..|g|] == g;
    forall i | 0 <= i < |g|
      ensures DirtyAt(all, i) == DirtyAt(g, i)
    {
      assert all[..i] == g[..i];
    }
    assert DirtyAt(all, |g|) <==> x.width > 1 && InDataValue(Whole(g));
    if Dirty(g) {
      var i :| DirtyAt(g, i);
      assert DirtyAt(all, i);
    }
    if Dirty(all) {
      var i :| DirtyAt(all, i);
      assert i < |g| ==> DirtyAt(g, i);
    }
  }

  lemma {:induction false} DirtyPlain(g: seq<Glyph>, text: string)
    ensures Dirty(g + Plain(text)) <==> Dirty(g)
    decreases |text|
  {
    if text == "" {
      assert g + Plain(text) == g;
    } else {
      var n := |text| - 1;
      DirtyPlain(g, text[..n]);
      DirtySnoc(g + Plain(text[..n]), Glyph(text[n], 1));
      assert g + Plain(text) == (g + Plain(text[..n])) + [Glyph(text[n], 1)];
    }
  }

  // --- From bytes to glyphs ----------------------------------------------------

  lemma BeyondAscii(p: seq<Byte>)
    requires Complete(p) && |p| > 1
    ensures Character(p) as int >= 0x80
  {
    assert Accepts(p[..1], p[1]);
    assert |p| > 2 ==> Accepts(p[..2], p[2]);
    assert |p| > 3 ==> Accepts(p[..3], p[3]);
  }

  lemma ContinueStep(p: seq<Byte>, b: seq<Byte>)
    requires Incomplete(p) && p != [] && b != [] && Accepts(p, b[0])
    ensures var q := p + [b[0]];
            && Decode(b) == [REPLACEMENT] + Decode(b[1..])
            && (if |q| == SequenceLength(q[0]) then
                  Complete(q) && DecodeFrom(p, b) == [Character(q)] + Decode(b[1..]) && Character(q) as int >= 0x80
                else
                  Incomplete(q) && DecodeFrom(p, b) == DecodeFrom(q, b[1..]))
  {
    Extend(p, b[0]);
    var q := p + [b[0]];
    if |q| == SequenceLength(q[0]) {
      BeyondAscii(q);
    }
  }

  lemma OneReplacementMore(n: nat, rest: string)
    ensures [REPLACEMENT] + (Replacements(n) + rest) == Replacements(n + 1) + rest
  {
    assert Replacements(n + 1) == [REPLACEMENT] + Replacements(n);
    Associative([REPLACEMENT], Replacements(n), rest);
  }

  /** Bytes that continue a pending sequence make one character with it, and are one
      replacement character each without it. */
  lemma {:induction false} Continues(p: seq<Byte>, b: seq<Byte>) returns (c: char, n: nat, rest: string)
    requires Incomplete(p) && p != [] && b != [] && Accepts(p, b[0])
    ensures n >= 1 && c as int >= 0x80
    ensures DecodeFrom(p, b) == [c] + rest && Decode(b) == Replacements(n) + rest
    decreases |b|
  {
    hide DecodeFrom, Decode, Replacements, Character, Accepts;
    ContinueStep(p, b);
    var q, tail := p + [b[0]], b[1..];
    if |q| == SequenceLength(q[0]) {
      c, n, rest := Character(q), 1, Decode(tail);
      OneReplacementMore(0, rest);
      NoReplacement(rest);
    } else {
      PendingCost(q, tail);
      if tail != [] && Accepts(q, tail[0]) {
        var m: nat;
        c, m, rest := Continues(q, tail);
        n := m + 1;
        OneReplacementMore(m, rest);
      } else {
        c, n, rest := REPLACEMENT, 1, Decode(tail);
        OneReplacementMore(0, rest);
        NoReplacement(rest);
      }
    }
  }

  lemma NoReplacement(rest: string)
    ensures Replacements(0) + rest == rest
  {
  }

  lemma {:induction false} DecodeChunksSnoc(chunks: seq<seq<Byte>>, last: seq<Byte>)
    ensures DecodeChunks(chunks + [last]) == DecodeChunks(chunks) + Decode(last)
    ensures Flatten(chunks + [last]) == Flatten(chunks) + last
  {
    FlattenAppend(chunks, [last]);
    assert [last][1..] == [];
    if chunks != [] {
      assert (chunks + [last])[1..] == chunks[1..] + [last];
      DecodeChunksSnoc(chunks[1..], last);
      Associative(Decode(chunks[0]), DecodeChunks(chunks[1..]), Decode(last));
    } else {
      assert chunks + [last] == [last];
    }
  }

  /** The glyphs of a text and what reading one more chunk makes of them. */
  lemma OneMoreChunk(g: seq<Glyph>, before: seq<Byte>, chunk: seq<Byte>) returns (g': seq<Glyph>)
    requires ValidGlyphs(g) && Whole(g) == Decode(before)
    ensures ValidGlyphs(g') && Whole(g') == Decode(before + chunk) && Pieces(g') == Pieces(g) + Decode(chunk)
    ensures Dirty(g') <==> Dirty(g) || CutsValue(before, chunk)
  {
    hide InDataValue, Dirty;
    if Cuts(before, chunk) {
      g' := CutChunk(g, before, chunk);
    } else {
      TwoChunks(before, chunk);
      PlainText(Decode(chunk));
      PiecesAppend(g, Plain(Decode(chunk)));
      DirtyPlain(g, Decode(chunk));
      g' := g + Plain(Decode(chunk));
    }
  }

  /** One more character that ends no line and no field changes nothing about being inside a
      `data` value, unless it is a colon. */
  lemma StaysInValue(text: string, c: char)
    requires c as int >= 0x80
    ensures InDataValue(text + [c]) == InDataValue(text)
  {
    SplitAppend(text, [c]);
    var tail := SplitLines(text).1;
    TailHasNoLf(text);
    var t := tail + [c];
    assert IndexOf(t, '\n') == |t|;
    PartitionAppend(tail, [c], ':');
    assert IndexOf([c], ':') == 1;
    var (field, found, _) := Partition(tail, ':');
    if !found {
      assert !Partition(t, ':').1;
    }
  }

  /** The glyph of a text's last character. */
  lemma LastGlyph(g: seq<Glyph>, out: string, c: char) returns (head: seq<Glyph>, x: Glyph)
    requires ValidGlyphs(g) && Whole(g) == out + [c]
    ensures g == head + [x] && Whole(head) == out && x.c == c && x.width >= 1 && ValidGlyphs(head)
  {
    assert |g| == |out| + 1;
    head, x := g[..|out|], g[|out|];
    assert Whole(g)[|out|] == c;
    forall i | 0 <= i < |out|
      ensures Whole(head)[i] == out[i]
    {
      assert Whole(g)[i] == out[i];
    }
  }

  lemma CutChunk(g: seq<Glyph>, before: seq<Byte>, chunk: seq<Byte>) returns (g': seq<Glyph>)
    requires ValidGlyphs(g) && Whole(g) == Decode(before) && Cuts(before, chunk)
    ensures ValidGlyphs(g') && Whole(g') == Decode(before + chunk) && Pieces(g') == Pieces(g) + Decode(chunk)
    ensures Dirty(g') <==> Dirty(g) || InDataValue(Decode(before))
  {
    var out := DecodeAppend([], before, chunk);
    var c, n, rest := Continues(PendingAfter([], before), chunk);
    hide InDataValue, Dirty, DecodeFrom, PendingAfter;
    assert Decode(before) == out + [REPLACEMENT];
    var head, x := LastGlyph(g, out, REPLACEMENT);
    g' := Widened(head, x, c, n, rest);
    Associative(out, [c], rest);
    StaysInValue(out, REPLACEMENT);
  }

  lemma Widened(head: seq<Glyph>, x: Glyph, c: char, n: nat, rest: string) returns (g': seq<Glyph>)
    requires ValidGlyphs(head) && x.c == REPLACEMENT && x.width >= 1 && n >= 1 && c as int >= 0x80
    ensures ValidGlyphs(g') && Whole(g') == Whole(head) + [c] + rest
    ensures Pieces(g') == Pieces(head + [x]) + (Replacements(n) + rest)
    ensures Dirty(g') <==> Dirty(head + [x]) || InDataValue(Whole(head))
  {
    hide InDataValue, Dirty, Pieces, Shown;
    var cut := Glyph(c, x.width + n);
    PiecesSnoc(head, x);
    PiecesSnoc(head, cut);
    PiecesAppend(head + [cut], Plain(rest));
    PlainText(rest);
    g' := head + [cut] + Plain(rest);
    CutShown(Pieces(head), x, c, n, rest);
    DirtySnoc(head, x);
    DirtySnoc(head, cut);
    DirtyPlain(head + [cut], rest);
  }

  /** The pieces of a cut glyph and then those of the rest. */
  lemma CutShown(head: string, x: Glyph, c: char, n: nat, rest: string)
    requires x.c == REPLACEMENT && x.width >= 1 && n >= 1
    ensures (head + Shown(Glyph(c, x.width + n))) + rest == (head + Shown(x)) + (Replacements(n) + rest)
  {
    assert Shown(x) == Replacements(x.width);
    assert Replacements(x.width + n) == Replacements(x.width) + Replacements(n);
  }

  /** The two texts of a chunked stream, glyph by glyph. */
  lemma {:induction false} GlyphsOf(chunks: seq<seq<Byte>>) returns (g: seq<Glyph>)
    ensures ValidGlyphs(g) && Whole(g) == Decode(Flatten(chunks)) && Pieces(g) == DecodeChunks(chunks)
    ensures Dirty(g) <==> !NoValueCuts(chunks)
    decreases |chunks|
  {
    if chunks == [] {
      g := [];
    } else {
      var before, last := chunks[..|chunks| - 1], chunks[|chunks| - 1];
      assert chunks == before + [last];
      var h := GlyphsOf(before);
      DecodeChunksSnoc(before, last);
      g := OneMoreChunk(h, Flatten(before), last);
    }
  }

  // --- Lines of glyphs -------------------------------------------------------

  /** Where ASCII characters stand in the whole text, they stand in the pieces. */
  lemma {:induction false} SepStays(g: seq<Glyph>, sep: char)
    requires ValidGlyphs(g) && sep as int < 0x80 && forall i | 0 <= i < |g| :: g[i].c != sep
    ensures sep !in Pieces(g) && sep !in Whole(g)
    decreases |g|
  {
    if g != [] {
      SepStays(g[..|g| - 1], sep);
    }
  }

  function FirstGlyph(g: seq<Glyph>, sep: char): (i: nat)
    ensures i <= |g| && (i < |g| ==> g[i].c == sep)
    ensures forall j | 0 <= j < i :: g[j].c != sep
  {
    IndexWhere(g, (x: Glyph) => x.c == sep)
  }

  lemma PartitionAt(head: string, sep: char, tail: string)
    requires sep !in head
    ensures Partition(head + [sep] + tail, sep) == (head, true, tail)
    ensures Partition(head, sep) == (head, false, [])
  {
    var text := head + [sep] + tail;
    assert text[|head|] == sep && forall j | 0 <= j < |head| :: text[j] == head[j];
    IndexIs(text, sep, |head|);
    IndexIs(head, sep, |head|);
    assert text[..|head|] == head && text[|head| + 1..] == tail;
  }

  /** Both texts split at the same glyph. */
  lemma PartitionGlyphs(g: seq<Glyph>, sep: char)
    requires ValidGlyphs(g) && sep as int < 0x80
    ensures var i := FirstGlyph(g, sep);
            if i == |g| then
              Partition(Whole(g), sep) == (Whole(g), false, []) && Partition(Pieces(g), sep) == (Pieces(g), false, [])
            else Partition(Whole(g), sep) == (Whole(g[..i]), true, Whole(g[i + 1..]))
                 && Partition(Pieces(g), sep) == (Pieces(g[..i]), true, Pieces(g[i + 1..]))
  {
    var i := FirstGlyph(g, sep);
    hide Partition, FirstGlyph, Pieces, Whole;
    if i == |g| {
      SepStays(g, sep);
      PartitionAt(Whole(g), sep, []);
      PartitionAt(Pieces(g), sep, []);
    } else {
      var head, tail := g[..i], g[i + 1..];
      SepStays(head, sep);
      PartitionAt(Whole(head), sep, Whole(tail));
      PartitionAt(Pieces(head), sep, Pieces(tail));
      assert g == head + [g[i]] + tail && Shown(g[i]) == [sep];
      PiecesSnoc(head, g[i]);
      PiecesAppend(head + [g[i]], tail);
    }
  }

  function StripGlyphs(g: seq<Glyph>): (r: seq<Glyph>)
    ensures r <= g && (r != [] ==> r[|r| - 1].c != '\r')
    ensures forall i | |r| <= i < |g| :: g[i].c == '\r'
    decreases |g|
  {
    if g != [] && g[|g| - 1].c == '\r' then StripGlyphs(g[..|g| - 1]) else g
  }

  lemma {:induction false} StripBoth(g: seq<Glyph>)
    requires ValidGlyphs(g)
    ensures StripCr(Whole(g)) == Whole(StripGlyphs(g)) && StripCr(Pieces(g)) == Pieces(StripGlyphs(g))
    decreases |g|
  {
    if g != [] {
      var init, x := g[..|g| - 1], g[|g| - 1];
      assert g == init + [x];
      PiecesSnoc(init, x);
      if x.c == '\r' {
        StripBoth(init);
        assert (Pieces(init) + ['\r'])[..|Pieces(init)|] == Pieces(init);
        assert Whole(g)[..|g| - 1] == Whole(init);
      } else {
        var shown := Shown(x);
        assert Pieces(g)[|Pieces(g)| - 1] == shown[|shown| - 1];
      }
    }
  }

  // --- One line, whole and in pieces -------------------------------------------

  /** What the pieces of a text add to its length. */
  predicate InPieces(g: seq<Glyph>) {
    exists i | 0 <= i < |g| :: g[i].width > 1
  }

  lemma {:induction false} PiecesLonger(g: seq<Glyph>)
    requires ValidGlyphs(g)
    ensures InPieces(g) ==> |Whole(g)| < |Pieces(g)| && REPLACEMENT in Pieces(g)
    ensures !InPieces(g) ==> Pieces(g) == Whole(g)
    decreases |g|
  {
    if g != [] {
      var init, x := g[..|g| - 1], g[|g| - 1];
      PiecesLonger(init);
      if !InPieces(g) {
        assert x.width == 1 && Whole(g) == Whole(init) + [x.c];
        assert !InPieces(init);
      } else if x.width > 1 {
        assert Replacements(x.width)[0] == REPLACEMENT;
      } else {
        assert InPieces(init);
      }
      if !InPieces(init) {
        assert |Pieces(init)| == |init|;
      }
    }
  }

  lemma OneLineField(text: string)
    requires '\n' !in text
    ensures InDataValue(text) <==> Partition(text, ':').1 && Partition(text, ':').0 == "data"
  {
    IndexIs(text, '\n', |text|);
    hide IndexOf;
  }

  lemma FirstOfPrefix(l: seq<Glyph>, sep: char, j: nat)
    requires j <= |l|
    ensures FirstGlyph(l[..j], sep) == if FirstGlyph(l, sep) < j then FirstGlyph(l, sep) else j
  {
    var head := l[..j];
    var i, f := FirstGlyph(head, sep), FirstGlyph(l, sep);
    hide FirstGlyph;
    assert forall k | 0 <= k < j :: head[k] == l[k];
  }

  /** What a line shows is in its data value: the position of its first colon decides. */
  lemma DirtyLineAt(l: seq<Glyph>, j: nat)
    requires ValidGlyphs(l) && j <= |l| && forall i | 0 <= i < |l| :: l[i].c != '\n'
    ensures InDataValue(Whole(l[..j])) <==> FirstGlyph(l, ':') < j && Whole(l[..FirstGlyph(l, ':')]) == "data"
  {
    hide InDataValue, Partition, FirstGlyph, Whole;
    var head := l[..j];
    SepStays(head, '\n');
    OneLineField(Whole(head));
    PartitionGlyphs(head, ':');
    FirstOfPrefix(l, ':', j);
    if FirstGlyph(l, ':') < j {
      assert head[..FirstGlyph(l, ':')] == l[..FirstGlyph(l, ':')];
    }
  }

  lemma DirtyLine(l: seq<Glyph>)
    requires ValidGlyphs(l) && forall i | 0 <= i < |l| :: l[i].c != '\n'
    ensures var i := FirstGlyph(l, ':');
            Dirty(l) <==> i < |l| && Whole(l[..i]) == "data" && InPieces(l[i + 1..])
  {
    hide InDataValue, FirstGlyph, Whole;
    var i := FirstGlyph(l, ':');
    forall j: nat | j < |l|
      ensures DirtyAt(l, j) <==> l[j].width > 1 && i < j && Whole(l[..i]) == "data"
    {
      DirtyLineAt(l, j);
    }
    if Dirty(l) {
      var j :| DirtyAt(l, j);
      assert l[i + 1..][j - i - 1].width > 1;
    }
    if i < |l| && Whole(l[..i]) == "data" && InPieces(l[i + 1..]) {
      var k :| 0 <= k < |l[i + 1..]| && l[i + 1..][k].width > 1;
      assert DirtyAt(l, i + 1 + k);
    }
  }

  /** A field name is `data` in both texts or in neither. */
  lemma FieldBoth(f: seq<Glyph>)
    requires ValidGlyphs(f)
    ensures Whole(f) == "data" <==> Pieces(f) == "data"
    ensures Whole(f) == "data" ==> !InPieces(f)
  {
    PiecesLonger(f);
    if Whole(f) == "data" {
      forall i | 0 <= i < |f|
        ensures f[i].width == 1
      {
        assert Whole(f)[i] as int < 0x80;
      }
    }
  }

  lemma HeadGlyph(t: seq<Glyph>)
    requires t != []
    ensures Pieces(t) == Shown(t[0]) + Pieces(t[1..]) && Whole(t) == [t[0].c] + Whole(t[1..])
  {
    assert t == [t[0]] + t[1..];
    PiecesAppend([t[0]], t[1..]);
    PiecesSnoc([], t[0]);
    assert [] + [t[0]] == [t[0]] && Pieces([]) + Shown(t[0]) == Shown(t[0]);
  }

  /** `value[1:]` where it starts with a space. */
  function Unspaced(value: string): string {
    if value != [] && value[0] == ' ' then value[1..] else value
  }

  /** Both values after removing the optional leading space. */
  lemma ValueBoth(t: seq<Glyph>)
    requires ValidGlyphs(t)
    ensures var u, v := Unspaced(Whole(t)), Unspaced(Pieces(t));
            (InPieces(t) ==> |u| < |v|) && (!InPieces(t) ==> u == v)
  {
    PiecesLonger(t);
    if t != [] {
      HeadGlyph(t);
      hide Whole, Pieces;
      if t[0].c == ' ' {
        PiecesLonger(t[1..]);
        assert InPieces(t) <==> InPieces(t[1..]) by { SpaceFirst(t); }
        assert Unspaced(Whole(t)) == Whole(t[1..]) && Unspaced(Pieces(t)) == Pieces(t[1..]);
      } else {
        assert Pieces(t)[0] == Shown(t[0])[0] != ' ';
      }
    }
  }

  lemma SpaceFirst(t: seq<Glyph>)
    requires ValidGlyphs(t) && t != [] && t[0].c == ' '
    ensures InPieces(t) <==> InPieces(t[1..])
  {
    if InPieces(t) {
      var i :| 0 <= i < |t| && t[i].width > 1;
      assert t[1..][i - 1].width > 1;
    }
  }

  /** What a stripped line holds for the parser. */
  datatype Effect = Blank | Ignored | Data(value: string)

  function EffectOf(line: string): Effect {
    if line == [] then Blank
    else if line[0] == ':' then Ignored
    else
      var value := DataValue(line);
      if value.Some? then Data(value.value) else Ignored
  }

  lemma EffectBy(line: string, field: string, found: bool, value: string)
    requires Partition(line, ':') == (field, found, value) && line != [] && line[0] != ':' && (!found ==> value == [])
    ensures EffectOf(line) == if field == "data" then Data(Unspaced(value)) else Ignored
  {
    hide Partition;
  }

  lemma CommentEffect(line: string)
    ensures line == [] ==> EffectOf(line).Blank?
    ensures line != [] && line[0] == ':' ==> EffectOf(line).Ignored?
  {
  }

  lemma ColonFirst(s: seq<Glyph>)
    requires s != []
    ensures s[0].c == ':' <==> FirstGlyph(s, ':') == 0
  {
  }

  /** A line has the same effect on both texts, and its value is the same exactly when no
      character of the value is in pieces; otherwise it is longer. */
  lemma StrippedBoth(s: seq<Glyph>)
    requires ValidGlyphs(s) && forall i | 0 <= i < |s| :: s[i].c != '\n'
    ensures var e, e' := EffectOf(Whole(s)), EffectOf(Pieces(s));
            && (e.Blank? <==> e'.Blank?) && (e.Data? <==> e'.Data?)
            && (Dirty(s) ==> e.Data? && |e.value| < |e'.value|) && (!Dirty(s) && e.Data? ==> e == e')
  {
    hide Whole, Pieces, Partition, FirstGlyph, Dirty, InPieces, EffectOf, Unspaced;
    DirtyLine(s);
    PartitionGlyphs(s, ':');
    FirstCharacter(s);
    CommentEffect(Whole(s));
    CommentEffect(Pieces(s));
    if s != [] {
      ColonFirst(s);
      var i := FirstGlyph(s, ':');
      FieldBoth(s[..i]);
      if i == 0 {
        assert Whole(s[..0]) == "" by { NoGlyphs(); assert s[..0] == []; }
      } else if i < |s| {
        ValueBoth(s[i + 1..]);
        EffectBy(Whole(s), Whole(s[..i]), true, Whole(s[i + 1..]));
        EffectBy(Pieces(s), Pieces(s[..i]), true, Pieces(s[i + 1..]));
      } else {
        assert s[..i] == s;
        EffectBy(Whole(s), Whole(s), false, []);
        EffectBy(Pieces(s), Pieces(s), false, []);
      }
    }
  }

  lemma NoGlyphs()
    ensures Whole([]) == ""
  {
  }

  lemma FirstCharacter(s: seq<Glyph>)
    requires ValidGlyphs(s)
    ensures (s == [] <==> Whole(s) == []) && (s == [] <==> Pieces(s) == [])
    ensures s != [] ==> (Whole(s)[0] == ':' <==> s[0].c == ':') && (Pieces(s)[0] == ':' <==> s[0].c == ':')
  {
    if s != [] {
      HeadGlyph(s);
    }
  }

  lemma DirtyStripped(l: seq<Glyph>)
    requires ValidGlyphs(l) && forall i | 0 <= i < |l| :: l[i].c != '\n'
    ensures Dirty(StripGlyphs(l)) <==> Dirty(l)
  {
    var s := StripGlyphs(l);
    forall i
      ensures DirtyAt(s, i) <==> DirtyAt(l, i)
    {
      if 0 <= i < |s| {
        assert s[..i] == l[..i];
      } else if |s| <= i < |l| {
        assert l[i].c == '\r';
      }
    }
    hide DirtyAt, StripGlyphs;
    if Dirty(s) {
      var i :| DirtyAt(s, i);
      assert DirtyAt(l, i);
    }
    if Dirty(l) {
      var i :| DirtyAt(l, i);
      assert DirtyAt(s, i);
    }
  }

  // --- The parser on both texts ------------------------------------------------

  function Total(texts: seq<string>): nat {
    if texts == [] then 0 else Total(texts[..|texts| - 1]) + |texts[|texts| - 1]|
  }

  lemma TotalSnoc(texts: seq<string>, last: string)
    ensures Total(texts + [last]) == Total(texts) + |last|
  {
    assert (texts + [last])[..|texts|] == texts;
  }

  lemma {:induction false} JoinLength(lines: seq<string>)
    requires lines != []
    ensures |JoinLf(lines)| + 1 == Total(lines) + |lines|
    decreases |lines|
  {
    if |lines| > 1 {
      JoinLength(lines[..|lines| - 1]);
    } else {
      assert Total(lines[..0]) == 0;
    }
  }

  /** The parser's state on the pieces against that on the whole text: the same while no
      value was in pieces, and holding more text for as many lines and events since. */
  predicate Ahead(p: Parsed, p': Parsed, dirty: bool) {
    && |p.open| == |p'.open| && |p.payloads| == |p'.payloads|
    && if dirty then Total(p.payloads) + Total(p.open) < Total(p'.payloads) + Total(p'.open) else p == p'
  }

  function Apply(p: Parsed, e: Effect): Parsed {
    match e
    case Blank => if p.open == [] then p else Parsed(p.payloads + [JoinLf(p.open)], [])
    case Ignored => p
    case Data(value) => Parsed(p.payloads, p.open + [value])
  }

  lemma FeedIsApply(p: Parsed, raw: string)
    ensures FeedLine(p, raw) == Apply(p, EffectOf(StripCr(raw)))
  {
  }

  lemma ApplyBoth(p: Parsed, p': Parsed, dirty: bool, e: Effect, e': Effect, more: bool)
    requires Ahead(p, p', dirty)
    requires (e.Blank? <==> e'.Blank?) && (e.Data? <==> e'.Data?)
    requires (more ==> e.Data? && |e.value| < |e'.value|) && (!more && e.Data? ==> e == e')
    ensures Ahead(Apply(p, e), Apply(p', e'), dirty || more)
  {
    if e.Blank? && p.open != [] {
      JoinLength(p.open);
      JoinLength(p'.open);
      TotalSnoc(p.payloads, JoinLf(p.open));
      TotalSnoc(p'.payloads, JoinLf(p'.open));
      hide Total, JoinLf;
      assert Total([]) == 0 by { TotalNone(); }
    } else if e.Data? {
      TotalSnoc(p.open, e.value);
      TotalSnoc(p'.open, e'.value);
      hide Total;
    }
  }

  lemma TotalNone()
    ensures Total([]) == 0
  {
  }

  lemma FeedBoth(p: Parsed, p': Parsed, dirty: bool, l: seq<Glyph>)
    requires Ahead(p, p', dirty) && ValidGlyphs(l) && forall i | 0 <= i < |l| :: l[i].c != '\n'
    ensures Ahead(FeedLine(p, Whole(l)), FeedLine(p', Pieces(l)), dirty || Dirty(l))
  {
    hide Ahead, Dirty, EffectOf, Apply, FeedLine, StripCr, Whole, Pieces;
    var s := StripGlyphs(l);
    StripBoth(l);
    DirtyStripped(l);
    StrippedBoth(s);
    FeedIsApply(p, Whole(l));
    FeedIsApply(p', Pieces(l));
    ApplyBoth(p, p', dirty, EffectOf(Whole(s)), EffectOf(Pieces(s)), Dirty(s));
  }

  /** A text's lines and rest in glyphs, and feeding the lines to both parsers. */
  lemma {:induction false} TextBoth(p: Parsed, p': Parsed, dirty: bool, g: seq<Glyph>)
    returns (tail: seq<Glyph>, dirty': bool)
    requires Ahead(p, p', dirty) && ValidGlyphs(g)
    ensures ValidGlyphs(tail) && forall i | 0 <= i < |tail| :: tail[i].c != '\n'
    ensures SplitLines(Whole(g)).1 == Whole(tail) && SplitLines(Pieces(g)).1 == Pieces(tail)
    ensures Ahead(FeedLines(p, SplitLines(Whole(g)).0), FeedLines(p', SplitLines(Pieces(g)).0), dirty')
    ensures dirty' || Dirty(tail) <==> dirty || Dirty(g)
    decreases |g|
  {
    hide Ahead, Dirty, FeedLine, FeedLines, SplitLines, Whole, Pieces, Partition, FirstGlyph, ValidGlyphs;
    PartitionGlyphs(g, '\n');
    var i := FirstGlyph(g, '\n');
    if i == |g| {
      tail, dirty' := g, dirty;
      NoLineYet(Whole(g));
      NoLineYet(Pieces(g));
      FeedNone(p);
      FeedNone(p');
    } else {
      var line, rest := g[..i], g[i + 1..];
      PartsValid(g, i);
      FeedBoth(p, p', dirty, line);
      var q, q' := FeedLine(p, Whole(line)), FeedLine(p', Pieces(line));
      tail, dirty' := TextBoth(q, q', dirty || Dirty(line), rest);
      DirtyAfterLine(g, i);
      SplitStep(Whole(g), Whole(line), Whole(rest));
      SplitStep(Pieces(g), Pieces(line), Pieces(rest));
      FeedFirst(p, Whole(line), SplitLines(Whole(rest)).0);
      FeedFirst(p', Pieces(line), SplitLines(Pieces(rest)).0);
    }
  }

  lemma FeedNone(p: Parsed)
    ensures FeedLines(p, []) == p
  {
  }

  lemma PartsValid(g: seq<Glyph>, i: nat)
    requires i < |g| && ValidGlyphs(g)
    ensures ValidGlyphs(g[..i]) && ValidGlyphs(g[i + 1..])
  {
  }

  lemma FeedFirst(p: Parsed, line: string, lines: seq<string>)
    ensures FeedLines(p, [line] + lines) == FeedLines(FeedLine(p, line), lines)
  {
    assert ([line] + lines)[1..] == lines;
  }

  lemma DirtyAfterLine(g: seq<Glyph>, i: nat)
    requires ValidGlyphs(g) && i < |g| && g[i].c == '\n' && forall j | 0 <= j < i :: g[j].c != '\n'
    ensures Dirty(g) <==> Dirty(g[..i]) || Dirty(g[i + 1..])
  {
    var line, rest := g[..i], g[i + 1..];
    forall j
      ensures DirtyAt(g, j) <==> if j < i then DirtyAt(line, j) else DirtyAt(rest, j - i - 1)
    {
      if 0 <= j < i {
        assert g[..j] == line[..j];
      } else if i < j < |g| {
        var t := rest[..j - i - 1];
        assert g[..j] == line + [g[i]] + t;
        assert Whole(g[..j]) == Whole(line) + ['\n'] + Whole(t);
        SepStays(line, '\n');
        PartitionAt(Whole(line), '\n', Whole(t));
        SplitStep(Whole(g[..j]), Whole(line), Whole(t));
      }
    }
    hide DirtyAt;
    if Dirty(g) {
      var j :| DirtyAt(g, j);
      assert if j < i then DirtyAt(line, j) else DirtyAt(rest, j - i - 1);
    }
    if Dirty(line) {
      var j :| DirtyAt(line, j);
      LineIndex(line, j);
      assert DirtyAt(g, j);
    }
    if Dirty(rest) {
      var j :| DirtyAt(rest, j);
      LineIndex(rest, j);
      assert DirtyAt(g, j + i + 1);
    }
  }

  lemma LineIndex(g: seq<Glyph>, i: int)
    requires DirtyAt(g, i)
    ensures 0 <= i < |g|
  {
  }

  lemma FinishIsFeed(p: Parsed, buffer: string)
    ensures Finish(p, buffer) == FeedLine(FeedLine(p, buffer), []).payloads
    ensures FeedLine(FeedLine(p, buffer), []).open == []
  {
  }

  lemma ParseBoth(g: seq<Glyph>)
    requires ValidGlyphs(g)
    ensures Parse(Pieces(g)) == Parse(Whole(g)) <==> !Dirty(g)
  {
    hide Dirty, FeedLine, FeedLines, SplitLines, Whole, Pieces;
    var none := Parsed([], []);
    var tail, dirty := TextBoth(none, none, false, g);
    var p, p' := ParseLines(Whole(g)), ParseLines(Pieces(g));
    FeedBoth(p, p', dirty, tail);
    var q, q' := FeedLine(p, Whole(tail)), FeedLine(p', Pieces(tail));
    BlankBoth(q, q', Dirty(g));
    FinishIsFeed(p, Whole(tail));
    FinishIsFeed(p', Pieces(tail));
    hide Finish, ParseLines;
    EmptyOpen(FeedLine(q, []), FeedLine(q', []), Dirty(g));
  }

  lemma BlankBoth(p: Parsed, p': Parsed, dirty: bool)
    requires Ahead(p, p', dirty)
    ensures Ahead(FeedLine(p, []), FeedLine(p', []), dirty)
  {
    FeedIsApply(p, []);
    FeedIsApply(p', []);
    ApplyBoth(p, p', dirty, Blank, Blank, false);
  }

  lemma EmptyOpen(p: Parsed, p': Parsed, dirty: bool)
    requires Ahead(p, p', dirty) && p.open == [] && p'.open == []
    ensures p.payloads == p'.payloads <==> !dirty
  {
  }

  /** Parsing chunk by chunk gives the payloads of the whole stream if and only if no chunk
      boundary cuts a character inside the value of a `data` line. */
  lemma PayloadsAgreeIff(chunks: seq<seq<Byte>>)
    ensures Parse(DecodeChunks(chunks)) == Parse(Decode(Flatten(chunks))) <==> NoValueCuts(chunks)
  {
    var g := GlyphsOf(chunks);
    ParseBoth(g);
  }

  /** Where the network splits the stream does not matter, unless it splits a character of a
      `data` value. */
  lemma ChunkingIrrelevant(chunks: seq<seq<Byte>>, chunks': seq<seq<Byte>>)
    requires Flatten(chunks) == Flatten(chunks') && NoValueCuts(chunks)
    ensures Parse(DecodeChunks(chunks)) == Parse(DecodeChunks(chunks')) <==> NoValueCuts(chunks')
  {
    PayloadsAgreeIff(chunks);
    PayloadsAgreeIff(chunks');
  }
}
