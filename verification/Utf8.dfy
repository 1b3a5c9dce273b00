/** Decoding UTF-8 with replacement, one network chunk at a time.

    The gateway decodes each chunk on its own. `ChunkwiseIff` gives the exact condition
    under which that equals decoding the whole stream: no chunk boundary may fall inside
    a byte sequence. */
module Utf8 {
  import opened Prelude

  type Byte = b: int | 0 <= b < 256

  const REPLACEMENT := '\U{FFFD}'

  /** How many bytes a sequence starting with `b` has; 0 when none starts with it. */
  function SequenceLength(b: Byte): nat {
    if b < 0x80 then 1
    else if 0xC2 <= b <= 0xDF then 2
    else if 0xE0 <= b <= 0xEF then 3
    else if 0xF0 <= b <= 0xF4 then 4
    else 0
  }

  /** `b` can follow the incomplete sequence `pending`. */
  predicate Accepts(pending: seq<Byte>, b: Byte)
    requires pending != []
  {
    if |pending| > 1 then 0x80 <= b <= 0xBF
    else if pending[0] == 0xE0 then 0xA0 <= b <= 0xBF
    else if pending[0] == 0xED then 0x80 <= b <= 0x9F
    else if pending[0] == 0xF0 then 0x90 <= b <= 0xBF
    else if pending[0] == 0xF4 then 0x80 <= b <= 0x8F
    else 0x80 <= b <= 0xBF
  }

  /** A proper, non-empty start of a sequence, or nothing. */
  predicate Incomplete(p: seq<Byte>) {
    p == [] || (|p| < SequenceLength(p[0]) && forall i | 1 <= i < |p| :: Accepts(p[..i], p[i]))
  }

  predicate Complete(p: seq<Byte>) {
    p != [] && |p| == SequenceLength(p[0]) && forall i | 1 <= i < |p| :: Accepts(p[..i], p[i])
  }

  function CodePoint(p: seq<Byte>): int
    requires Complete(p)
  {
    var n := seq(|p|, i requires 0 <= i < |p| => p[i] as int);
    match |p|
    case 1 => n[0]
    case 2 => (n[0] - 0xC0) * 0x40 + (n[1] - 0x80)
    case 3 => (n[0] - 0xE0) * 0x1000 + (n[1] - 0x80) * 0x40 + (n[2] - 0x80)
    case _ => (n[0] - 0xF0) * 0x40000 + (n[1] - 0x80) * 0x1000 + (n[2] - 0x80) * 0x40 + (n[3] - 0x80)
  }

  lemma CodePointIsScalar(p: seq<Byte>)
    requires Complete(p)
    ensures 0 <= CodePoint(p) < 0xD800 || 0xE000 <= CodePoint(p) < 0x11_0000
  {
    assert |p| > 1 ==> Accepts(p[..1], p[1]);
    assert |p| > 2 ==> Accepts(p[..2], p[2]);
    assert |p| > 3 ==> Accepts(p[..3], p[3]);
  }

  function Character(p: seq<Byte>): char
    requires Complete(p)
  {
    CodePointIsScalar(p);
    CodePoint(p) as char
  }

  lemma Extend(p: seq<Byte>, b: Byte)
    requires Incomplete(p) && p != [] && Accepts(p, b)
    ensures Incomplete(p + [b]) || Complete(p + [b])
  {
    var q := p + [b];
    forall i | 1 <= i < |q|
      ensures Accepts(q[..i], q[i])
    {
      assert q[..i] == p[..i];
    }
  }

  /** Decode `bytes` with `pending` already read; what is left incomplete at the end is
      replaced, as is every byte that fits nowhere. */
  function DecodeFrom(pending: seq<Byte>, bytes: seq<Byte>): string
    requires Incomplete(pending)
    decreases |bytes|, |pending|
  {
    if bytes == [] then (if pending == [] then [] else [REPLACEMENT])
    else if pending == [] then
      var b := bytes[0];
      if SequenceLength(b) == 0 then [REPLACEMENT] + DecodeFrom([], bytes[1..])
      else if SequenceLength(b) == 1 then [Character([b])] + DecodeFrom([], bytes[1..])
      else DecodeFrom([b], bytes[1..])
    else if Accepts(pending, bytes[0]) then
      Extend(pending, bytes[0]);
      var p := pending + [bytes[0]];
      if |p| == SequenceLength(p[0]) then [Character(p)] + DecodeFrom([], bytes[1..])
      else DecodeFrom(p, bytes[1..])
    else [REPLACEMENT] + DecodeFrom([], bytes)
  }

  function Decode(bytes: seq<Byte>): string {
    DecodeFrom([], bytes)
  }

  /** Each chunk decoded on its own, as the gateway does. */
  function DecodeChunks(chunks: seq<seq<Byte>>): string {
    if chunks == [] then [] else Decode(chunks[0]) + DecodeChunks(chunks[1..])
  }

  /** The incomplete sequence that reading `bytes` after `pending` leaves. */
  function PendingAfter(pending: seq<Byte>, bytes: seq<Byte>): (p: seq<Byte>)
    requires Incomplete(pending)
    ensures Incomplete(p)
    decreases |bytes|, |pending|
  {
    if bytes == [] then pending
    else if pending == [] then PendingAfter(if SequenceLength(bytes[0]) <= 1 then [] else [bytes[0]], bytes[1..])
    else if Accepts(pending, bytes[0]) then
      Extend(pending, bytes[0]);
      var p := pending + [bytes[0]];
      PendingAfter(if |p| == SequenceLength(p[0]) then [] else p, bytes[1..])
    else PendingAfter([], bytes)
  }

  /** The boundary between `a` and `b` falls inside a sequence. */
  predicate Cuts(a: seq<Byte>, b: seq<Byte>) {
    var p := PendingAfter([], a);
    p != [] && b != [] && Accepts(p, b[0])
  }

  predicate NoCuts(chunks: seq<seq<Byte>>) {
    chunks == [] || (!Cuts(chunks[0], Flatten(chunks[1..])) && NoCuts(chunks[1..]))
  }

  /** Reading `a` yields the same text whatever follows it, up to what `a` leaves pending. */
  lemma {:induction false} DecodeAppend(pending: seq<Byte>, a: seq<Byte>, b: seq<Byte>) returns (out: string)
    requires Incomplete(pending)
    ensures DecodeFrom(pending, a + b) == out + DecodeFrom(PendingAfter(pending, a), b)
    ensures DecodeFrom(pending, a) == out + DecodeFrom(PendingAfter(pending, a), [])
    decreases |a|, |pending|
  {
    if a == [] {
      assert a + b == b;
      out := [];
    } else {
      var head, next, rest := Step(pending, a, b);
      var tail := DecodeAppend(next, rest, b);
      out := head + tail;
      Associative(head, tail, DecodeFrom(PendingAfter(pending, a), b));
      Associative(head, tail, DecodeFrom(PendingAfter(pending, a), []));
    }
  }

  /** One unfolding of the decoder, the same whatever follows `a`. */
  lemma Step(pending: seq<Byte>, a: seq<Byte>, b: seq<Byte>) returns (head: string, next: seq<Byte>, rest: seq<Byte>)
    requires Incomplete(pending) && a != []
    ensures Incomplete(next) && (|rest| < |a| || (|rest| == |a| && |next| < |pending|))
    ensures DecodeFrom(pending, a + b) == head + DecodeFrom(next, rest + b)
    ensures DecodeFrom(pending, a) == head + DecodeFrom(next, rest)
    ensures PendingAfter(pending, a) == PendingAfter(next, rest)
  {
    var s := a + b;
    assert s[0] == a[0] && s[1..] == a[1..] + b;
    if pending == [] {
      rest := a[1..];
      next := if SequenceLength(a[0]) <= 1 then [] else [a[0]];
      head := if SequenceLength(a[0]) == 0 then [REPLACEMENT]
              else if SequenceLength(a[0]) == 1 then [Character([a[0]])] else [];
    } else if Accepts(pending, a[0]) {
      Extend(pending, a[0]);
      var p := pending + [a[0]];
      rest := a[1..];
      next := if |p| == SequenceLength(p[0]) then [] else p;
      head := if |p| == SequenceLength(p[0]) then [Character(p)] else [];
    } else {
      head, next, rest := [REPLACEMENT], [], a;
    }
  }

  /** A pending sequence costs at most one character, and none when it is continued. */
  lemma {:induction false} PendingCost(p: seq<Byte>, b: seq<Byte>)
    requires Incomplete(p) && p != []
    ensures b == [] || !Accepts(p, b[0]) ==> DecodeFrom(p, b) == [REPLACEMENT] + Decode(b)
    ensures b != [] && Accepts(p, b[0]) ==> |DecodeFrom(p, b)| <= |Decode(b)|
    decreases |b|
  {
    if b != [] && Accepts(p, b[0]) {
      Extend(p, b[0]);
      var q := p + [b[0]];
      assert Decode(b) == [REPLACEMENT] + Decode(b[1..]);
      if |q| < SequenceLength(q[0]) {
        PendingCost(q, b[1..]);
      }
    }
  }

  lemma TwoChunks(a: seq<Byte>, b: seq<Byte>)
    ensures Cuts(a, b) ==> |Decode(a + b)| < |Decode(a) + Decode(b)|
    ensures !Cuts(a, b) ==> Decode(a + b) == Decode(a) + Decode(b)
  {
    var p := PendingAfter([], a);
    var out := DecodeAppend([], a, b);
    if p != [] {
      PendingCost(p, b);
      Associative(out, [REPLACEMENT], Decode(b));
    }
  }

  /** Decoding chunk by chunk never yields less text than decoding the whole, and yields
      the same text exactly when no boundary cuts a sequence. */
  lemma {:induction false} ChunkwiseIff(chunks: seq<seq<Byte>>)
    ensures |Decode(Flatten(chunks))| <= |DecodeChunks(chunks)|
    ensures DecodeChunks(chunks) == Decode(Flatten(chunks)) <==> NoCuts(chunks)
  {
    if chunks != [] {
      var a, b := chunks[0], Flatten(chunks[1..]);
      ChunkwiseIff(chunks[1..]);
      TwoChunks(a, b);
      if !Cuts(a, b) && DecodeChunks(chunks) == Decode(a + b) {
        assert DecodeChunks(chunks[1..]) == DecodeChunks(chunks)[|Decode(a)|..];
        assert Decode(b) == Decode(a + b)[|Decode(a)|..];
      }
    }
  }

  // --- ASCII, and whole characters -------------------------------------------

  predicate Ascii(bytes: seq<Byte>) {
    forall i | 0 <= i < |bytes| :: bytes[i] < 0x80
  }

  lemma {:induction false} AsciiLeavesNothing(bytes: seq<Byte>)
    requires Ascii(bytes)
    ensures PendingAfter([], bytes) == [] && |Decode(bytes)| == |bytes|
    ensures forall i | 0 <= i < |bytes| :: Decode(bytes)[i] as int == bytes[i]
  {
    if bytes != [] {
      AsciiLeavesNothing(bytes[1..]);
    }
  }

  /** However ASCII bytes are chunked, no boundary cuts a sequence. */
  lemma {:induction false} AsciiNeverCut(chunks: seq<seq<Byte>>)
    requires Ascii(Flatten(chunks))
    ensures NoCuts(chunks)
  {
    if chunks != [] {
      var all := Flatten(chunks);
      assert chunks[0] == all[..|chunks[0]|] && Flatten(chunks[1..]) == all[|chunks[0]|..];
      AsciiLeavesNothing(chunks[0]);
      AsciiNeverCut(chunks[1..]);
    }
  }

  /** The UTF-8 form of a character. */
  function Encode(c: char): seq<Byte> {
    var n := c as int;
    if n < 0x80 then [n]
    else if n < 0x800 then [0xC0 + n / 0x40, 0x80 + n % 0x40]
    else if n < 0x1_0000 then [0xE0 + n / 0x1000, 0x80 + n / 0x40 % 0x40, 0x80 + n % 0x40]
    else [0xF0 + n / 0x40000, 0x80 + n / 0x1000 % 0x40, 0x80 + n / 0x40 % 0x40, 0x80 + n % 0x40]
  }

  function EncodeText(text: string): seq<Byte> {
    if text == [] then [] else Encode(text[0]) + EncodeText(text[1..])
  }

  lemma EncodeComplete(c: char)
    ensures Complete(Encode(c)) && Character(Encode(c)) == c
  {
    var p, n := Encode(c), c as int;
    assert forall i | 1 <= i < |p| :: |p[..i]| == i && p[..i][0] == p[0];
    assert n / 0x1000 == n / 0x1000 / 0x40 * 0x40 + n / 0x1000 % 0x40;
    assert n / 0x40000 == n / 0x1000 / 0x40;
    assert n / 0x40 == n / 0x40 / 0x40 * 0x40 + n / 0x40 % 0x40;
    assert n / 0x1000 == n / 0x40 / 0x40;
  }

  /** One byte outside ASCII is one replacement character, whether it starts a sequence that is
      cut off or none at all. */
  lemma LoneByte(a: Byte)
    ensures Decode([a]) == if a < 0x80 then [a as char] else ['\U{FFFD}']
  {
    assert [a][1..] == [];
    assert DecodeFrom([], []) == [];
    if SequenceLength(a) > 1 {
      assert DecodeFrom([], [a]) == DecodeFrom([a], [a][1..]);
    }
  }

  /** A lead byte followed by what cannot follow it is replaced on its own: the second byte of a
      sequence must be a continuation byte, and one that is neither overlong, a surrogate nor
      past the last character. */
  lemma BadSecondByte(a: Byte, b: Byte)
    requires 0xC2 <= a < 0xF5
    requires || !(0x80 <= b < 0xC0) || (a == 0xE0 && b < 0xA0) || (a == 0xED && 0xA0 <= b)
             || (a == 0xF0 && b < 0x90) || (a == 0xF4 && 0x90 <= b)
    ensures Decode([a, b]) == ['\U{FFFD}'] + Decode([b])
  {
    assert [a, b][1..] == [b];
    assert DecodeFrom([], [a, b]) == DecodeFrom([a], [b]);
  }

  /** Any other second byte is read on. */
  lemma GoodSecondByte(a: Byte, b: Byte)
    requires 0xC2 <= a < 0xF5 && 0x80 <= b < 0xC0
    requires (a == 0xE0 ==> 0xA0 <= b) && (a == 0xED ==> b < 0xA0) && (a == 0xF0 ==> 0x90 <= b)
             && (a == 0xF4 ==> b < 0x90)
    ensures |Decode([a, b])| == 1 && (Decode([a, b]) == ['\U{FFFD}'] <==> 0xE0 <= a)
  {
    assert [a, b][1..] == [b] && [b][1..] == [];
    assert DecodeFrom([], [a, b]) == DecodeFrom([a], [b]);
    assert [a] + [b] == [a, b] && [a, b][..1] == [a];
    assert Accepts([a], b);
    Extend([a], b);
    if 0xE0 <= a {
      assert SequenceLength(a) > 2 && DecodeFrom([a, b], []) == ['\U{FFFD}'];
      assert DecodeFrom([a], [b]) == DecodeFrom([a, b], []);
    } else {
      assert Complete([a, b]);
      assert CodePoint([a, b]) == (a - 0xC0) * 0x40 + (b - 0x80) < 0x800;
      assert DecodeFrom([a], [b]) == [Character([a, b])] + DecodeFrom([], []);
      assert Decode([a, b])[0] as int < 0x800 < '\U{FFFD}' as int;
    }
  }

  /** Reading the rest of a complete sequence yields its character. */
  lemma {:induction false} DecodeComplete(p: seq<Byte>, i: nat, rest: seq<Byte>)
    requires Complete(p) && 1 <= i < |p| && Incomplete(p[..i])
    ensures DecodeFrom(p[..i], p[i..] + rest) == [Character(p)] + Decode(rest)
    decreases |p| - i
  {
    var s := p[i..] + rest;
    assert p[..i] + [s[0]] == p[..i + 1] && s[1..] == p[i + 1..] + rest;
    if i + 1 == |p| {
      assert p[..i + 1] == p && p[i + 1..] + rest == rest;
    } else {
      Extend(p[..i], p[i]);
      DecodeComplete(p, i + 1, rest);
    }
  }

  /** Decoding undoes encoding, for every text. */
  lemma {:induction false} DecodeEncode(text: string)
    ensures Decode(EncodeText(text)) == text
  {
    if text != [] {
      var p, rest := Encode(text[0]), EncodeText(text[1..]);
      EncodeComplete(text[0]);
      DecodeEncode(text[1..]);
      var s := p + rest;
      assert s[0] == p[0];
      if |p| == 1 {
        assert p == [p[0]] && s[1..] == rest;
      } else {
        assert p[..1] == [p[0]] && s[1..] == p[1..] + rest;
        DecodeComplete(p, 1, rest);
      }
    }
  }
}
