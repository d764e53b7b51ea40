/** The cursor over the bytes of a streaming response (src/api.rs), and the decoding of its frames.

    Framing looks for CR and LF only, and no other character is spelled with their bytes. So a
    byte is framed like the character with its code, and framing the bytes of a text is framing
    the text.
 */
module SseBytes {
  import opened Wrappers
  import opened TextBasics
  import opened Utf8
  import opened SseFraming

  /** The bytes as characters with their codes, to frame them by. */
  function Chars(b: seq<Byte>): (s: string)
    ensures |s| == |b|
  {
    seq(|b|, i requires 0 <= i < |b| => b[i] as char)
  }

  const CR: Byte := 13
  const LF: Byte := 10

  /** The line ending at `index`, as the program tests it. */
  function ByteLineEnding(buffer: seq<Byte>, index: nat, eof: bool): (r: LineEnding)
    ensures r == LineEndingAt(Chars(buffer), index, eof)
  {
    if index < |buffer| then
      if buffer[index] == CR && index + 1 < |buffer| && buffer[index + 1] == LF then Complete(2)
      else if buffer[index] == CR && index + 1 == |buffer| && !eof then Incomplete
      else if buffer[index] == CR || buffer[index] == LF then Complete(1)
      else Absent
    else if !eof then Incomplete
    else Absent
  }

  lemma CharsConcat(a: seq<Byte>, b: seq<Byte>)
    ensures Chars(a + b) == Chars(a) + Chars(b)
  {
  }

  ghost function Concat(chunks: seq<seq<Byte>>): seq<Byte> {
    if chunks == [] then [] else chunks[0] + Concat(chunks[1..])
  }

  /** The cursor of the source, with its count of inspected positions. */
  class FrameCursor {
    var frameStart: nat
    var scanIndex: nat
    var inspected: nat

    constructor ()
      ensures View() == START && inspected == 0
    {
      frameStart, scanIndex, inspected := 0, 0, 0;
    }

    function View(): Cursor
      reads this
    {
      Cursor(frameStart, scanIndex)
    }

    /** Every iteration but the last one of a call advances over the buffer. */
    method NextFrame(buffer: seq<Byte>, eof: bool) returns (frame: Option<Frame>)
      requires Within(View(), Chars(buffer))
      modifies this
      ensures (frame, View()) == Scan(Chars(buffer), old(View()), eof)
      ensures inspected - old(inspected) <= scanIndex - old(scanIndex) + 1
    {
      hide Scan;
      while scanIndex < |buffer|
        invariant Within(View(), Chars(buffer)) && Scan(Chars(buffer), View(), eof) == Scan(Chars(buffer), old(View()), eof)
        invariant inspected - old(inspected) <= scanIndex - old(scanIndex)
      {
        ScanStep(Chars(buffer), View(), eof);
        inspected := inspected + 1;
        var index := scanIndex;
        var ending := ByteLineEnding(buffer, index, eof);
        if ending.Incomplete? {
          return None;
        }
        if ending.Absent? {
          scanIndex := scanIndex + 1;
          continue;
        }
        var second := index + ending.length;
        match ByteLineEnding(buffer, second, eof) {
          case Complete(length) =>
            frame := Some(Frame(frameStart, index));
            frameStart := second + length;
            scanIndex := frameStart;
            return;
          case Incomplete =>
            return None;
          case Absent =>
            scanIndex := second;
        }
      }
      ScanStep(Chars(buffer), View(), eof);
      return None;
    }
  }

  /** The receive loop: grow the buffer chunk by chunk, drain after each chunk, and drain
      once more at the end of input. Frames and pending tail are those of one pass over the
      whole response, and the work is at most one inspection per byte and per call. */
  method Receive(chunks: seq<seq<Byte>>) returns (buffer: seq<Byte>, frames: seq<Frame>, pending: seq<Byte>, inspected: nat)
    ensures buffer == Concat(chunks)
    ensures frames == Drain(Chars(buffer), START, true).0
    ensures pending == buffer[Drain(Chars(buffer), START, true).1.frameStart..]
    ensures inspected <= |buffer| + |frames| + |chunks| + 1
  {
    var cursor := new FrameCursor();
    buffer, frames := [], [];
    assert chunks[0..] == chunks && [] + Concat(chunks) == Concat(chunks);
    ghost var all := Drain(Chars(Concat(chunks)), START, true).0;
    assert [] + all == all;
    for i := 0 to |chunks|
      invariant Within(cursor.View(), Chars(buffer))
      invariant buffer + Concat(chunks[i..]) == Concat(chunks)
      invariant Resumes(Chars(buffer + Concat(chunks[i..])), frames, cursor.View())
      invariant cursor.inspected <= cursor.scanIndex + |frames| + i
    {
      assert chunks[i..][0] == chunks[i] && chunks[i..][1..] == chunks[i + 1..];
      ghost var rest := Concat(chunks[i + 1..]);
      assert buffer + (chunks[i] + rest) == (buffer + chunks[i]) + rest;
      buffer := buffer + chunks[i];
      var found := DrainWith(cursor, buffer, false, frames, rest);
      frames := frames + found;
    }
    assert chunks[|chunks|..] == [] && buffer + [] == buffer;
    var last := DrainWith(cursor, buffer, true, frames, []);
    frames := frames + last;
    pending := buffer[cursor.frameStart..];
    inspected := cursor.inspected;
  }

  /** Calls the cursor until it has no further frame. */
  method DrainWith(cursor: FrameCursor, buffer: seq<Byte>, eof: bool, ghost earlier: seq<Frame>, ghost rest: seq<Byte>)
    returns (found: seq<Frame>)
    requires Within(cursor.View(), Chars(buffer)) && (eof ==> rest == [])
    requires Resumes(Chars(buffer + rest), earlier, cursor.View())
    modifies cursor
    ensures Within(cursor.View(), Chars(buffer))
    ensures Resumes(Chars(buffer + rest), earlier + found, cursor.View())
    ensures eof ==> Drain(Chars(buffer), cursor.View(), true) == ([], cursor.View())
    ensures cursor.inspected - old(cursor.inspected) <= cursor.scanIndex - old(cursor.scanIndex) + |found| + 1
  {
    hide Scan;
    found := [];
    assert earlier + [] == earlier;
    while true
      invariant Within(cursor.View(), Chars(buffer)) && Resumes(Chars(buffer + rest), earlier + found, cursor.View())
      invariant cursor.inspected - old(cursor.inspected) <= cursor.scanIndex - old(cursor.scanIndex) + |found|
      decreases |buffer| - cursor.scanIndex
    {
      ghost var before := cursor.View();
      CharsConcat(buffer, rest);
      ResumeStep(Chars(buffer), Chars(rest), earlier + found, before, eof);
      var frame := cursor.NextFrame(buffer, eof);
      if frame.None? {
        break;
      }
      assert earlier + (found + [frame.value]) == earlier + found + [frame.value];
      found := found + [frame.value];
    }
  }

  /* ---------- framing the bytes of a text is framing the text ---------- */

  /** Where a character begins in the spelling of a text. */
  ghost function Offset(s: string, i: nat): nat
    requires i <= |s|
  {
    |Encode(s[..i])|
  }

  ghost function Spelled(s: string): string { Chars(Encode(s)) }

  ghost function OffsetCursor(s: string, c: Cursor): Cursor
    requires Within(c, s)
  {
    Cursor(Offset(s, c.frameStart), Offset(s, c.scanIndex))
  }

  ghost function OffsetFrame(s: string, f: Frame): Frame
    requires f.start <= |s| && f.end <= |s|
  {
    Frame(Offset(s, f.start), Offset(s, f.end))
  }

  lemma {:induction false} OffsetStep(s: string, i: nat)
    requires i < |s|
    ensures Offset(s, i + 1) == Offset(s, i) + CharBytes(s[i]) <= |Encode(s)|
    ensures Encode(s)[Offset(s, i)..Offset(s, i + 1)] == EncodeChar(s[i])
  {
    hide EncodeChar;
    var a, c, b := s[..i], [s[i]], s[i + 1..];
    assert s[..i + 1] == a + c && s == a + c + b;
    EncodeConcat(a, c);
    EncodeConcat(a + c, b);
    assert c[1..] == "" && Encode(c) == EncodeChar(s[i]) + [];
  }

  lemma {:induction false} OffsetSlice(s: string, a: nat, b: nat)
    requires a <= b <= |s|
    ensures Offset(s, a) <= Offset(s, b) <= |Encode(s)| && Encode(s)[Offset(s, a)..Offset(s, b)] == Encode(s[a..b])
    ensures Encode(s)[Offset(s, a)..] == Encode(s[a..]) && Offset(s, |s|) == |Encode(s)| && Offset(s, 0) == 0
  {
    hide Encode;
    assert s == s[..a] + s[a..b] + s[b..] && s[..b] == s[..a] + s[a..b] && s == s[..a] + s[a..];
    EncodeConcat(s[..a], s[a..b]);
    EncodeConcat(s[..a] + s[a..b], s[b..]);
    EncodeConcat(s[..a], s[a..]);
    assert s[..|s|] == s && s[..0] == "";
    EncodedNothing();
  }

  lemma EncodedNothing()
    ensures Encode("") == []
  {
  }

  /** One byte of one character. */
  lemma {:induction false} SpelledAt(s: string, i: nat, j: nat)
    requires i < |s| && j < CharBytes(s[i])
    ensures Offset(s, i) + j < |Spelled(s)|
    ensures s[i] < '\U{80}' ==> CharBytes(s[i]) == 1 && Spelled(s)[Offset(s, i)] == s[i]
    ensures s[i] >= '\U{80}' ==> Spelled(s)[Offset(s, i) + j] >= '\U{80}'
  {
    hide EncodeChar, Encode;
    OffsetStep(s, i);
    EncodedAscii(s[i], j);
    assert Encode(s)[Offset(s, i) + j] == Encode(s)[Offset(s, i)..Offset(s, i + 1)][j];
  }

  lemma SpelledLength(s: string)
    ensures |Spelled(s)| == Offset(s, |s|)
  {
    hide Encode;
    assert s[..|s|] == s;
  }

  lemma {:induction false} LineEndingCommutes(s: string, i: nat, eof: bool)
    requires i <= |s|
    ensures LineEndingAt(Spelled(s), Offset(s, i), eof) == LineEndingAt(s, i, eof)
  {
    hide Spelled, Offset;
    SpelledLength(s);
    if i < |s| {
      SpelledAt(s, i, 0);
      OffsetIs(s, i);
      if i + 1 < |s| { SpelledAt(s, i + 1, 0); }
    }
  }

  lemma OffsetIs(s: string, i: nat)
    requires i < |s|
    ensures Offset(s, i + 1) == Offset(s, i) + CharBytes(s[i])
  {
    OffsetStep(s, i);
  }

  /** The search passes over the bytes of a character that breaks no line. */
  lemma {:induction false} SkipBytes(s: string, start: nat, i: nat, j: nat, eof: bool)
    requires i < |s| && !IsBreak(s[i]) && j <= CharBytes(s[i]) && start <= Offset(s, i)
    ensures Offset(s, i) + CharBytes(s[i]) == Offset(s, i + 1) <= |Spelled(s)|
    ensures Scan(Spelled(s), Cursor(start, Offset(s, i) + j), eof) == Scan(Spelled(s), Cursor(start, Offset(s, i + 1)), eof)
    decreases CharBytes(s[i]) - j
  {
    hide Spelled, Offset, Scan, CharBytes;
    OffsetFits(s, i);
    if j < CharBytes(s[i]) {
      SpelledAt(s, i, j);
      SkipBytes(s, start, i, j + 1, eof);
      ScanStep(Spelled(s), Cursor(start, Offset(s, i) + j), eof);
    }
  }

  lemma OffsetFits(s: string, i: nat)
    requires i < |s|
    ensures Offset(s, i) + CharBytes(s[i]) == Offset(s, i + 1) <= |Spelled(s)|
  {
    OffsetStep(s, i);
  }

  /** A search over the bytes finds what a search over the text finds. */
  lemma {:induction false} ScanCommutes(s: string, c: Cursor, eof: bool)
    requires Within(c, s)
    ensures Within(OffsetCursor(s, c), Spelled(s))
    ensures var (frame, next) := Scan(s, c, eof);
            && Scan(Spelled(s), OffsetCursor(s, c), eof).1 == OffsetCursor(s, next)
            && Scan(Spelled(s), OffsetCursor(s, c), eof).0 == (if frame.None? then None else Some(OffsetFrame(s, frame.value)))
    decreases |s| - c.scanIndex
  {
    hide Spelled, Offset, Scan, LineEndingAt;
    OffsetsOrdered(s, c.frameStart, c.scanIndex);
    ScanStep(s, c, eof);
    LineEndingCommutes(s, c.scanIndex, eof);
    var first := LineEndingAt(s, c.scanIndex, eof);
    if c.scanIndex == |s| {
      ScanStep(Spelled(s), OffsetCursor(s, c), eof);
    } else {
      OffsetFits(s, c.scanIndex);
      CharTakesBytes(s[c.scanIndex]);
      if first.Absent? {
        NotBreak(s, c.scanIndex, eof);
        SkipBytes(s, Offset(s, c.frameStart), c.scanIndex, 0, eof);
        ScanCommutes(s, c.(scanIndex := c.scanIndex + 1), eof);
      } else {
        ScanStep(Spelled(s), OffsetCursor(s, c), eof);
        if first.Complete? {
          BreakOffsets(s, c.scanIndex, eof);
          var second := c.scanIndex + first.length;
          LineEndingCommutes(s, second, eof);
          if LineEndingAt(s, second, eof).Absent? {
            ScanCommutes(s, c.(scanIndex := second), eof);
          } else if LineEndingAt(s, second, eof).Complete? {
            BreakOffsets(s, second, eof);
          }
        }
      }
    }
  }

  lemma OffsetsOrdered(s: string, a: nat, b: nat)
    requires a <= b <= |s|
    ensures Offset(s, a) <= Offset(s, b) <= |Spelled(s)| && Offset(s, |s|) == |Spelled(s)|
  {
    hide Encode;
    OffsetSlice(s, a, b);
  }

  lemma CharTakesBytes(c: char)
    ensures CharBytes(c) >= 1
  {
  }

  lemma NotBreak(s: string, i: nat, eof: bool)
    requires i < |s| && LineEndingAt(s, i, eof).Absent?
    ensures !IsBreak(s[i])
  {
  }

  /** A line break is as long in bytes as in characters. */
  lemma {:induction false} BreakOffsets(s: string, i: nat, eof: bool)
    requires i <= |s| && LineEndingAt(s, i, eof).Complete?
    ensures var n := LineEndingAt(s, i, eof).length;
            1 <= n && i + n <= |s| && Offset(s, i + n) == Offset(s, i) + n
  {
    hide Offset;
    OffsetIs(s, i);
    if LineEndingAt(s, i, eof).length == 2 { OffsetIs(s, i + 1); }
  }

  /* ---------- payloads of bytes ---------- */

  predicate IsByteWhitespace(b: Byte) { b == 32 || b == 9 || b == 10 || b == 12 || b == 13 }

  /** The payload of a frame, if it is well-formed UTF-8. */
  function BytePayload(frame: seq<Byte>): Option<seq<string>> {
    var text := Decode(frame);
    if text.None? then None else Some(PayloadOf(text.value))
  }

  function ByteTailPayload(pending: seq<Byte>): Option<seq<string>> {
    if forall i :: 0 <= i < |pending| ==> IsByteWhitespace(pending[i]) then Some([]) else BytePayload(pending)
  }

  /** The payloads handed on from cursor `c`, and whether all of them were well-formed: the first
      frame that is not ends the response. */
  ghost function BytePayloads(b: seq<Byte>, c: Cursor): (seq<string>, bool)
    requires Within(c, Chars(b))
    decreases |b| - c.scanIndex
  {
    var (frame, next) := Scan(Chars(b), c, true);
    if frame.None? then
      var tail := ByteTailPayload(b[next.frameStart..]);
      if tail.None? then ([], false) else (tail.value, true)
    else
      var payload := BytePayload(b[frame.value.start..frame.value.end]);
      if payload.None? then ([], false)
      else
        var (rest, valid) := BytePayloads(b, next);
        (payload.value + rest, valid)
  }

  lemma EncodedPayload(t: string)
    ensures BytePayload(Encode(t)) == Some(PayloadOf(t)) && ByteTailPayload(Encode(t)) == Some(TailPayload(t))
  {
    hide Encode, Decode, PayloadOf;
    DecodeEncoded(t);
    TailWhitespace(t);
  }

  lemma {:induction false} TailWhitespace(t: string)
    ensures (forall i :: 0 <= i < |Encode(t)| ==> IsByteWhitespace(Encode(t)[i])) <==> (forall c :: c in t ==> IsAsciiWhitespace(c))
  {
    hide EncodeChar, IsAsciiWhitespace, IsByteWhitespace;
    if t != "" {
      var e, r := EncodeChar(t[0]), Encode(t[1..]);
      TailWhitespace(t[1..]);
      CharWhitespace(t[0]);
      assert forall i :: 0 <= i < |e| ==> Encode(t)[i] == e[i];
      assert forall i :: 0 <= i < |r| ==> Encode(t)[|e| + i] == r[i];
      assert t == [t[0]] + t[1..];
      if forall i :: 0 <= i < |Encode(t)| ==> IsByteWhitespace(Encode(t)[i]) {
        assert forall i :: 0 <= i < |e| ==> IsByteWhitespace(e[i]);
        assert forall i :: 0 <= i < |r| ==> IsByteWhitespace(r[i]);
      }
    }
  }

  lemma CharWhitespace(c: char)
    ensures (forall i :: 0 <= i < |EncodeChar(c)| ==> IsByteWhitespace(EncodeChar(c)[i])) <==> IsAsciiWhitespace(c)
  {
    EncodedAscii(c, 0);
    assert EncodeChar(c)[0] == EncodeChar(c)[0];
    if c >= '\U{80}' { assert !IsByteWhitespace(EncodeChar(c)[0]); }
  }

  /** The payloads of the spelling of a text are the payloads of the text. */
  lemma {:induction false} PayloadsCommute(s: string, c: Cursor)
    requires Within(c, s)
    ensures Within(OffsetCursor(s, c), Spelled(s))
    ensures BytePayloads(Encode(s), OffsetCursor(s, c)) == (Payloads(s, c), true)
    decreases |s| - c.scanIndex
  {
    hide Offset, Scan, Encode, PayloadOf, TailPayload, BytePayload, ByteTailPayload, BytePayloads;
    ScanCommutes(s, c, true);
    var (frame, next) := Scan(s, c, true);
    BytePayloadsStep(Encode(s), OffsetCursor(s, c));
    if frame.None? {
      OffsetSlice(s, next.frameStart, |s|);
      EncodedPayload(s[next.frameStart..]);
    } else {
      OffsetSlice(s, frame.value.start, frame.value.end);
      EncodedPayload(s[frame.value.start..frame.value.end]);
      PayloadsCommute(s, next);
    }
  }

  lemma BytePayloadsStep(b: seq<Byte>, c: Cursor)
    requires Within(c, Chars(b))
    ensures var (frame, next) := Scan(Chars(b), c, true);
            if frame.None? then
              var tail := ByteTailPayload(b[next.frameStart..]);
              BytePayloads(b, c) == if tail.None? then ([], false) else (tail.value, true)
            else
              var payload := BytePayload(b[frame.value.start..frame.value.end]);
              BytePayloads(b, c) ==
              if payload.None? then ([], false) else (payload.value + BytePayloads(b, next).0, BytePayloads(b, next).1)
  {
    hide Scan, BytePayload, ByteTailPayload;
  }

  /* ---------- a response is refused exactly if it is not UTF-8 ---------- */

  /** Between the end of a frame and the start of the next there are only line breaks. */
  lemma {:induction false} SeparatorIsAscii(buffer: string, c: Cursor, eof: bool)
    requires Within(c, buffer) && Scan(buffer, c, eof).0.Some?
    ensures var (frame, next) := Scan(buffer, c, eof);
            forall i :: frame.value.end <= i < next.frameStart ==> IsBreak(buffer[i])
    decreases |buffer| - c.scanIndex
  {
    hide Scan;
    ScanStep(buffer, c, eof);
    var first := LineEndingAt(buffer, c.scanIndex, eof);
    if first.Absent? {
      SeparatorIsAscii(buffer, c.(scanIndex := c.scanIndex + 1), eof);
    } else if LineEndingAt(buffer, c.scanIndex + first.length, eof).Absent? {
      SeparatorIsAscii(buffer, c.(scanIndex := c.scanIndex + first.length), eof);
    }
  }

  lemma {:induction false} AsciiDecodes(b: seq<Byte>)
    requires forall i :: 0 <= i < |b| ==> b[i] < 0x80
    ensures Decode(b).Some?
    decreases |b|
  {
    if b != [] { AsciiDecodes(b[1..]); }
  }

  /** If every frame and the tail are well-formed, so is everything from the first one on. */
  lemma {:induction false} ValidPiecesValidWhole(b: seq<Byte>, c: Cursor)
    requires Within(c, Chars(b)) && BytePayloads(b, c).1
    ensures Decode(b[c.frameStart..]).Some?
    decreases |b| - c.scanIndex
  {
    hide Scan, Decode, PayloadOf, BytePayloads;
    BytePayloadsStep(b, c);
    var (frame, next) := Scan(Chars(b), c, true);
    if frame.None? {
      var tail := b[next.frameStart..];
      if forall i :: 0 <= i < |tail| ==> IsByteWhitespace(tail[i]) { AsciiDecodes(tail); }
    } else {
      var f := frame.value;
      ValidPiecesValidWhole(b, next);
      SeparatorIsAscii(Chars(b), c, true);
      var text, gap, rest := b[f.start..f.end], b[f.end..next.frameStart], b[next.frameStart..];
      forall i | 0 <= i < |gap| ensures gap[i] < 0x80 {
        assert IsBreak(Chars(b)[f.end + i]);
      }
      AsciiDecodes(gap);
      DecodeConcat(text, gap);
      DecodeConcat(text + gap, rest);
      assert b[c.frameStart..] == text + gap + rest;
    }
  }

  /** The payloads of a response, and when it is refused. */
  lemma {:induction false} ResponseIsReadLineByLine(b: seq<Byte>)
    ensures BytePayloads(b, START).1 <==> Decode(b).Some?
    ensures Decode(b).Some? ==> BytePayloads(b, START).0 == ReadLines(Decode(b).value, [])
  {
    hide Decode, Encode, Scan, ReadLines, Payloads, BytePayloads;
    assert b[0..] == b;
    if BytePayloads(b, START).1 { ValidPiecesValidWhole(b, START); }
    if Decode(b).Some? {
      var s := Decode(b).value;
      EncodeDecoded(b);
      assert s[..0] == "" && s[0..] == s;
      EncodedNothing();
      PayloadsCommute(s, START);
      CollectedAtStart(s);
      CursorReadsLines(s, START, []);
    }
  }

  lemma CollectedAtStart(s: string)
    ensures Collected(s, START, [])
  {
    hide Collect;
  }

  lemma DrainStep(buffer: string, c: Cursor)
    requires Within(c, buffer)
    ensures var (frame, next) := Scan(buffer, c, true);
            var (frames, last) := Drain(buffer, c, true);
            if frame.None? then frames == [] && last == next
            else frames != [] && frames[0] == frame.value && Drain(buffer, next, true) == (frames[1..], last)
  {
    hide Scan;
    var (frame, next) := Scan(buffer, c, true);
    if frame.Some? {
      var rest := Drain(buffer, next, true).0;
      assert ([frame.value] + rest)[1..] == rest;
    }
  }

  /** However the response is cut into chunks, within characters too: the payloads handed on are
      those of a reader that takes the decoded response line by line, and the response is refused
      exactly if it is not UTF-8. What was handed on before a refusal does not depend on the
      cuts either. */
  method ReceivePayloads(chunks: seq<seq<Byte>>) returns (payloads: seq<string>, valid: bool)
    ensures (payloads, valid) == BytePayloads(Concat(chunks), START)
    ensures valid <==> Decode(Concat(chunks)).Some?
    ensures valid ==> payloads == ReadLines(Decode(Concat(chunks)).value, [])
  {
    hide Decode, PayloadOf, ReadLines, BytePayloads, Scan, Drain;
    var buffer, frames, pending, inspected := Receive(chunks);
    ResponseIsReadLineByLine(buffer);
    payloads := [];
    ghost var c := START;
    ghost var last := Drain(Chars(buffer), START, true).1;
    assert frames[0..] == frames && [] + BytePayloads(buffer, START).0 == BytePayloads(buffer, START).0;
    for i := 0 to |frames|
      invariant Within(c, Chars(buffer)) && Drain(Chars(buffer), c, true) == (frames[i..], last)
      invariant BytePayloads(buffer, START) == (payloads + BytePayloads(buffer, c).0, BytePayloads(buffer, c).1)
    {
      BytePayloadsStep(buffer, c);
      DrainStep(Chars(buffer), c);
      ghost var next := Scan(Chars(buffer), c, true).1;
      assert frames[i..] == [frames[i]] + frames[i + 1..];
      var payload := BytePayload(buffer[frames[i].start..frames[i].end]);
      if payload.None? {
        assert payloads + [] == payloads;
        return payloads, false;
      }
      ghost var rest := BytePayloads(buffer, next).0;
      assert payloads + (payload.value + rest) == payloads + payload.value + rest;
      payloads := payloads + payload.value;
      c := next;
    }
    BytePayloadsStep(buffer, c);
    DrainStep(Chars(buffer), c);
    var tail := ByteTailPayload(pending);
    assert payloads + [] == payloads;
    if tail.None? {
      return payloads, false;
    }
    return payloads + tail.value, true;
  }
}
