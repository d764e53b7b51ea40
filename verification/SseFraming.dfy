/** Model of the streaming response framing (src/api.rs): an incremental cursor over
    a growing buffer, and the payload of each frame.

    Here the buffer is a text; the cursor over bytes is proved against it in SseBytes. The
    byte limits on frames and responses are not part of this model.
 */
module SseFraming {

  import opened TextBasics
  import opened Wrappers

  /* ---------- the cursor ---------- */

  datatype LineEnding = Complete(length: nat) | Incomplete | Absent

  /** The line ending at `index`, as far as the buffer shows it. */
  function LineEndingAt(buffer: string, index: nat, eof: bool): LineEnding {
    if index < |buffer| then
      if buffer[index] == '\r' && index + 1 < |buffer| && buffer[index + 1] == '\n' then Complete(2)
      else if buffer[index] == '\r' && index + 1 == |buffer| && !eof then Incomplete
      else if buffer[index] == '\r' || buffer[index] == '\n' then Complete(1)
      else Absent
    else if !eof then Incomplete
    else Absent
  }

  /** A frame is the range `start..end` of the buffer. */
  datatype Frame = Frame(start: nat, end: nat)

  datatype Cursor = Cursor(frameStart: nat, scanIndex: nat)

  const START := Cursor(0, 0)

  predicate Within(c: Cursor, buffer: string) {
    c.frameStart <= c.scanIndex <= |buffer|
  }

  /** The next frame from cursor `c`, if the buffer shows one, and the cursor after the search. */
  function Scan(buffer: string, c: Cursor, eof: bool): (r: (Option<Frame>, Cursor))
    requires Within(c, buffer)
    ensures Within(r.1, buffer) && c.scanIndex <= r.1.scanIndex
    ensures r.0.Some? ==> r.0.value.start == c.frameStart && c.scanIndex <= r.0.value.end
                          && r.0.value.end < r.1.frameStart == r.1.scanIndex
    ensures r.0.None? ==> r.1.frameStart == c.frameStart
    decreases |buffer| - c.scanIndex
  {
    if c.scanIndex == |buffer| then (None, c)
    else
      match LineEndingAt(buffer, c.scanIndex, eof)
      case Incomplete => (None, c)
      case Absent => Scan(buffer, c.(scanIndex := c.scanIndex + 1), eof)
      case Complete(first) =>
        var second := c.scanIndex + first;
        match LineEndingAt(buffer, second, eof)
        case Incomplete => (None, c)
        case Absent => Scan(buffer, c.(scanIndex := second), eof)
        case Complete(length) =>
          (Some(Frame(c.frameStart, c.scanIndex)), Cursor(second + length, second + length))
  }

  /** All frames from cursor `c` on. */
  function Drain(buffer: string, c: Cursor, eof: bool): (r: (seq<Frame>, Cursor))
    requires Within(c, buffer)
    ensures Within(r.1, buffer)
    decreases |buffer| - c.scanIndex
  {
    var (frame, next) := Scan(buffer, c, eof);
    if frame.None? then ([], next)
    else
      var (rest, last) := Drain(buffer, next, eof);
      ([frame.value] + rest, last)
  }

  /* ---------- the result does not depend on the chunks ---------- */

  /** What a buffer shows for certain is not changed by more bytes or by the end of input. */
  lemma LineEndingStable(buffer: string, more: string, index: nat, eof: bool)
    requires !LineEndingAt(buffer, index, false).Incomplete?
    ensures LineEndingAt(buffer + more, index, eof) == LineEndingAt(buffer, index, false)
    ensures LineEndingAt(buffer, index, false).Complete? ==> index + LineEndingAt(buffer, index, false).length <= |buffer|
    ensures LineEndingAt(buffer, index, false).Complete? ==> LineEndingAt(buffer, index, false).length > 0
    ensures index < |buffer|
  {
  }

  /** A frame found early is the frame found later; a search that found none can be resumed. */
  lemma {:induction false} ScanExtends(buffer: string, more: string, c: Cursor, eof: bool)
    requires Within(c, buffer)
    ensures var (frame, next) := Scan(buffer, c, false);
            Scan(buffer + more, c, eof) == if frame.Some? then (frame, next) else Scan(buffer + more, next, eof)
    decreases |buffer| - c.scanIndex
  {
    hide Scan, LineEndingAt;
    ScanStep(buffer, c, false);
    ScanStep(buffer + more, c, eof);
    var ending := LineEndingAt(buffer, c.scanIndex, false);
    if c.scanIndex < |buffer| && !ending.Incomplete? {
      LineEndingStable(buffer, more, c.scanIndex, eof);
      if ending.Absent? {
        ScanExtends(buffer, more, c.(scanIndex := c.scanIndex + 1), eof);
      } else {
        var second := c.scanIndex + ending.length;
        if !LineEndingAt(buffer, second, false).Incomplete? {
          LineEndingStable(buffer, more, second, eof);
          if LineEndingAt(buffer, second, false).Absent? {
            ScanExtends(buffer, more, c.(scanIndex := second), eof);
          }
        }
      }
    }
  }

  lemma {:induction false} DrainExtends(buffer: string, more: string, c: Cursor, eof: bool)
    requires Within(c, buffer)
    ensures var (early, next) := Drain(buffer, c, false);
            var (late, last) := Drain(buffer + more, next, eof);
            Drain(buffer + more, c, eof) == (early + late, last)
    decreases |buffer| - c.scanIndex
  {
    hide Scan;
    ScanExtends(buffer, more, c, eof);
    var (frame, next) := Scan(buffer, c, false);
    if frame.Some? {
      DrainExtends(buffer, more, next, eof);
      var (early, next') := Drain(buffer, next, false);
      var (late, last) := Drain(buffer + more, next', eof);
      assert [frame.value] + (early + late) == [frame.value] + early + late;
    } else {
      var late := Drain(buffer + more, next, eof).0;
      assert [] + late == late;
    }
  }

  /** One turn of the search, unfolded. */
  lemma ScanStep(buffer: string, c: Cursor, eof: bool)
    requires Within(c, buffer)
    ensures var first := LineEndingAt(buffer, c.scanIndex, eof);
            var second := c.scanIndex + (if first.Complete? then first.length else 0);
            Scan(buffer, c, eof) ==
            if c.scanIndex == |buffer| || first.Incomplete? then (None, c)
            else if first.Absent? then Scan(buffer, c.(scanIndex := c.scanIndex + 1), eof)
            else if LineEndingAt(buffer, second, eof).Incomplete? then (None, c)
            else if LineEndingAt(buffer, second, eof).Absent? then Scan(buffer, c.(scanIndex := second), eof)
            else
              var end := second + LineEndingAt(buffer, second, eof).length;
              (Some(Frame(c.frameStart, c.scanIndex)), Cursor(end, end))
  {
  }

  /** `frames` are the first frames of the whole response and `c` finds the others. */
  ghost predicate Resumes(whole: string, frames: seq<Frame>, c: Cursor) {
    && Within(c, whole)
    && Drain(whole, START, true) == (frames + Drain(whole, c, true).0, Drain(whole, c, true).1)
  }

  lemma {:induction false} ResumeStep(buffer: string, rest: string, frames: seq<Frame>, c: Cursor, eof: bool)
    requires Within(c, buffer) && (eof ==> rest == "") && Resumes(buffer + rest, frames, c)
    ensures var (frame, next) := Scan(buffer, c, eof);
            && Resumes(buffer + rest, if frame.Some? then frames + [frame.value] else frames, next)
            && (eof && frame.None? ==> Drain(buffer, next, true) == ([], next))
  {
    hide Scan;
    var whole := buffer + rest;
    var (frame, next) := Scan(buffer, c, eof);
    if eof {
      assert whole == buffer;
      if frame.None? { ScanAgain(buffer, c); }
    } else {
      ScanExtends(buffer, rest, c, true);
    }
    if frame.Some? {
      var late := Drain(whole, next, true).0;
      assert frames + ([frame.value] + late) == frames + [frame.value] + late;
    }
  }

  /** At the end of input a search that found nothing finds nothing again. */
  lemma {:induction false} ScanAgain(buffer: string, c: Cursor)
    requires Within(c, buffer) && Scan(buffer, c, true).0.None?
    ensures Scan(buffer, Scan(buffer, c, true).1, true) == (None, Scan(buffer, c, true).1)
    decreases |buffer| - c.scanIndex
  {
    if c.scanIndex < |buffer| {
      var ending := LineEndingAt(buffer, c.scanIndex, true);
      var next := if ending.Absent? then c.scanIndex + 1 else c.scanIndex + ending.length;
      ScanAgain(buffer, c.(scanIndex := next));
    }
  }

  /* ---------- payloads ---------- */

  predicate IsAsciiWhitespace(c: char) {
    c == ' ' || c == '\t' || c == '\n' || c == '\U{0C}' || c == '\r'
  }

  function TrimStart(s: string): string {
    if s != "" && IsWhitespace(s[0]) then TrimStart(s[1..]) else s
  }

  /** The data carried by one line, if it is a data line. */
  function DataOf(line: string): seq<string> {
    if "data:" <= line then [TrimStart(line[5..])] else []
  }

  function Join(parts: seq<string>): string {
    if parts == [] then ""
    else if |parts| == 1 then parts[0]
    else parts[0] + "\n" + Join(parts[1..])
  }

  function ReplaceCrLf(s: string): string {
    if s == "" then ""
    else if s[0] == '\r' && |s| > 1 && s[1] == '\n' then "\n" + ReplaceCrLf(s[2..])
    else [s[0]] + ReplaceCrLf(s[1..])
  }

  function ReplaceCr(s: string): string {
    if s == "" then "" else [if s[0] == '\r' then '\n' else s[0]] + ReplaceCr(s[1..])
  }

  function SplitLf(s: string): (lines: seq<string>)
    ensures |lines| > 0
  {
    if s == "" then [""]
    else if s[0] == '\n' then [""] + SplitLf(s[1..])
    else var rest := SplitLf(s[1..]); [[s[0]] + rest[0]] + rest[1..]
  }

  function DataLines(lines: seq<string>): seq<string> {
    if lines == [] then [] else DataOf(lines[0]) + DataLines(lines[1..])
  }

  /** Normalise the line endings, split, keep the data lines, join them. */
  function FrameData(frame: string): Option<string> {
    var data := Join(DataLines(SplitLf(ReplaceCr(ReplaceCrLf(frame)))));
    if data == "" then None else Some(data)
  }

  /* ---------- a line-at-a-time reader ---------- */

  predicate IsBreak(c: char) { c == '\r' || c == '\n' }

  /** The length of the line before the first CR, LF or CRLF. */
  function LineLength(s: string): (n: nat)
    ensures n <= |s| && (n < |s| ==> IsBreak(s[n]))
    ensures forall i :: 0 <= i < n ==> !IsBreak(s[i])
  {
    if s == "" || IsBreak(s[0]) then 0 else 1 + LineLength(s[1..])
  }

  function BreakLength(s: string, n: nat): (k: nat)
    requires n < |s|
    ensures 1 <= k && n + k <= |s|
  {
    if s[n] == '\r' && n + 1 < |s| && s[n + 1] == '\n' then 2 else 1
  }

  function Flush(data: seq<string>): seq<string> {
    if Join(data) == "" then [] else [Join(data)]
  }

  /** Collects data lines, emits them at each blank line and at the end of the text. */
  function ReadLines(s: string, data: seq<string>): seq<string>
    decreases |s|
  {
    var n := LineLength(s);
    if n == |s| then Flush(data + DataOf(s))
    else
      var rest := s[n + BreakLength(s, n)..];
      if n == 0 then Flush(data) + ReadLines(rest, []) else ReadLines(rest, data + DataOf(s[..n]))
  }

  /* ---------- frame payloads, line by line ---------- */

  /** The data of all lines of `s`, after `data`. */
  ghost function Collect(s: string, data: seq<string>): seq<string>
    decreases |s|
  {
    var n := LineLength(s);
    if n == |s| then data + DataOf(s)
    else Collect(s[n + BreakLength(s, n)..], data + DataOf(s[..n]))
  }

  ghost function Lines(s: string): (lines: seq<string>)
    ensures |lines| > 0
    decreases |s|
  {
    var n := LineLength(s);
    if n == |s| then [s] else [s[..n]] + Lines(s[n + BreakLength(s, n)..])
  }

  lemma {:induction false} CollectIsDataLines(s: string, data: seq<string>)
    ensures Collect(s, data) == data + DataLines(Lines(s))
    decreases |s|
  {
    hide DataOf, LineLength, BreakLength, DataLines;
    var n := LineLength(s);
    if n == |s| {
      DataLinesOf(s, []);
      assert [s] + [] == [s];
    } else {
      var rest := s[n + BreakLength(s, n)..];
      CollectIsDataLines(rest, data + DataOf(s[..n]));
      DataLinesOf(s[..n], Lines(rest));
      var l, r := DataOf(s[..n]), DataLines(Lines(rest));
      assert data + l + r == data + (l + r);
    }
  }

  lemma DataLinesOf(line: string, lines: seq<string>)
    ensures DataLines([line] + lines) == DataOf(line) + DataLines(lines)
    ensures DataLines([]) == [] && DataOf(line) + [] == DataOf(line)
  {
    hide DataOf;
    assert ([line] + lines)[1..] == lines;
  }

  /** Reading lines directly is what normalising and splitting does. */
  lemma {:induction false} NormalisedSplitIsLines(s: string)
    ensures SplitLf(ReplaceCr(ReplaceCrLf(s))) == Lines(s)
    decreases |s|
  {
    if s == "" {
    } else if IsBreak(s[0]) {
      var k := BreakLength(s, 0);
      NormalisedSplitIsLines(s[k..]);
      BreakNormalised(s);
    } else {
      NormalisedSplitIsLines(s[1..]);
      CharNormalised(s);
      LinesOfLonger(s);
    }
  }

  lemma BreakNormalised(s: string)
    requires s != "" && IsBreak(s[0])
    ensures ReplaceCr(ReplaceCrLf(s)) == "\n" + ReplaceCr(ReplaceCrLf(s[BreakLength(s, 0)..]))
    ensures Lines(s) == [""] + Lines(s[BreakLength(s, 0)..])
    ensures SplitLf(ReplaceCr(ReplaceCrLf(s))) == [""] + SplitLf(ReplaceCr(ReplaceCrLf(s[BreakLength(s, 0)..])))
  {
    var rest := ReplaceCrLf(s[BreakLength(s, 0)..]);
    var head := if BreakLength(s, 0) == 2 then '\n' else s[0];
    assert ReplaceCrLf(s) == [head] + rest;
    assert ([head] + rest)[1..] == rest;
    var tail := ReplaceCr(rest);
    assert ("\n" + tail)[1..] == tail;
  }

  lemma CharNormalised(s: string)
    requires s != "" && !IsBreak(s[0])
    ensures var rest := SplitLf(ReplaceCr(ReplaceCrLf(s[1..])));
            SplitLf(ReplaceCr(ReplaceCrLf(s))) == [[s[0]] + rest[0]] + rest[1..]
  {
    var rest := ReplaceCrLf(s[1..]);
    assert ReplaceCrLf(s) == [s[0]] + rest;
    assert ([s[0]] + rest)[1..] == rest;
    var tail := ReplaceCr(rest);
    assert ([s[0]] + tail)[1..] == tail;
  }

  lemma {:induction false} LinesOfLonger(s: string)
    requires s != "" && !IsBreak(s[0])
    ensures Lines(s) == [[s[0]] + Lines(s[1..])[0]] + Lines(s[1..])[1..]
  {
    var t := s[1..];
    var n := LineLength(t);
    assert LineLength(s) == n + 1;
    if n < |t| {
      assert BreakLength(s, n + 1) == BreakLength(t, n);
      var k := BreakLength(t, n);
      assert s[n + 1 + k..] == t[n + k..];
      assert s[..n + 1] == [s[0]] + t[..n];
    } else {
      assert s == [s[0]] + t;
    }
  }

  lemma {:induction false} FrameDataCollects(frame: string)
    ensures FrameData(frame) == if Join(Collect(frame, [])) == "" then None else Some(Join(Collect(frame, [])))
  {
    NormalisedSplitIsLines(frame);
    CollectIsDataLines(frame, []);
    var data := DataLines(Lines(frame));
    assert [] + data == data;
  }

  /* ---------- the cursor reads what the line reader reads ---------- */

  function PayloadOf(frame: string): seq<string> {
    match FrameData(frame)
    case None => []
    case Some(data) => [data]
  }

  /** A tail of ASCII whitespace is not looked at. */
  function TailPayload(pending: string): seq<string> {
    if forall c :: c in pending ==> IsAsciiWhitespace(c) then [] else PayloadOf(pending)
  }

  /** The payloads of the remaining frames and of the pending tail. */
  ghost function Payloads(buffer: string, c: Cursor): seq<string>
    requires Within(c, buffer)
    decreases |buffer| - c.scanIndex
  {
    var (frame, next) := Scan(buffer, c, true);
    if frame.None? then TailPayload(buffer[next.frameStart..])
    else PayloadOf(buffer[frame.value.start..frame.value.end]) + Payloads(buffer, next)
  }

  lemma {:induction false} PayloadCollects(frame: string)
    ensures PayloadOf(frame) == Flush(Collect(frame, []))
  {
    FrameDataCollects(frame);
  }

  lemma WhitespaceIsNoData(line: string)
    requires forall c :: c in line ==> IsAsciiWhitespace(c)
    ensures DataOf(line) == []
  {
    if line != "" { assert line[0] in line; }
  }

  /** Whitespace carries no data line, so skipping it loses nothing. */
  lemma {:induction false} WhitespaceCollects(s: string, data: seq<string>)
    requires forall c :: c in s ==> IsAsciiWhitespace(c)
    ensures Collect(s, data) == data
    decreases |s|
  {
    hide LineLength, BreakLength, DataOf, IsAsciiWhitespace;
    var n := LineLength(s);
    WhitespaceIsNoData(s);
    WhitespaceIsNoData(s[..n]);
    assert data + [] == data;
    if n < |s| {
      WhitespaceCollects(s[n + BreakLength(s, n)..], data);
    }
  }

  lemma {:induction false} TailCollects(pending: string)
    ensures TailPayload(pending) == Flush(Collect(pending, []))
  {
    PayloadCollects(pending);
    if forall c :: c in pending ==> IsAsciiWhitespace(c) {
      WhitespaceCollects(pending, []);
    }
  }

  /** At the end of input a search passes over the rest of a line. */
  lemma {:induction false} SkipLine(buffer: string, c: Cursor)
    requires Within(c, buffer)
    ensures var n := LineLength(buffer[c.scanIndex..]);
            Scan(buffer, c, true) == Scan(buffer, c.(scanIndex := c.scanIndex + n), true)
    decreases |buffer| - c.scanIndex
  {
    hide Scan;
    var t := buffer[c.scanIndex..];
    if c.scanIndex < |buffer| && !IsBreak(buffer[c.scanIndex]) {
      var next := c.(scanIndex := c.scanIndex + 1);
      assert t[1..] == buffer[next.scanIndex..];
      SkipLine(buffer, next);
      ScanStep(buffer, c, true);
    }
  }

  /** What a search does at a line break once the input has ended. */
  lemma ScanAtBreak(buffer: string, c: Cursor)
    requires Within(c, buffer) && c.scanIndex < |buffer| && IsBreak(buffer[c.scanIndex])
    ensures var second := c.scanIndex + BreakLength(buffer, c.scanIndex);
            Scan(buffer, c, true) ==
            if second < |buffer| && IsBreak(buffer[second]) then
              var end := second + BreakLength(buffer, second);
              (Some(Frame(c.frameStart, c.scanIndex)), Cursor(end, end))
            else Scan(buffer, c.(scanIndex := second), true)
  {
    hide Scan;
    ScanStep(buffer, c, true);
  }

  /** Collecting a text whose first line is known. */
  lemma {:induction false} CollectStep(s: string, line: string, k: nat, rest: string, data: seq<string>)
    requires LineLength(line) == |line| && |line| + k <= |s| && line == s[..|line|] && rest == s[|line| + k..]
    requires |line| < |s| && IsBreak(s[|line|]) && k == BreakLength(s, |line|)
    ensures Collect(s, data) == Collect(rest, data + DataOf(line))
    ensures ReadLines(s, data)
         == if line == "" then Flush(data) + ReadLines(rest, []) else ReadLines(rest, data + DataOf(line))
  {
    hide DataOf, Flush;
    LineLengthOfPrefix(s, |line|);
  }

  lemma {:induction false} LineLengthOfPrefix(s: string, n: nat)
    requires n <= |s| && LineLength(s[..n]) == n && (n == |s| || IsBreak(s[n]))
    ensures LineLength(s) == n
  {
    assert forall i :: 0 <= i < n ==> s[..n][i] == s[i];
  }

  /** Flushing nothing emits nothing, and an empty line carries no data. */
  lemma EmptyFlush(data: seq<string>)
    ensures Flush([]) == [] && DataOf("") == [] && data + [] == data
  {
  }

  /** `data` are the data lines of the current frame before the scan position, for every
      end of the frame that may follow. */
  ghost predicate Collected(buffer: string, c: Cursor, data: seq<string>)
    requires Within(c, buffer)
  {
    forall e :: c.scanIndex <= e <= |buffer| ==>
      Collect(buffer[c.frameStart..e], []) == Collect(buffer[c.scanIndex..e], data)
  }

  lemma {:induction false} CollectedStep(buffer: string, c: Cursor, data: seq<string>, line: string, second: nat)
    requires Within(c, buffer) && Collected(buffer, c, data)
    requires c.scanIndex + |line| < second <= |buffer| && line == buffer[c.scanIndex..c.scanIndex + |line|]
    requires LineLength(line) == |line| && IsBreak(buffer[c.scanIndex + |line|])
    requires second == c.scanIndex + |line| + BreakLength(buffer, c.scanIndex + |line|)
    ensures Collected(buffer, c.(scanIndex := second), data + DataOf(line))
  {
    hide Collect, ReadLines, DataOf, LineLength;
    var k := BreakLength(buffer, c.scanIndex + |line|);
    forall e | second <= e <= |buffer|
      ensures Collect(buffer[c.frameStart..e], []) == Collect(buffer[second..e], data + DataOf(line))
    {
      var s := buffer[c.scanIndex..e];
      assert s[..|line|] == line && s[|line| + k..] == buffer[second..e];
      assert s[|line|] == buffer[c.scanIndex + |line|];
      CollectStep(s, line, k, buffer[second..e], data);
    }
  }

  /** From a line start on, frames and tail carry exactly what the line reader emits. */
  lemma {:induction false} CursorReadsLines(buffer: string, c: Cursor, data: seq<string>)
    requires Within(c, buffer) && Collected(buffer, c, data)
    requires if c.scanIndex == c.frameStart then data == []
             else c.scanIndex == |buffer| || !IsBreak(buffer[c.scanIndex])
    ensures Payloads(buffer, c) == ReadLines(buffer[c.scanIndex..], data)
    decreases |buffer| - c.scanIndex
  {
    hide Scan, Collect, ReadLines, LineLength, BreakLength, DataOf, Flush, Payloads;
    var n := LineLength(buffer[c.scanIndex..]);
    var index := c.scanIndex + n;
    if index == |buffer| {
      LastLine(buffer, c, data);
    } else {
      var second := index + BreakLength(buffer, index);
      if second < |buffer| && IsBreak(buffer[second]) {
        var end := EndFrame(buffer, c, data);
        CursorReadsLines(buffer, Cursor(end, end), []);
      } else {
        var data' := ContinueFrame(buffer, c, data);
        CursorReadsLines(buffer, c.(scanIndex := second), data');
      }
    }
  }

  /** A line that is not followed by a blank one: the cursor moves to the next line. */
  lemma {:induction false} ContinueFrame(buffer: string, c: Cursor, data: seq<string>) returns (data': seq<string>)
    requires Within(c, buffer) && Collected(buffer, c, data)
    requires var index := c.scanIndex + LineLength(buffer[c.scanIndex..]);
             && index < |buffer|
             && (index == c.scanIndex ==> data == [])
             && var second := index + BreakLength(buffer, index);
                second == |buffer| || !IsBreak(buffer[second])
    ensures var index := c.scanIndex + LineLength(buffer[c.scanIndex..]);
            var second := index + BreakLength(buffer, index);
            && Collected(buffer, c.(scanIndex := second), data')
            && Payloads(buffer, c) == Payloads(buffer, c.(scanIndex := second))
            && ReadLines(buffer[c.scanIndex..], data) == ReadLines(buffer[second..], data')
  {
    hide Collected, Collect, ReadLines, LineLength, BreakLength, DataOf, Payloads;
    data' := ContinueReading(buffer, c, data);
    ContinuePayloads(buffer, c);
  }

  lemma {:induction false} ContinuePayloads(buffer: string, c: Cursor)
    requires Within(c, buffer)
    requires var index := c.scanIndex + LineLength(buffer[c.scanIndex..]);
             && index < |buffer|
             && var second := index + BreakLength(buffer, index);
                second == |buffer| || !IsBreak(buffer[second])
    ensures var index := c.scanIndex + LineLength(buffer[c.scanIndex..]);
            Payloads(buffer, c) == Payloads(buffer, c.(scanIndex := index + BreakLength(buffer, index)))
  {
    hide Scan, Collect, LineLength, BreakLength, DataOf, TailPayload, PayloadOf, LineEndingAt, Payloads;
    var index := c.scanIndex + LineLength(buffer[c.scanIndex..]);
    LineOfText(buffer[c.scanIndex..]);
    SkipLine(buffer, c);
    ScanAtBreak(buffer, c.(scanIndex := index));
    SameScanSamePayloads(buffer, c, c.(scanIndex := index + BreakLength(buffer, index)));
  }

  lemma SameScanSamePayloads(buffer: string, c: Cursor, d: Cursor)
    requires Within(c, buffer) && Within(d, buffer) && Scan(buffer, c, true) == Scan(buffer, d, true)
    ensures Payloads(buffer, c) == Payloads(buffer, d)
  {
    hide Scan, TailPayload, PayloadOf;
  }

  lemma {:induction false} ContinueReading(buffer: string, c: Cursor, data: seq<string>) returns (data': seq<string>)
    requires Within(c, buffer) && Collected(buffer, c, data)
    requires var index := c.scanIndex + LineLength(buffer[c.scanIndex..]);
             index < |buffer| && (index == c.scanIndex ==> data == [])
    ensures var index := c.scanIndex + LineLength(buffer[c.scanIndex..]);
            var second := index + BreakLength(buffer, index);
            && Collected(buffer, c.(scanIndex := second), data')
            && ReadLines(buffer[c.scanIndex..], data) == ReadLines(buffer[second..], data')
  {
    hide Collected, Collect, ReadLines, LineLength, BreakLength, DataOf, Flush;
    var t := buffer[c.scanIndex..];
    var n := LineLength(t);
    var index := c.scanIndex + n;
    var line := t[..n];
    var k := BreakLength(buffer, index);
    data' := data + DataOf(line);
    LineOfText(t);
    EmptyFlush(data);
    assert line == buffer[c.scanIndex..index];
    CollectedStep(buffer, c, data, line, index + k);
    BreakLengthOfDrop(buffer, c.scanIndex, n);
    assert buffer[index + k..] == t[n + k..];
    CollectStep(t, line, k, buffer[index + k..], data);
    var empty := ReadLines(buffer[index + k..], []);
    assert [] + empty == empty;
  }

  /** A line followed by a blank one: the frame ends and its payload is emitted. */
  lemma {:induction false} EndFrame(buffer: string, c: Cursor, data: seq<string>) returns (end: nat)
    requires Within(c, buffer) && Collected(buffer, c, data)
    requires var index := c.scanIndex + LineLength(buffer[c.scanIndex..]);
             && index < |buffer|
             && var second := index + BreakLength(buffer, index);
                second < |buffer| && IsBreak(buffer[second])
    ensures c.scanIndex < end <= |buffer| && Collected(buffer, Cursor(end, end), [])
    ensures var line := buffer[c.scanIndex..][..LineLength(buffer[c.scanIndex..])];
            && Payloads(buffer, c) == Flush(data + DataOf(line)) + Payloads(buffer, Cursor(end, end))
            && ReadLines(buffer[c.scanIndex..], data) == Flush(data + DataOf(line)) + ReadLines(buffer[end..], [])
  {
    hide Scan, Collect, ReadLines, LineLength, BreakLength, DataOf, Flush, TailPayload, PayloadOf, LineEndingAt, Payloads;
    var t := buffer[c.scanIndex..];
    var n := LineLength(t);
    var index := c.scanIndex + n;
    var line := t[..n];
    var k := BreakLength(buffer, index);
    var second := index + k;
    end := second + BreakLength(buffer, second);
    LineOfText(t);
    assert line == buffer[c.scanIndex..index];
    assert Payloads(buffer, c) == Flush(data + DataOf(line)) + Payloads(buffer, Cursor(end, end)) by {
      FrameEnds(buffer, c, data, line);
      SkipLine(buffer, c);
      ScanAtBreak(buffer, c.(scanIndex := index));
      PayloadsStep(buffer, c);
    }
    BlankLine(buffer, second, if n == 0 then [] else data + DataOf(line));
    assert ReadLines(t, data) == Flush(data + DataOf(line)) + ReadLines(buffer[end..], []) by {
      EmptyFlush(data);
      BreakLengthOfDrop(buffer, c.scanIndex, n);
      assert buffer[second..] == t[n + k..];
      CollectStep(t, line, k, buffer[second..], data);
      var rest := ReadLines(buffer[end..], []);
      assert Flush([]) + rest == rest;
    }
  }

  lemma PayloadsStep(buffer: string, c: Cursor)
    requires Within(c, buffer)
    ensures var (frame, next) := Scan(buffer, c, true);
            Payloads(buffer, c) == if frame.None? then TailPayload(buffer[next.frameStart..])
                                   else PayloadOf(buffer[frame.value.start..frame.value.end]) + Payloads(buffer, next)
  {
    hide Scan, TailPayload, PayloadOf;
  }

  /** The first line of a text contains no break; a text without a break is one line. */
  lemma LineOfText(t: string)
    ensures LineLength(t[..LineLength(t)]) == LineLength(t)
    ensures forall data :: LineLength(t) == |t| ==>
              Collect(t, data) == data + DataOf(t) && ReadLines(t, data) == Flush(data + DataOf(t))
  {
    LineLengthOfPrefixItself(t, LineLength(t));
  }

  lemma {:induction false} LineLengthOfPrefixItself(t: string, n: nat)
    requires n == LineLength(t)
    ensures LineLength(t[..n]) == n
  {
    assert forall i :: 0 <= i < n ==> t[..n][i] == t[i];
  }

  lemma BreakLengthOfDrop(buffer: string, from: nat, n: nat)
    requires from + n < |buffer|
    ensures BreakLength(buffer[from..], n) == BreakLength(buffer, from + n)
  {
  }

  lemma {:induction false} LastLine(buffer: string, c: Cursor, data: seq<string>)
    requires Within(c, buffer) && Collected(buffer, c, data)
    requires LineLength(buffer[c.scanIndex..]) == |buffer| - c.scanIndex
    ensures Payloads(buffer, c) == ReadLines(buffer[c.scanIndex..], data)
  {
    hide Collect, ReadLines, LineLength, DataOf, Flush, TailPayload, PayloadOf, LineEndingAt;
    var t := buffer[c.scanIndex..];
    SkipLine(buffer, c);
    LineOfText(t);
    assert buffer[c.scanIndex..|buffer|] == t && buffer[c.frameStart..|buffer|] == buffer[c.frameStart..];
    TailCollects(buffer[c.frameStart..]);
  }

  lemma {:induction false} FrameEnds(buffer: string, c: Cursor, data: seq<string>, line: string)
    requires Within(c, buffer) && Collected(buffer, c, data)
    requires c.scanIndex + |line| <= |buffer| && line == buffer[c.scanIndex..c.scanIndex + |line|]
    requires LineLength(line) == |line|
    ensures PayloadOf(buffer[c.frameStart..c.scanIndex + |line|]) == Flush(data + DataOf(line))
  {
    hide ReadLines, LineLength, DataOf, Flush, PayloadOf;
    PayloadCollects(buffer[c.frameStart..c.scanIndex + |line|]);
  }

  /** At a blank line the reader emits what it holds and starts afresh. */
  lemma {:induction false} BlankLine(buffer: string, at: nat, data: seq<string>)
    requires at < |buffer| && IsBreak(buffer[at])
    ensures var end := at + BreakLength(buffer, at);
            && ReadLines(buffer[at..], data) == Flush(data) + ReadLines(buffer[end..], [])
            && Collected(buffer, Cursor(end, end), [])
  {
    hide Flush, Collect;
    var k := BreakLength(buffer, at);
    BreakLengthOfDrop(buffer, at, 0);
    assert buffer[at..][k..] == buffer[at + k..];
  }
}
