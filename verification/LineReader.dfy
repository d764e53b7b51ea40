/** Model of the control session's bounded line reader (src/control.rs).

    The reader sees its input through a buffer that is refilled in pieces of
    any size. What it returns, and where it leaves the stream, is specified on
    the bytes of the stream alone.
 */
module LineReader {
  import opened Wrappers

  const NEWLINE: Byte := 10
  const CARRIAGE_RETURN: Byte := 13

  datatype LineResult = Line(bytes: seq<Byte>) | EndOfInput | TooLong

  /* ---------- specification on whole streams ---------- */

  ghost predicate Unbroken(s: seq<Byte>) {
    NEWLINE !in s
  }

  /** How many bytes the first line of `s` takes, its newline included. */
  function LineEnd(s: seq<Byte>): (n: nat)
    ensures n <= |s| && (s != [] ==> n > 0)
  {
    if s == [] then 0 else if s[0] == NEWLINE then 1 else 1 + LineEnd(s[1..])
  }

  function TrimLineBreaks(line: seq<Byte>): seq<Byte>
    decreases |line|
  {
    if line != [] && (line[|line| - 1] == NEWLINE || line[|line| - 1] == CARRIAGE_RETURN)
    then TrimLineBreaks(line[..|line| - 1])
    else line
  }

  /** The result of one read at the front of `s`. */
  function FirstLine(s: seq<Byte>, limit: nat): LineResult {
    var n := LineEnd(s);
    if s == [] then EndOfInput
    else if n > limit + 1 then TooLong
    else if s[n - 1] == NEWLINE then Line(TrimLineBreaks(s[..n]))
    else Line(s[..n])
  }

  lemma EmptyIsUnbroken()
    ensures Unbroken([])
  {
  }

  /** The first line is what lies up to and including the first newline. */
  lemma {:induction false} LineEndIsFirstNewline(s: seq<Byte>)
    requires s != []
    ensures var n := LineEnd(s); Unbroken(s[..n - 1]) && (s[n - 1] == NEWLINE || (n == |s| && Unbroken(s)))
  {
    if s[0] != NEWLINE && s[1..] != [] {
      LineEndIsFirstNewline(s[1..]);
      var n := LineEnd(s);
      assert s[..n - 1] == [s[0]] + s[1..][..n - 2];
      assert s == [s[0]] + s[1..];
    }
  }

  lemma {:induction false} LineEndAfter(p: seq<Byte>, s: seq<Byte>)
    requires Unbroken(p)
    ensures LineEnd(p + s) == |p| + LineEnd(s)
  {
    if p == [] {
      assert p + s == s;
    } else {
      assert (p + s)[1..] == p[1..] + s;
      LineEndAfter(p[1..], s);
    }
  }

  lemma {:induction false} LineEndUnterminated(s: seq<Byte>)
    requires Unbroken(s)
    ensures LineEnd(s) == |s|
  {
    LineEndAfter(s, []);
    assert s + [] == s;
  }

  lemma {:induction false} LineEndTerminated(line: seq<Byte>, rest: seq<Byte>)
    requires Unbroken(line)
    ensures LineEnd(line + [NEWLINE] + rest) == |line| + 1
  {
    assert line + [NEWLINE] + rest == line + ([NEWLINE] + rest);
    LineEndAfter(line, [NEWLINE] + rest);
  }

  /** One refill: `seen` bytes without a newline, then a chunk, then bytes not looked at. */
  lemma {:induction false} ChunkStep(seen: seq<Byte>, chunk: seq<Byte>, rest: seq<Byte>, whole: seq<Byte>, end: nat)
    requires Unbroken(seen) && chunk != [] && whole == seen + (chunk + rest) && end == LineEnd(chunk)
    ensures whole == seen + chunk[..end] + (chunk[end..] + rest)
    ensures if chunk[end - 1] == NEWLINE then LineEnd(whole) == |seen| + end
            else LineEnd(whole) >= |seen| + end && Unbroken(seen + chunk[..end])
  {
    LineEndIsFirstNewline(chunk);
    assert chunk == chunk[..end] + chunk[end..];
    if chunk[end - 1] == NEWLINE {
      ChunkEndsLine(seen, chunk[..end - 1], chunk[end..] + rest, whole);
    } else {
      assert chunk[..end] == chunk;
      assert whole == (seen + chunk) + rest;
      LineEndAfter(seen + chunk, rest);
    }
  }

  lemma {:induction false} ChunkEndsLine(seen: seq<Byte>, line: seq<Byte>, rest: seq<Byte>, whole: seq<Byte>)
    requires Unbroken(seen) && Unbroken(line) && whole == seen + (line + [NEWLINE] + rest)
    ensures LineEnd(whole) == |seen| + |line| + 1
  {
    assert whole == seen + line + [NEWLINE] + rest;
    LineEndTerminated(seen + line, rest);
  }

  /* ---------- the buffered source ---------- */

  /** A buffered byte source: `buffered` bytes are at hand, `source` bytes are not read yet. */
  class BufferedReader {
    var buffered: seq<Byte>
    var source: seq<Byte>

    constructor (bytes: seq<Byte>)
      ensures Stream() == bytes
    {
      buffered, source := [], bytes;
    }

    /** The bytes a consumer has still to see. */
    function Stream(): seq<Byte>
      reads this
    {
      buffered + source
    }

    /** Returns the bytes at hand, after one read of arbitrary size when there are none. */
    method FillBuf() returns (available: seq<Byte>)
      modifies this
      ensures Stream() == old(Stream()) && available == buffered
      ensures available == [] <==> Stream() == []
    {
      if buffered == [] && source != [] {
        var n :| 1 <= n <= |source|;
        buffered, source := source[..n], source[n..];
      }
      available := buffered;
    }

    method Consume(amount: nat)
      requires amount <= |buffered|
      modifies this
      ensures buffered == old(buffered)[amount..] && source == old(source)
    {
      buffered := buffered[amount..];
    }
  }

  /* ---------- the reader ---------- */

  /** Reads one line. Result and new stream position depend only on the bytes and the
      limit; a line over the limit is consumed exactly through its newline, or to the
      end of input, so the next read starts on the next line. */
  method ReadBoundedLine(reader: BufferedReader, limit: nat) returns (r: LineResult)
    modifies reader
    ensures r == FirstLine(old(reader.Stream()), limit)
    ensures reader.Stream() == old(reader.Stream())[LineEnd(old(reader.Stream()))..]
  {
    hide LineEnd, Unbroken;
    EmptyIsUnbroken();
    ghost var whole := reader.Stream();
    var line: seq<Byte> := [];
    while true
      invariant whole == line + reader.Stream()
      invariant Unbroken(line) && |line| <= limit + 1
      decreases |reader.Stream()|
    {
      var available := reader.FillBuf();
      if available == [] {
        FirstOfUnterminated(line, limit);
        assert whole == line;
        return if line == [] then EndOfInput else Line(line);
      }
      var end := LineEnd(available);
      ChunkStep(line, available, reader.source, whole, end);
      var foundNewline := available[end - 1] == NEWLINE;
      if |line| + end > limit + 1 {
        reader.Consume(end);
        if !foundNewline {
          DrainToNewline(reader, line + available[..end]);
        }
        return TooLong;
      }
      line := line + available[..end];
      reader.Consume(end);
      if foundNewline {
        line := TrimLine(line);
        return Line(line);
      }
    }
  }

  /** Pops the line breaks off the end of a line. */
  method TrimLine(bytes: seq<Byte>) returns (line: seq<Byte>)
    ensures line == TrimLineBreaks(bytes)
  {
    line := bytes;
    while line != [] && (line[|line| - 1] == NEWLINE || line[|line| - 1] == CARRIAGE_RETURN)
      invariant TrimLineBreaks(line) == TrimLineBreaks(bytes)
    {
      line := line[..|line| - 1];
    }
  }

  /** Skips the rest of a line whose consumed bytes are `seen`. */
  method DrainToNewline(reader: BufferedReader, ghost seen: seq<Byte>)
    requires Unbroken(seen)
    modifies reader
    ensures var whole := seen + old(reader.Stream()); reader.Stream() == whole[LineEnd(whole)..]
  {
    hide LineEnd, Unbroken;
    ghost var whole := seen + reader.Stream();
    ghost var skipped := seen;
    while true
      invariant whole == skipped + reader.Stream() && Unbroken(skipped)
      decreases |reader.Stream()|
    {
      var available := reader.FillBuf();
      if available == [] {
        LineEndUnterminated(skipped);
        assert whole == skipped;
        return;
      }
      var end := LineEnd(available);
      ChunkStep(skipped, available, reader.source, whole, end);
      var foundNewline := available[end - 1] == NEWLINE;
      skipped := skipped + available[..end];
      reader.Consume(end);
      if foundNewline {
        return;
      }
    }
  }

  /* ---------- whole sessions ---------- */

  /** The results of reading to the end of input. */
  ghost function AllLines(s: seq<Byte>, limit: nat): seq<LineResult>
    decreases |s|
  {
    if s == [] then [] else [FirstLine(s, limit)] + AllLines(s[LineEnd(s)..], limit)
  }

  method ReadAll(reader: BufferedReader, limit: nat) returns (results: seq<LineResult>)
    modifies reader
    ensures results == AllLines(old(reader.Stream()), limit) && reader.Stream() == []
  {
    hide LineEnd, FirstLine;
    results := [];
    while true
      invariant results + AllLines(reader.Stream(), limit) == AllLines(old(reader.Stream()), limit)
      decreases |reader.Stream()|
    {
      EndOfInputOnlyAtEnd(reader.Stream(), limit);
      AllLinesStep(reader.Stream(), limit);
      var r := ReadBoundedLine(reader, limit);
      if r == EndOfInput {
        break;
      }
      results := results + [r];
    }
  }

  lemma EndOfInputOnlyAtEnd(s: seq<Byte>, limit: nat)
    ensures FirstLine(s, limit) == EndOfInput <==> s == []
    ensures s != [] ==> LineEnd(s) > 0
  {
  }

  lemma AllLinesStep(s: seq<Byte>, limit: nat)
    ensures AllLines(s, limit)
         == if s == [] then [] else [FirstLine(s, limit)] + AllLines(s[LineEnd(s)..], limit)
  {
    hide FirstLine, LineEnd;
  }

  /** What reading makes of a terminated line with content `line`. */
  function Terminated(line: seq<Byte>, limit: nat): LineResult {
    if |line| > limit then TooLong else Line(TrimLineBreaks(line + [NEWLINE]))
  }

  /** A terminated line is returned without its newline and the carriage returns before that, if
      with those returns it is within the limit. */
  lemma {:induction false} TerminatedLosesItsBreak(body: seq<Byte>, breaks: nat, limit: nat)
    requires Unbroken(body) && (body == [] || body[|body| - 1] != 13)
    ensures Terminated(body + seq(breaks, _ => 13), limit) == if |body| + breaks > limit then TooLong else Line(body)
  {
    TrimReturns(body, breaks);
    var line := body + seq(breaks, _ => 13);
    assert (line + [10])[..|line|] == line;
  }

  lemma {:induction false} TrimReturns(body: seq<Byte>, n: nat)
    requires Unbroken(body) && (body == [] || body[|body| - 1] != 13)
    ensures TrimLineBreaks(body + seq(n, _ => 13)) == body
  {
    var line := body + seq(n, _ => 13);
    if n == 0 {
      assert line == body;
    } else {
      assert line[..|line| - 1] == body + seq(n - 1, _ => 13) && line[|line| - 1] == 13;
      TrimReturns(body, n - 1);
    }
  }

  ghost function Terminate(lines: seq<seq<Byte>>): seq<Byte> {
    if lines == [] then [] else lines[0] + [NEWLINE] + Terminate(lines[1..])
  }

  /** What each of the lines reads as. */
  ghost function EachLine(lines: seq<seq<Byte>>, limit: nat): seq<LineResult> {
    seq(|lines|, i requires 0 <= i < |lines| => Terminated(lines[i], limit))
  }

  lemma EachTerminated(lines: seq<seq<Byte>>, limit: nat)
    ensures EachLine([], limit) == []
    ensures lines != [] ==> EachLine(lines, limit) == [Terminated(lines[0], limit)] + EachLine(lines[1..], limit)
  {
    hide Terminated;
  }

  lemma TerminateStep(lines: seq<seq<Byte>>)
    ensures Terminate(lines) == if lines == [] then [] else lines[0] + [NEWLINE] + Terminate(lines[1..])
  {
  }

  /** Reading a stream of terminated lines and an unterminated tail gives back those
      lines, in order, each judged on its own; over-long ones do not disturb the rest. */
  lemma {:induction false} ReadsBackEveryLine(lines: seq<seq<Byte>>, tail: seq<Byte>, limit: nat)
    requires forall i :: 0 <= i < |lines| ==> Unbroken(lines[i])
    requires Unbroken(tail)
    ensures AllLines(Terminate(lines) + tail, limit)
         == EachLine(lines, limit)
            + (if tail == [] then [] else [if |tail| > limit + 1 then TooLong else Line(tail)])
  {
    hide LineEnd, FirstLine, Terminated, AllLines, EachLine, Terminate;
    var s := Terminate(lines) + tail;
    TerminateStep(lines);
    AllLinesStep(s, limit);
    if lines == [] {
      assert s == tail;
      FirstOfUnterminated(tail, limit);
      EachTerminated(lines, limit);
      AllLinesStep([], limit);
      assert tail[|tail|..] == [];
    } else {
      var rest := Terminate(lines[1..]) + tail;
      assert s == lines[0] + [NEWLINE] + rest;
      FirstOfTerminated(lines[0], rest, limit);
      ReadsBackEveryLine(lines[1..], tail, limit);
      EachTerminated(lines, limit);
    }
  }

  lemma {:induction false} FirstOfTerminated(line: seq<Byte>, rest: seq<Byte>, limit: nat)
    requires Unbroken(line)
    ensures var s := line + [NEWLINE] + rest;
            LineEnd(s) == |line| + 1 && s[LineEnd(s)..] == rest && FirstLine(s, limit) == Terminated(line, limit)
  {
    var s := line + [NEWLINE] + rest;
    LineEndTerminated(line, rest);
    assert s[..|line| + 1] == line + [NEWLINE];
  }

  lemma {:induction false} FirstOfUnterminated(tail: seq<Byte>, limit: nat)
    requires Unbroken(tail)
    ensures LineEnd(tail) == |tail|
    ensures tail != [] ==> FirstLine(tail, limit) == if |tail| > limit + 1 then TooLong else Line(tail)
  {
    LineEndUnterminated(tail);
    assert tail[..|tail|] == tail;
  }

  /** The limit is one byte more generous to a last line without a newline. */
  lemma UnterminatedLineGetsOneMoreByte(line: seq<Byte>, limit: nat)
    requires |line| == limit + 1 && Unbroken(line)
    ensures FirstLine(line, limit) == Line(line)
    ensures FirstLine(line + [NEWLINE], limit) == TooLong
  {
    FirstOfUnterminated(line, limit);
    FirstOfTerminated(line, [], limit);
    assert line + [NEWLINE] + [] == line + [NEWLINE];
  }
}
