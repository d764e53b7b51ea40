/** Server-sent events as a printer (src/api.rs): what the receiver hands on of a response whose
    lines are known. The format is that of the HTML Living Standard, section 9.2.
 */
module SsePrinter {
  import opened Wrappers
  import opened TextBasics
  import opened Utf8
  import opened SseFraming
  import opened SseBytes

  /** A line of an event: data, after as many spaces as one likes, or anything else. */
  datatype Line = Data(spaces: nat, text: string) | Other(text: string)

  /** How lines end throughout a response. */
  datatype Ending = Lf | Cr | CrLf

  function Spaces(n: nat): string { seq(n, _ => ' ') }

  function PrintLine(l: Line): string {
    match l
    case Data(spaces, text) => "data:" + Spaces(spaces) + text
    case Other(text) => text
  }

  function PrintEnding(e: Ending): string {
    match e case Lf => "\n" case Cr => "\r" case CrLf => "\r\n"
  }

  function PrintLines(ls: seq<Line>, e: Ending): string {
    if ls == [] then "" else PrintLine(ls[0]) + PrintEnding(e) + PrintLines(ls[1..], e)
  }

  /** Events, each closed by a blank line, and the lines of one that was not closed. */
  function PrintResponse(events: seq<seq<Line>>, open: seq<Line>, e: Ending): string {
    if events == [] then PrintLines(open, e)
    else PrintLines(events[0], e) + (PrintEnding(e) + PrintResponse(events[1..], open, e))
  }

  /** No line contains a line break; a data text does not begin with white space, and any other
      line is not blank and no data line. */
  ghost predicate Printable(l: Line) {
    && (forall i :: 0 <= i < |l.text| ==> l.text[i] != '\r' && l.text[i] != '\n')
    && (l.Data? ==> l.text == "" || !IsWhitespace(l.text[0]))
    && (l.Other? ==> l.text != "" && !("data:" <= l.text))
  }

  ghost predicate AllPrintable(ls: seq<Line>) { forall i :: 0 <= i < |ls| ==> Printable(ls[i]) }

  /** The data of an event: the texts of its data lines, in order. */
  function Texts(ls: seq<Line>): seq<string> {
    if ls == [] then []
    else if ls[|ls| - 1].Data? then Texts(ls[..|ls| - 1]) + [ls[|ls| - 1].text]
    else Texts(ls[..|ls| - 1])
  }

  /** Texts with a line feed between any two. */
  function WithFeeds(texts: seq<string>): string {
    if texts == [] then "" else if |texts| == 1 then texts[0] else WithFeeds(texts[..|texts| - 1]) + "\n" + texts[|texts| - 1]
  }

  /** What is handed on of an event: nothing if its data is empty. */
  function Handed(ls: seq<Line>): seq<string> {
    if WithFeeds(Texts(ls)) == "" then [] else [WithFeeds(Texts(ls))]
  }

  function AllHanded(events: seq<seq<Line>>, open: seq<Line>): seq<string> {
    if events == [] then Handed(open) else Handed(events[0]) + AllHanded(events[1..], open)
  }

  /* ---------- one line ---------- */

  lemma {:induction false} TrimSpaces(n: nat, text: string)
    requires text == "" || !IsWhitespace(text[0])
    ensures TrimStart(Spaces(n) + text) == text
  {
    if n == 0 {
      assert Spaces(0) + text == text;
    } else {
      assert (Spaces(n) + text)[1..] == Spaces(n - 1) + text && (Spaces(n) + text)[0] == ' ';
      TrimSpaces(n - 1, text);
    }
  }

  /** A printed line is one line, and carries the text of a data line and nothing else. */
  lemma {:induction false} PrintedLine(l: Line)
    requires Printable(l)
    ensures DataOf(PrintLine(l)) == (if l.Data? then [l.text] else [])
    ensures PrintLine(l) != "" && LineLength(PrintLine(l)) == |PrintLine(l)|
    ensures forall i :: 0 <= i < |PrintLine(l)| ==> !IsBreak(PrintLine(l)[i])
  {
    var line := PrintLine(l);
    if l.Data? {
      assert line[..5] == "data:" && line[5..] == Spaces(l.spaces) + l.text;
      TrimSpaces(l.spaces, l.text);
      forall i | 0 <= i < |line| ensures !IsBreak(line[i]) {
        if i >= 5 + l.spaces { assert line[i] == l.text[i - 5 - l.spaces]; }
      }
    }
    NoBreak(line);
  }

  lemma NoBreak(line: string)
    requires forall i :: 0 <= i < |line| ==> !IsBreak(line[i])
    ensures LineLength(line) == |line|
  {
  }

  /** After a carriage return there is no line feed that would belong to it. */
  predicate Follows(rest: string, e: Ending) { e.Cr? ==> rest == "" || rest[0] != '\n' }

  /** Reading one printed line. */
  lemma {:induction false} ReadLine(l: Line, e: Ending, rest: string, data: seq<string>)
    requires Printable(l) && Follows(rest, e)
    ensures ReadLines(PrintLine(l) + PrintEnding(e) + rest, data) == ReadLines(rest, data + (if l.Data? then [l.text] else []))
  {
    hide ReadLines, DataOf, PrintLine, LineLength;
    var line := PrintLine(l);
    var s := line + PrintEnding(e) + rest;
    PrintedLine(l);
    assert s[..|line|] == line && s[|line| + |PrintEnding(e)|..] == rest;
    EndingIsBreak(line, e, rest);
    CollectStep(s, line, |PrintEnding(e)|, rest, data);
  }

  lemma EndingIsBreak(line: string, e: Ending, rest: string)
    requires Follows(rest, e)
    ensures var s := line + PrintEnding(e) + rest;
            |line| < |s| && IsBreak(s[|line|]) && BreakLength(s, |line|) == |PrintEnding(e)|
  {
  }

  /** Reading a blank line. */
  lemma {:induction false} ReadBlank(e: Ending, rest: string, data: seq<string>)
    requires Follows(rest, e)
    ensures ReadLines(PrintEnding(e) + rest, data) == Flush(data) + ReadLines(rest, [])
  {
    hide ReadLines, DataOf, Flush, LineLength;
    var s := PrintEnding(e) + rest;
    EndingIsBreak("", e, rest);
    assert "" + PrintEnding(e) + rest == s && s[|PrintEnding(e)|..] == rest;
    NoBreak("");
    CollectStep(s, "", |PrintEnding(e)|, rest, data);
  }

  /* ---------- an event ---------- */

  lemma {:induction false} TextsConcat(a: seq<Line>, b: seq<Line>)
    ensures Texts(a + b) == Texts(a) + Texts(b)
    decreases |b|
  {
    if b == [] {
      assert a + b == a;
    } else {
      assert (a + b)[..|a + b| - 1] == a + b[..|b| - 1];
      TextsConcat(a, b[..|b| - 1]);
    }
  }

  /** The two ways of joining texts agree. */
  lemma {:induction false} JoinIsWithFeeds(texts: seq<string>)
    ensures Join(texts) == WithFeeds(texts)
    decreases |texts|
  {
    if |texts| > 1 {
      var n := |texts| - 1;
      JoinSnoc(texts[..n], texts[n]);
      assert texts == texts[..n] + [texts[n]];
      JoinIsWithFeeds(texts[..n]);
    }
  }

  lemma {:induction false} JoinSnoc(texts: seq<string>, t: string)
    requires texts != []
    ensures Join(texts + [t]) == Join(texts) + "\n" + t
  {
    if |texts| == 1 {
      assert (texts + [t])[1..] == [t];
    } else {
      assert (texts + [t])[1..] == texts[1..] + [t];
      JoinSnoc(texts[1..], t);
    }
  }

  lemma FlushIsHanded(ls: seq<Line>)
    ensures Flush(Texts(ls)) == Handed(ls)
  {
    JoinIsWithFeeds(Texts(ls));
  }

  lemma {:induction false} PrintedFollows(ls: seq<Line>, e: Ending, rest: string)
    requires AllPrintable(ls) && Follows(rest, e)
    ensures Follows(PrintLines(ls, e) + rest, e)
  {
    if ls != [] {
      PrintedLine(ls[0]);
      assert (PrintLines(ls, e) + rest)[0] == PrintLine(ls[0])[0];
    } else {
      assert PrintLines(ls, e) + rest == rest;
    }
  }

  /** Reading the lines of an event. */
  lemma {:induction false} ReadPrinted(ls: seq<Line>, e: Ending, rest: string, before: seq<Line>)
    requires AllPrintable(ls) && Follows(rest, e)
    ensures ReadLines(PrintLines(ls, e) + rest, Texts(before)) == ReadLines(rest, Texts(before + ls))
    decreases |ls|
  {
    hide ReadLines, PrintLine, PrintLines, PrintEnding, Follows, Texts, Printable;
    if ls == [] {
      NothingPrinted(e);
      assert "" + rest == rest && before + ls == before;
    } else {
      var more := PrintLines(ls[1..], e) + rest;
      PrintedFollows(ls[1..], e, rest);
      PrintedStep(ls, e, rest);
      ReadLine(ls[0], e, more, Texts(before));
      TextsConcat(before, [ls[0]]);
      TextOfOne(ls[0]);
      ReadPrinted(ls[1..], e, rest, before + [ls[0]]);
      assert before + [ls[0]] + ls[1..] == before + ls;
    }
  }

  lemma PrintedStep(ls: seq<Line>, e: Ending, rest: string)
    requires ls != []
    ensures PrintLines(ls, e) + rest == PrintLine(ls[0]) + PrintEnding(e) + (PrintLines(ls[1..], e) + rest)
  {
    hide PrintLine, PrintEnding;
  }

  lemma NothingPrinted(e: Ending)
    ensures PrintLines([], e) == ""
  {
  }

  lemma TextOfOne(l: Line)
    ensures Texts([l]) == (if l.Data? then [l.text] else []) && Texts([]) == []
  {
    assert [l][..0] == [];
    assert [] + [l.text] == [l.text];
  }

  lemma {:induction false} ResponseFollows(events: seq<seq<Line>>, open: seq<Line>, e: Ending)
    requires AllPrintable(open) && forall i :: 0 <= i < |events| ==> AllPrintable(events[i])
    ensures Follows(PrintResponse(events, open, e), e)
  {
    if events == [] {
      PrintedFollows(open, e, "");
      assert PrintLines(open, e) + "" == PrintLines(open, e);
    } else {
      PrintedFollows(events[0], e, PrintEnding(e) + PrintResponse(events[1..], open, e));
    }
  }

  /** Of a printed response the line reader hands on, event by event, the data texts with line
      feeds between them. Other lines, wherever they stand, change nothing. */
  lemma {:induction false} ReaderHandsOnTheData(events: seq<seq<Line>>, open: seq<Line>, e: Ending)
    requires AllPrintable(open) && forall i :: 0 <= i < |events| ==> AllPrintable(events[i])
    ensures ReadLines(PrintResponse(events, open, e), []) == AllHanded(events, open)
    decreases |events|
  {
    hide ReadLines, PrintLines, Texts, AllPrintable, Flush, Handed;
    TextOfOne(Data(0, ""));
    if events == [] {
      assert PrintLines(open, e) + "" == PrintLines(open, e) && [] + open == open;
      ReadPrinted(open, e, "", []);
      ReadNothing(Texts(open));
      FlushIsHanded(open);
    } else {
      var rest := PrintResponse(events[1..], open, e);
      ResponseFollows(events[1..], open, e);
      EndingFollows(e, rest);
      assert [] + events[0] == events[0];
      ReadPrinted(events[0], e, PrintEnding(e) + rest, []);
      ReadBlank(e, rest, Texts(events[0]));
      FlushIsHanded(events[0]);
      ReaderHandsOnTheData(events[1..], open, e);
    }
  }

  lemma EndingFollows(e: Ending, rest: string)
    ensures Follows(PrintEnding(e) + rest, e)
  {
  }

  lemma ReadNothing(data: seq<string>)
    ensures ReadLines("", data) == Flush(data)
  {
    assert data + [] == data;
  }

  /** However its bytes are cut, a printed response is accepted, and what is handed on of it is, event
      by event, the texts of its data lines with line feeds between them, unless that is empty. */
  method ReceivePrinted(events: seq<seq<Line>>, open: seq<Line>, e: Ending, chunks: seq<seq<Byte>>)
    returns (payloads: seq<string>, valid: bool)
    requires AllPrintable(open) && forall i :: 0 <= i < |events| ==> AllPrintable(events[i])
    requires Concat(chunks) == Encode(PrintResponse(events, open, e))
    ensures valid && payloads == AllHanded(events, open)
  {
    hide ReadLines, PrintResponse, AllHanded, AllPrintable, BytePayloads, Encode, Decode;
    ReaderHandsOnTheData(events, open, e);
    DecodeEncoded(PrintResponse(events, open, e));
    payloads, valid := ReceivePayloads(chunks);
  }
}
