/** Model of the fullscreen transcript (src/fullscreen.rs): committed and streaming lines,
    the cached screen rows, the byte account and the scroll position.

    Sanitising of control characters and the split into logical lines happen before a text
    arrives here; a message is the list of its logical lines.
 */
module Transcript {
  import opened Wrappers
  import opened LineWrap

  datatype Limits = Limits(bytes: nat, lines: nat, lineBytes: nat)

  /** A position in the transcript: a line and a byte within it. */
  datatype Anchor = Anchor(line: nat, byte: nat)

  function Max(a: nat, b: nat): nat { if a >= b then a else b }


  /* ---------- accounting and trimming ---------- */

  /** Each line costs its bytes and a newline. */
  function Cost(t: Text): nat { Bytes(t) + 1 }

  function TotalCost(lines: seq<Line>): nat {
    if lines == [] then 0 else Cost(lines[0].text) + TotalCost(lines[1..])
  }

  lemma {:induction false} TotalCostConcat(a: seq<Line>, b: seq<Line>)
    ensures TotalCost(a + b) == TotalCost(a) + TotalCost(b)
  {
    hide Cost;
    if a == [] {
      assert a + b == b;
    } else {
      assert (a + b)[1..] == a[1..] + b;
      TotalCostConcat(a[1..], b);
    }
  }

  /** The account is the size of the transcript written out, each line with a newline after it. */
  lemma {:induction false} AccountIsSize(lines: seq<Line>)
    ensures TotalCost(lines) == Bytes(WrittenOut(lines)) + |lines|
  {
    if lines != [] {
      AccountIsSize(lines[1..]);
      BytesConcat(lines[0].text, WrittenOut(lines[1..]));
    }
  }

  lemma {:induction false} BytesConcat(a: Text, b: Text)
    ensures Bytes(a + b) == Bytes(a) + Bytes(b)
  {
    if b == [] {
      assert a + b == a;
    } else {
      var front, g := b[..|b| - 1], b[|b| - 1];
      BytesConcat(a, front);
      BytesAndWidthAddUp(a + front, g);
      BytesAndWidthAddUp(front, g);
      assert a + b == a + front + [g] && b == front + [g];
    }
  }

  /** All texts, one after another. */
  ghost function WrittenOut(lines: seq<Line>): Text {
    if lines == [] then [] else lines[0].text + WrittenOut(lines[1..])
  }

  predicate WithinLimits(lines: seq<Line>, limits: Limits) {
    |lines| <= limits.lines && TotalCost(lines) <= limits.bytes
  }

  /** How many of the oldest lines have to go. */
  function Excess(lines: seq<Line>, limits: Limits): (n: nat)
    ensures n <= |lines|
  {
    if lines == [] || WithinLimits(lines, limits) then 0 else 1 + Excess(lines[1..], limits)
  }

  function Trim(lines: seq<Line>, limits: Limits): seq<Line> { lines[Excess(lines, limits)..] }

  /** Trimming keeps the longest suffix that is within the limits. */
  lemma {:induction false} TrimKeepsLongestSuffix(lines: seq<Line>, limits: Limits, k: nat)
    requires k <= |lines|
    ensures WithinLimits(Trim(lines, limits), limits)
    ensures WithinLimits(lines[k..], limits) <==> k >= Excess(lines, limits)
  {
    hide Cost;
    CostOfSuffix(lines, k);
    if lines != [] {
      if WithinLimits(lines, limits) {
        assert lines[0..] == lines;
      } else if k > 0 {
        assert lines[1..][k - 1..] == lines[k..];
        TrimKeepsLongestSuffix(lines[1..], limits, k - 1);
      } else {
        TrimKeepsLongestSuffix(lines[1..], limits, 0);
      }
      assert !WithinLimits(lines, limits) ==> Trim(lines, limits) == Trim(lines[1..], limits);
      assert lines[0..] == lines;
    }
  }

  lemma {:induction false} CostOfSuffix(lines: seq<Line>, k: nat)
    requires k <= |lines|
    ensures TotalCost(lines[k..]) <= TotalCost(lines)
  {
    TotalCostConcat(lines[..k], lines[k..]);
    assert lines[..k] + lines[k..] == lines;
  }

  /* ---------- lines of a message ---------- */

  /** The lines of a new message with consecutive ids; a message has at least one line. */
  function NewLines(texts: seq<Text>, limit: nat, nextId: nat, action: Option<nat>): seq<Line> {
    if texts == [] then []
    else [Line(nextId, Bounded(texts[0], limit), action)] + NewLines(texts[1..], limit, nextId + 1, action)
  }

  function OrEmpty(texts: seq<Text>): seq<Text> { if texts == [] then [[]] else texts }

  lemma {:induction false} NewLinesNumbered(texts: seq<Text>, limit: nat, nextId: nat, action: Option<nat>)
    ensures var ls := NewLines(texts, limit, nextId, action);
            |ls| == |texts| && forall i :: 0 <= i < |ls| ==> ls[i].id == nextId + i
  {
    if texts != [] { NewLinesNumbered(texts[1..], limit, nextId + 1, action); }
  }

  lemma {:induction false} NewLinesSnoc(texts: seq<Text>, text: Text, limit: nat, nextId: nat, action: Option<nat>)
    ensures NewLines(texts + [text], limit, nextId, action)
         == NewLines(texts, limit, nextId, action) + [Line(nextId + |texts|, Bounded(text, limit), action)]
  {
    hide Bounded;
    if texts == [] {
      assert texts + [text] == [text] && [text][1..] == [];
    } else {
      assert (texts + [text])[1..] == texts[1..] + [text];
      NewLinesSnoc(texts[1..], text, limit, nextId + 1, action);
    }
  }

  /** Line ids are distinct and below the next one to be given out. */
  ghost predicate DistinctIds(lines: seq<Line>, nextId: nat) {
    && (forall i :: 0 <= i < |lines| ==> lines[i].id < nextId)
    && (forall i, j :: 0 <= i < j < |lines| ==> lines[i].id != lines[j].id)
  }

  /** The lines of a streaming message: as many as the limits leave room for, keeping the
      ids of the streaming lines they replace. */
  function StreamLines(texts: seq<Text>, previous: seq<Line>, index: nat, remaining: nat, nextId: nat, limits: Limits): seq<Line>
    decreases |texts|
  {
    if texts == [] || index >= limits.lines || remaining == 0 then []
    else
      var text := Bounded(texts[0], Min(Min(limits.lineBytes, limits.bytes), remaining));
      var reuse := index < |previous|;
      [Line(if reuse then previous[index].id else nextId, text, None)]
      + StreamLines(texts[1..], previous, index + 1, if Cost(text) >= remaining then 0 else remaining - Cost(text),
                    if reuse then nextId else nextId + 1, limits)
  }

  /* ---------- replacing an action's message ---------- */

  function Others(lines: seq<Line>, action: nat): seq<Line> {
    if lines == [] then []
    else if lines[0].action == Some(action) then Others(lines[1..], action)
    else [lines[0]] + Others(lines[1..], action)
  }

  function IdsOf(lines: seq<Line>, action: nat): seq<nat> {
    if lines == [] then []
    else if lines[0].action == Some(action) then [lines[0].id] + IdsOf(lines[1..], action)
    else IdsOf(lines[1..], action)
  }

  /** New lines that take over the ids of the old ones first. */
  function ReusingLines(texts: seq<Text>, ids: seq<nat>, limit: nat, nextId: nat, action: nat): seq<Line>
    decreases |texts|
  {
    if texts == [] then []
    else if ids != [] then
      [Line(ids[0], Bounded(texts[0], limit), Some(action))] + ReusingLines(texts[1..], ids[1..], limit, nextId, action)
    else
      [Line(nextId, Bounded(texts[0], limit), Some(action))] + ReusingLines(texts[1..], [], limit, nextId + 1, action)
  }

  /** The position of the first line with the action. */
  function FirstWith(lines: seq<Line>, action: nat): (n: nat)
    ensures n <= |lines|
    ensures n < |lines| ==> lines[n].action == Some(action)
    ensures forall i :: 0 <= i < n ==> lines[i].action != Some(action)
  {
    if lines == [] || lines[0].action == Some(action) then 0 else 1 + FirstWith(lines[1..], action)
  }

  /** The transcript after a replacement: the new lines stand where the first old one stood. */
  function Replaced(lines: seq<Line>, action: nat, texts: seq<Text>, limit: nat, nextId: nat): seq<Line> {
    var start := FirstWith(lines, action);
    lines[..start] + ReusingLines(OrEmpty(texts), IdsOf(lines, action), limit, nextId, action) + Others(lines[start..], action)
  }

  /* ---------- the screen ---------- */

  /** The rows left for the transcript beside header, composer and status line. */
  function ContentRows(rows: nat, composerReserve: nat, status: bool): nat {
    var header := Min(1, rows);
    var composer := Min(composerReserve, rows - header);
    var statusRows := Min(if status then 1 else 0, rows - header - composer);
    rows - header - composer - statusRows
  }

  /** The header, the composer and the status line come first; the transcript has the rest, if any. */
  lemma ContentIsTheRest(rows: nat, composerReserve: nat, status: bool)
    ensures var others := 1 + composerReserve + (if status then 1 else 0);
            ContentRows(rows, composerReserve, status) == if rows > others then rows - others else 0
  {
  }

  /** A row shows the anchor when the anchor's byte lies in its range, either end included. */
  predicate ShowsAnchor(row: Row, anchor: Anchor) {
    row.line == anchor.line && row.start <= anchor.byte <= row.end
  }

  /** The first row that shows the anchor, or the top. */
  function AnchorRow(rows: seq<Row>, anchor: Option<Anchor>): (n: nat)
    ensures n <= |rows|
  {
    if anchor.None? then 0
    else
      var n := FirstShowing(rows, anchor.value);
      if n == |rows| then 0 else n
  }

  function FirstShowing(rows: seq<Row>, anchor: Anchor): (n: nat)
    ensures n <= |rows| && (n < |rows| ==> ShowsAnchor(rows[n], anchor))
    ensures forall i :: 0 <= i < n ==> !ShowsAnchor(rows[i], anchor)
  {
    if rows == [] || ShowsAnchor(rows[0], anchor) then 0 else 1 + FirstShowing(rows[1..], anchor)
  }

  /** An empty transcript. */
  lemma NothingWritten(width: nat, nextId: nat, limits: Limits)
    requires limits.lines >= 1 && limits.bytes >= 1
    ensures WrapAll([] + [], width) == [] && DistinctIds([] + [], nextId) && TotalCost([]) == 0 && WithinLimits([], limits)
  {
  }

  /** Inserting one more line behind those inserted so far. */
  lemma SpliceOne(lines: seq<Line>, start: nat, done: seq<Line>, line: Line, rest: seq<Line>)
    requires start <= |lines|
    ensures var spliced := lines[..start] + done + lines[start..];
            && start + |done| <= |spliced|
            && spliced[..start + |done|] + [line] + spliced[start + |done|..] == lines[..start] + (done + [line]) + lines[start..]
    ensures done + [line] + rest == done + ([line] + rest)
  {
  }

  class FullscreenState {
    const limits: Limits
    var lines: seq<Line>
    var streaming: seq<Line>
    var visualCache: seq<Row>
    var transcriptBytes: nat
    var droppedLines: nat
    var nextLineId: nat
    var streamingUnseenCounted: bool
    var status: bool
    var rows: nat
    var columns: nat
    var composerReserve: nat
    var scrollTop: nat
    var stickyBottom: bool
    var unseenMessages: nat

    /** The screen exists, and lines can be told apart. */
    ghost predicate WellFormed()
      reads this
    {
      && limits.bytes >= 1 && limits.lines >= 1 && limits.lineBytes >= 1 && rows >= 1 && columns >= 1
      && DistinctIds(lines + streaming, nextLineId)
    }

    /** The committed lines are counted exactly and within the limits. */
    ghost predicate Accounted()
      reads this
    {
      transcriptBytes == TotalCost(lines) && WithinLimits(lines, limits)
    }

    /** The cache is what wrapping all lines at the current width gives. */
    ghost predicate Coherent()
      reads this
    {
      visualCache == WrapAll(lines + streaming, columns)
    }

    /** The view never starts below the last full screen; a sticky view is at the bottom. */
    ghost predicate Scrolled()
      reads this
    {
      scrollTop <= ScrollMax() && (stickyBottom ==> scrollTop == ScrollMax())
    }

    ghost predicate Valid()
      reads this
    {
      WellFormed() && Accounted() && Coherent() && Scrolled()
    }

    function ScrollMax(): nat
      reads this
    {
      var content := ContentRows(rows, composerReserve, status);
      if |visualCache| >= content then |visualCache| - content else 0
    }

    constructor (screenRows: nat, screenColumns: nat, reserve: nat, requested: Limits)
      ensures Valid() && lines == [] && streaming == []
      ensures limits == Limits(Max(requested.bytes, 1), Max(requested.lines, 1), Max(requested.lineBytes, 1))
    {
      hide WrapAll, DistinctIds, ContentRows, TotalCost, WithinLimits;
      limits := Limits(Max(requested.bytes, 1), Max(requested.lines, 1), Max(requested.lineBytes, 1));
      lines, streaming, visualCache := [], [], [];
      transcriptBytes, droppedLines, nextLineId, unseenMessages := 0, 0, 1, 0;
      streamingUnseenCounted, status := false, false;
      rows, columns, composerReserve := Max(screenRows, 1), Max(screenColumns, 1), reserve;
      scrollTop, stickyBottom := 0, true;
      new;
      NothingWritten(columns, nextLineId, limits);
    }

    /** The position shown at the top of the view. */
    function TopAnchor(): Option<Anchor>
      reads this
    {
      if scrollTop < |visualCache| then Some(Anchor(visualCache[scrollTop].line, visualCache[scrollTop].start)) else None
    }

    method RebuildVisualCache()
      requires WellFormed()
      modifies this`visualCache
      ensures Coherent()
    {
      var output: seq<Row> := [];
      var all := lines + streaming;
      assert all[..0] == [];
      for i := 0 to |all|
        invariant output == WrapAll(all[..i], columns)
      {
        WrapAllSnoc(all[..i], all[i], columns);
        assert all[..i] + [all[i]] == all[..i + 1];
        output := WrapLine(all[i], columns, output);
      }
      assert all[..|all|] == all;
      visualCache := output;
    }

    method ScrollToBottom()
      modifies this`scrollTop, this`stickyBottom, this`unseenMessages, this`streamingUnseenCounted
      ensures Scrolled() && stickyBottom && scrollTop == ScrollMax() && unseenMessages == 0
    {
      scrollTop := ScrollMax();
      stickyBottom, unseenMessages, streamingUnseenCounted := true, 0, false;
    }

    /** Moves the view to the first row that shows the anchor, as far as the bottom allows. */
    method RestoreTopAnchor(anchor: Option<Anchor>)
      modifies this`scrollTop, this`stickyBottom
      ensures Scrolled() && !stickyBottom && scrollTop == Min(AnchorRow(visualCache, anchor), ScrollMax())
    {
      scrollTop := Min(AnchorRow(visualCache, anchor), ScrollMax());
      stickyBottom := false;
    }

    /** After a change: a sticky view stays at the bottom, any other keeps its anchor. */
    method Resettle(anchor: Option<Anchor>, wasSticky: bool)
      modifies this`scrollTop, this`stickyBottom, this`unseenMessages, this`streamingUnseenCounted
      ensures Scrolled() && stickyBottom == wasSticky
      ensures !wasSticky ==> scrollTop == Min(AnchorRow(visualCache, anchor), ScrollMax())
                             && unseenMessages == old(unseenMessages)
                             && streamingUnseenCounted == old(streamingUnseenCounted)
      ensures wasSticky ==> unseenMessages == 0
    {
      if wasSticky {
        ScrollToBottom();
      } else {
        RestoreTopAnchor(anchor);
      }
    }

    /** Drops the oldest lines until the rest is within the limits. */
    method TrimToLimits()
      requires transcriptBytes == TotalCost(lines)
      modifies this`lines, this`transcriptBytes, this`droppedLines
      ensures lines == Trim(old(lines), limits) && Accounted()
      ensures droppedLines + |lines| == old(droppedLines) + |old(lines)|
    {
      hide Cost;
      while lines != [] && (|lines| > limits.lines || transcriptBytes > limits.bytes)
        invariant transcriptBytes == TotalCost(lines) && |lines| <= |old(lines)|
        invariant lines == old(lines)[|old(lines)| - |lines|..]
        invariant Excess(old(lines), limits) == |old(lines)| - |lines| + Excess(lines, limits)
        invariant droppedLines + |lines| == old(droppedLines) + |old(lines)|
        decreases |lines|
      {
        transcriptBytes := transcriptBytes - Cost(lines[0].text);
        droppedLines := droppedLines + 1;
        lines := lines[1..];
      }
    }

    /** Appends a message, line by line, with or without an action. */
    method PushMessage(texts: seq<Text>, action: Option<nat>)
      requires Valid()
      modifies this
      ensures Valid() && streaming == old(streaming) && stickyBottom == old(stickyBottom)
      ensures var added := NewLines(OrEmpty(texts), Min(limits.lineBytes, limits.bytes), old(nextLineId), action);
              && lines == Trim(old(lines) + added, limits)
              && droppedLines + |lines| == old(droppedLines) + |old(lines)| + |added|
      ensures !stickyBottom ==> unseenMessages == old(unseenMessages) + 1
      ensures !stickyBottom ==> scrollTop == Min(AnchorRow(visualCache, old(TopAnchor())), ScrollMax())
    {
      hide NewLines, Trim, WrapAll, TotalCost, WithinLimits, DistinctIds, AnchorRow, ContentRows;
      var anchor, wasSticky := TopAnchor(), stickyBottom;
      AppendLines(texts, action);
      ghost var all := OrEmpty(texts);
      ghost var added := NewLines(all, Min(limits.lineBytes, limits.bytes), old(nextLineId), action);
      NewLinesNumbered(all, Min(limits.lineBytes, limits.bytes), old(nextLineId), action);
      AddedIdsDistinct(old(lines), streaming, added, old(nextLineId), nextLineId, limits);
      TrimToLimits();
      RebuildVisualCache();
      Resettle(anchor, wasSticky);
      if !wasSticky {
        unseenMessages := unseenMessages + 1;
      }
    }

    method AppendLines(texts: seq<Text>, action: Option<nat>)
      modifies this`lines, this`transcriptBytes, this`nextLineId
      ensures lines == old(lines) + NewLines(OrEmpty(texts), Min(limits.lineBytes, limits.bytes), old(nextLineId), action)
      ensures nextLineId == old(nextLineId) + |OrEmpty(texts)|
      ensures old(transcriptBytes) == TotalCost(old(lines)) ==> transcriptBytes == TotalCost(lines)
    {
      hide Bounded, TotalCost;
      ghost var limit := Min(limits.lineBytes, limits.bytes);
      ghost var all := OrEmpty(texts);
      assert all[..0] == [] && lines + [] == lines;
      for i := 0 to |texts|
        invariant old(transcriptBytes) == TotalCost(old(lines)) ==> transcriptBytes == TotalCost(lines)
        invariant nextLineId == old(nextLineId) + i
        invariant lines == old(lines) + NewLines(all[..i], limit, old(nextLineId), action)
      {
        assert all[..i] + [texts[i]] == all[..i + 1];
        NewLinesSnoc(all[..i], texts[i], limit, old(nextLineId), action);
        PushLine(texts[i], action);
      }
      if texts == [] {
        PushLine([], action);
        assert all[1..] == [];
      }
      assert all[..|all|] == all;
    }

    method PushLine(text: Text, action: Option<nat>)
      modifies this`lines, this`transcriptBytes, this`nextLineId
      ensures lines == old(lines) + [Line(old(nextLineId), Bounded(text, Min(limits.lineBytes, limits.bytes)), action)]
      ensures nextLineId == old(nextLineId) + 1
      ensures old(transcriptBytes) == TotalCost(old(lines)) ==> transcriptBytes == TotalCost(lines)
    {
      var bounded := Bound(text, Min(limits.lineBytes, limits.bytes));
      var line := Line(nextLineId, bounded, action);
      nextLineId := nextLineId + 1;
      transcriptBytes := transcriptBytes + Cost(bounded);
      lines := lines + [line];
      TotalCostConcat(old(lines), [line]);
      assert TotalCost([line]) == Cost(bounded);
    }

    /** Replaces the streaming message, or ends streaming. The streaming lines are bounded
        like a transcript of their own. */
    method SetStreamingLine(texts: Option<seq<Text>>)
      requires Valid()
      modifies this
      ensures Valid() && lines == old(lines) && stickyBottom == old(stickyBottom)
      ensures texts.None? ==> streaming == []
      ensures texts.Some? ==>
                && streaming == StreamLines(OrEmpty(texts.value), old(streaming), 0, limits.bytes, old(nextLineId), limits)
                && 1 <= |streaming| <= limits.lines && TotalCost(streaming) <= limits.bytes + 1
      ensures !stickyBottom ==>
                unseenMessages == old(unseenMessages) + (if texts.Some? && !old(streamingUnseenCounted) then 1 else 0)
      ensures !stickyBottom ==> scrollTop == Min(AnchorRow(visualCache, old(TopAnchor())), ScrollMax())
    {
      hide StreamLines, WrapAll, TotalCost, DistinctIds, AnchorRow, ContentRows;
      var anchor, wasSticky := TopAnchor(), stickyBottom;
      if texts.Some? {
        var next := BuildStreaming(OrEmpty(texts.value));
        streaming := next;
        if !wasSticky && !streamingUnseenCounted {
          unseenMessages := unseenMessages + 1;
          streamingUnseenCounted := true;
        }
      } else {
        NoStreamingIds(lines, streaming, nextLineId);
        streaming := [];
        streamingUnseenCounted := false;
      }
      RebuildVisualCache();
      Resettle(anchor, wasSticky);
    }

    /** The streaming lines for a text; takes new ids where there are no old ones to keep. */
    method BuildStreaming(texts: seq<Text>) returns (next: seq<Line>)
      requires WellFormed() && texts != []
      modifies this`nextLineId
      ensures next == StreamLines(texts, streaming, 0, limits.bytes, old(nextLineId), limits)
      ensures 1 <= |next| <= limits.lines && TotalCost(next) <= limits.bytes + 1
      ensures DistinctIds(lines + next, nextLineId)
    {
      hide Bounded, DistinctIds, TotalCost, StreamLines, Cost;
      next := BuildLines(texts);
      StreamLinesBounded(texts, streaming, 0, limits.bytes, old(nextLineId), limits);
      StreamLinesNumbered(texts, streaming, 0, limits.bytes, old(nextLineId), limits);
      StreamIdsDistinct(lines, streaming, next, old(nextLineId), nextLineId);
    }

    /** Cuts the texts to what the limits leave, and numbers those that are new. */
    method BuildLines(texts: seq<Text>) returns (next: seq<Line>)
      modifies this`nextLineId
      ensures next == StreamLines(texts, streaming, 0, limits.bytes, old(nextLineId), limits)
      ensures nextLineId == old(nextLineId) + (if |next| > |streaming| then |next| - |streaming| else 0)
    {
      hide Bounded, StreamLines, Cost;
      next := [];
      var remaining: nat := limits.bytes;
      var index: nat := 0;
      assert texts[0..] == texts;
      while index < |texts| && |next| < limits.lines && remaining != 0
        invariant index == |next| <= |texts|
        invariant next + StreamLines(texts[index..], streaming, index, remaining, nextLineId, limits)
               == StreamLines(texts, streaming, 0, limits.bytes, old(nextLineId), limits)
        invariant nextLineId == old(nextLineId) + (if index > |streaming| then index - |streaming| else 0)
      {
        StreamLinesFrom(next, texts, streaming, index, remaining, nextLineId, limits);
        var text := Bound(texts[index], Min(Min(limits.lineBytes, limits.bytes), remaining));
        remaining := if Cost(text) >= remaining then 0 else remaining - Cost(text);
        var id := nextLineId;
        if index < |streaming| {
          id := streaming[index].id;
        } else {
          nextLineId := nextLineId + 1;
        }
        next := next + [Line(id, text, None)];
        index := index + 1;
      }
      StreamLinesFrom(next, texts, streaming, index, remaining, nextLineId, limits);
    }

    /** Commits the streaming lines; false when there are none. */
    method CommitStreamingLine() returns (committed: bool)
      requires Valid()
      modifies this
      ensures Valid() && stickyBottom == old(stickyBottom) && streaming == []
      ensures committed <==> old(streaming) != []
      ensures lines == Trim(old(lines) + old(streaming), limits)
      ensures committed ==> droppedLines + |lines| == old(droppedLines) + |old(lines)| + |old(streaming)|
      ensures !stickyBottom ==> unseenMessages == old(unseenMessages)
      ensures committed && !stickyBottom ==> scrollTop == Min(AnchorRow(visualCache, old(TopAnchor())), ScrollMax())
    {
      hide WrapAll, DistinctIds, AnchorRow, ContentRows, TotalCost, WithinLimits, Trim, Cost;
      if streaming == [] {
        TrimWithinLimits(lines, limits);
        assert lines + [] == lines;
        return false;
      }
      var anchor, wasSticky := TopAnchor(), stickyBottom;
      CommitLines();
      streaming := [];
      assert lines + [] == lines && Trim(lines, limits) + [] == Trim(lines, limits);
      TrimmedIdsDistinct(lines, [], nextLineId, limits);
      TrimToLimits();
      RebuildVisualCache();
      streamingUnseenCounted := false;
      Resettle(anchor, wasSticky);
      committed := true;
    }

    method CommitLines()
      requires transcriptBytes == TotalCost(lines)
      modifies this`lines, this`transcriptBytes
      ensures lines == old(lines) + streaming && transcriptBytes == TotalCost(lines)
    {
      hide Cost;
      assert lines + [] == lines && streaming[..0] == [];
      for i := 0 to |streaming|
        invariant lines == old(lines) + streaming[..i] && transcriptBytes == TotalCost(lines)
      {
        TotalCostConcat(lines, [streaming[i]]);
        assert TotalCost([streaming[i]]) == Cost(streaming[i].text);
        assert streaming[..i] + [streaming[i]] == streaming[..i + 1];
        transcriptBytes := transcriptBytes + Cost(streaming[i].text);
        lines := lines + [streaming[i]];
      }
      assert streaming[..|streaming|] == streaming;
    }

    /** Replaces every line that carries the action, at the place of the first one. */
    method ReplaceActionMessage(action: nat, texts: seq<Text>) returns (found: bool)
      requires Valid()
      modifies this
      ensures Valid() && streaming == old(streaming) && stickyBottom == old(stickyBottom)
      ensures found <==> exists i :: 0 <= i < |old(lines)| && old(lines)[i].action == Some(action)
      ensures lines == if found then Trim(Replaced(old(lines), action, texts, Min(limits.lineBytes, limits.bytes), old(nextLineId)), limits)
                       else old(lines)
      ensures !stickyBottom ==> unseenMessages == old(unseenMessages)
      ensures found && !stickyBottom ==> scrollTop == Min(AnchorRow(visualCache, old(TopAnchor())), ScrollMax())
    {
      hide WrapAll, DistinctIds, AnchorRow, ContentRows, TotalCost, WithinLimits, Replaced, Trim;
      var start := FirstWith(lines, action);
      if start == |lines| {
        return false;
      }
      found := true;
      var anchor, wasSticky := TopAnchor(), stickyBottom;
      ReplaceLines(action, start, texts);
      TrimmedIdsDistinct(lines, streaming, nextLineId, limits);
      transcriptBytes := SumCosts(lines);
      TrimToLimits();
      RebuildVisualCache();
      Resettle(anchor, wasSticky);
    }

    method ReplaceLines(action: nat, start: nat, texts: seq<Text>)
      requires start == FirstWith(lines, action) && DistinctIds(lines + streaming, nextLineId)
      modifies this`lines, this`nextLineId
      ensures lines == Replaced(old(lines), action, texts, Min(limits.lineBytes, limits.bytes), old(nextLineId))
      ensures DistinctIds(lines + streaming, nextLineId)
    {
      hide DistinctIds, Others, IdsOf, ReusingLines;
      var ids := RemoveAction(action, start);
      ghost var kept := lines;
      InsertReplacement(action, start, ids, texts);
      IdsBeforeFirst(old(lines), action);
      assert kept[..start] == old(lines)[..start] && kept[start..] == Others(old(lines)[start..], action);
      ReplacedIdsDistinct(old(lines), streaming, action, texts, Min(limits.lineBytes, limits.bytes), old(nextLineId), nextLineId);
    }

    /** Removes the lines that carry the action, from the first one on, and returns their ids. */
    method RemoveAction(action: nat, start: nat) returns (ids: seq<nat>)
      requires start <= |lines|
      modifies this`lines
      ensures lines == old(lines)[..start] + Others(old(lines)[start..], action)
      ensures ids == IdsOf(old(lines)[start..], action)
    {
      hide Others, IdsOf;
      OthersOfNone([], action);
      ids := [];
      var index := start;
      ghost var all, head, kept, rest := lines, lines[..start], [], lines[start..];
      assert all[start..start] == [] && all == head + kept + rest;
      while index < |lines|
        invariant lines == head + kept + rest && index == start + |kept|
        invariant |rest| <= |all| - start && rest == all[|all| - |rest|..]
        invariant kept == Others(all[start..|all| - |rest|], action)
        invariant ids == IdsOf(all[start..|all| - |rest|], action)
        decreases |rest|
      {
        ghost var seen := |all| - |rest|;
        MoveBoundary(head, kept, rest);
        assert all[start..seen] + [rest[0]] == all[start..seen + 1];
        OthersSnoc(all[start..seen], rest[0], action);
        if lines[index].action == Some(action) {
          ids := ids + [lines[index].id];
          lines := lines[..index] + lines[index + 1..];
        } else {
          kept := kept + [rest[0]];
          index := index + 1;
        }
        rest := rest[1..];
      }
      assert all[start..|all|] == all[start..] && lines == head + kept;
    }

    /** Inserts the new lines at `start`, giving out the old ids first. */
    method InsertReplacement(action: nat, start: nat, ids: seq<nat>, texts: seq<Text>)
      requires start <= |lines|
      modifies this`lines, this`nextLineId
      ensures var limit := Min(limits.lineBytes, limits.bytes);
              lines == old(lines)[..start] + ReusingLines(OrEmpty(texts), ids, limit, old(nextLineId), action) + old(lines)[start..]
      ensures nextLineId == old(nextLineId) + (if |OrEmpty(texts)| > |ids| then |OrEmpty(texts)| - |ids| else 0)
    {
      hide Bounded, ReusingLines;
      ghost var limit := Min(limits.lineBytes, limits.bytes);
      var sources := OrEmpty(texts);
      var reusable := ids;
      ghost var all := ReusingLines(sources, ids, limit, nextLineId, action);
      ghost var done: seq<Line> := [];
      assert sources[0..] == sources && [] + all == all;
      assert lines == lines[..start] + [] + lines[start..];
      for inserted := 0 to |sources|
        invariant |done| == inserted && lines == old(lines)[..start] + done + old(lines)[start..]
        invariant done + ReusingLines(sources[inserted..], reusable, limit, nextLineId, action) == all
        invariant |reusable| == (if |ids| >= inserted then |ids| - inserted else 0)
        invariant nextLineId == old(nextLineId) + (if inserted > |ids| then inserted - |ids| else 0)
      {
        var text := Bound(sources[inserted], Min(limits.lineBytes, limits.bytes));
        assert sources[inserted..][0] == sources[inserted] && sources[inserted..][1..] == sources[inserted + 1..];
        ReusingLinesStep(sources[inserted..], reusable, limit, nextLineId, action);
        var id := nextLineId;
        if reusable != [] {
          id := reusable[0];
          reusable := reusable[1..];
        } else {
          nextLineId := nextLineId + 1;
        }
        var line := Line(id, text, Some(action));
        ghost var rest := ReusingLines(sources[inserted + 1..], reusable, limit, nextLineId, action);
        SpliceOne(old(lines), start, done, line, rest);
        lines := lines[..start + inserted] + [line] + lines[start + inserted..];
        done := done + [line];
      }
      ReusingLinesStep(sources[|sources|..], reusable, limit, nextLineId, action);
      assert done + [] == done;
    }

    method SumCosts(all: seq<Line>) returns (sum: nat)
      ensures sum == TotalCost(all)
    {
      sum := 0;
      assert all[..0] == [];
      for i := 0 to |all|
        invariant sum == TotalCost(all[..i])
      {
        assert all[..i] + [all[i]] == all[..i + 1];
        TotalCostConcat(all[..i], [all[i]]);
        assert TotalCost([all[i]]) == Cost(all[i].text);
        sum := sum + Cost(all[i].text);
      }
      assert all[..|all|] == all;
    }

    method Clear()
      requires Valid()
      modifies this
      ensures Valid() && lines == [] && streaming == [] && stickyBottom && transcriptBytes == 0
    {
      hide WrapAll, DistinctIds, ContentRows, TotalCost, WithinLimits;
      NothingWritten(columns, nextLineId, limits);
      lines, visualCache, streaming := [], [], [];
      transcriptBytes, scrollTop, unseenMessages := 0, 0, 0;
      stickyBottom, streamingUnseenCounted := true, false;
    }

    method Resize(screenRows: nat, screenColumns: nat)
      requires Valid()
      modifies this
      ensures Valid() && lines == old(lines) && streaming == old(streaming) && stickyBottom == old(stickyBottom)
      ensures rows == Max(screenRows, 1) && columns == Max(screenColumns, 1)
      ensures !stickyBottom ==> scrollTop == Min(AnchorRow(visualCache, old(TopAnchor())), ScrollMax())
    {
      hide WrapAll, DistinctIds, AnchorRow, ContentRows, TotalCost;
      var anchor, wasSticky := TopAnchor(), stickyBottom;
      rows, columns := Max(screenRows, 1), Max(screenColumns, 1);
      RebuildVisualCache();
      Resettle(anchor, wasSticky);
    }

    method SetComposerReserve(reserve: nat)
      requires Valid()
      modifies this
      ensures Valid() && lines == old(lines) && streaming == old(streaming) && stickyBottom == old(stickyBottom)
      ensures composerReserve == reserve
      ensures !stickyBottom ==> scrollTop == Min(AnchorRow(visualCache, old(TopAnchor())), ScrollMax())
    {
      hide WrapAll, DistinctIds, AnchorRow, ContentRows, TotalCost;
      var anchor, wasSticky := TopAnchor(), stickyBottom;
      composerReserve := reserve;
      Resettle(anchor, wasSticky);
    }

    method SetStatus(shown: bool)
      requires Valid()
      modifies this
      ensures Valid() && lines == old(lines) && streaming == old(streaming) && status == shown
      ensures old(stickyBottom) ==> stickyBottom
      ensures stickyBottom <==> old(stickyBottom) || old(scrollTop) >= ScrollMax()
      ensures !stickyBottom ==> scrollTop == old(scrollTop)
    {
      hide WrapAll, DistinctIds, ContentRows, TotalCost;
      status := shown;
      if stickyBottom {
        ScrollToBottom();
      } else {
        scrollTop := Min(scrollTop, ScrollMax());
        if scrollTop == ScrollMax() {
          ScrollToBottom();
        }
      }
    }

    /** Scrolls by `delta` rows; reaching the bottom makes the view sticky. */
    method ScrollLines(delta: int)
      requires Valid()
      modifies this`scrollTop, this`stickyBottom, this`unseenMessages, this`streamingUnseenCounted
      ensures Valid()
      ensures var target := old(scrollTop) + delta;
              scrollTop == if target < 0 then 0 else Min(target, ScrollMax())
      ensures stickyBottom <==> scrollTop == ScrollMax()
      ensures stickyBottom ==> unseenMessages == 0
    {
      hide WrapAll, DistinctIds, ContentRows, TotalCost;
      var max := ScrollMax();
      var next := if delta < 0 then (if scrollTop >= -delta then scrollTop + delta else 0) else Min(scrollTop + delta, max);
      scrollTop := Min(next, max);
      if scrollTop >= max {
        ScrollToBottom();
      } else {
        stickyBottom := false;
      }
    }

    method ScrollToTop()
      requires Valid()
      modifies this`scrollTop, this`stickyBottom, this`unseenMessages, this`streamingUnseenCounted
      ensures Valid() && scrollTop == 0 && (stickyBottom <==> ScrollMax() == 0)
    {
      hide WrapAll, DistinctIds, ContentRows, TotalCost;
      scrollTop := 0;
      stickyBottom := ScrollMax() == 0;
      if stickyBottom {
        unseenMessages, streamingUnseenCounted := 0, false;
      }
    }
  }

  lemma {:induction false} AddedIdsDistinct(before: seq<Line>, streaming: seq<Line>, added: seq<Line>,
                                            oldNext: nat, next: nat, limits: Limits)
    requires DistinctIds(before + streaming, oldNext) && next == oldNext + |added|
    requires forall i :: 0 <= i < |added| ==> added[i].id == oldNext + i
    ensures DistinctIds(Trim(before + added, limits) + streaming, next)
  {
    hide Trim;
    var all := before + added + streaming;
    var old0 := before + streaming;
    forall i | 0 <= i < |all|
      ensures if |before| <= i < |before| + |added| then all[i].id == oldNext + (i - |before|)
              else all[i] == old0[if i < |before| then i else i - |added|]
    {
    }
    assert DistinctIds(all, next);
    TrimmedIdsDistinct(before + added, streaming, next, limits);
  }

  lemma {:induction false} TrimmedIdsDistinct(lines: seq<Line>, streaming: seq<Line>, next: nat, limits: Limits)
    requires DistinctIds(lines + streaming, next)
    ensures DistinctIds(Trim(lines, limits) + streaming, next)
  {
    var k := Excess(lines, limits);
    assert lines[k..] + streaming == (lines + streaming)[k..];
  }

  /** Every row of the cache is a row of one line, and no row is wider than the screen. */
  lemma {:induction false} CacheRowsFit(all: seq<Line>, columns: nat, k: nat) returns (line: nat, row: nat)
    requires columns >= 1 && k < |WrapAll(all, columns)|
    ensures line < |all| && row < |Wrap(all[line], columns)| && WrapAll(all, columns)[k] == Wrap(all[line], columns)[row]
    ensures var shown := WrapAll(all, columns)[k].shown; WidthTo(shown, |shown|) <= columns
  {
    hide Wrap, WidthTo;
    var first := |Wrap(all[0], columns)|;
    if k < first {
      line, row := 0, k;
      RowsTileTheLine(all[0], columns, k);
    } else {
      line, row := CacheRowsFit(all[1..], columns, k - first);
      line := line + 1;
    }
  }

  lemma NoStreamingIds(lines: seq<Line>, streaming: seq<Line>, next: nat)
    requires DistinctIds(lines + streaming, next)
    ensures DistinctIds(lines + [], next)
  {
    assert (lines + streaming)[..|lines|] == lines + [];
  }

  lemma TrimWithinLimits(lines: seq<Line>, limits: Limits)
    requires WithinLimits(lines, limits)
    ensures Trim(lines, limits) == lines
  {
    assert lines[0..] == lines;
  }

  /* ---------- streaming lines ---------- */

  /** One step of building the lines from position `index` on. */
  lemma StreamLinesFrom(built: seq<Line>, texts: seq<Text>, previous: seq<Line>, index: nat, remaining: nat, nextId: nat, limits: Limits)
    requires index <= |texts|
    ensures built + StreamLines(texts[index..], previous, index, remaining, nextId, limits)
         == if index == |texts| || index >= limits.lines || remaining == 0 then built
            else
              var text := Bounded(texts[index], Min(Min(limits.lineBytes, limits.bytes), remaining));
              var reuse := index < |previous|;
              built + [Line(if reuse then previous[index].id else nextId, text, None)]
              + StreamLines(texts[index + 1..], previous, index + 1, if Cost(text) >= remaining then 0 else remaining - Cost(text),
                            if reuse then nextId else nextId + 1, limits)
  {
    hide Bounded, Cost, StreamLines;
    StreamLinesStep(texts[index..], previous, index, remaining, nextId, limits);
    if index == |texts| || index >= limits.lines || remaining == 0 {
      assert built + [] == built;
    } else {
      assert texts[index..][0] == texts[index] && texts[index..][1..] == texts[index + 1..];
      var text := Bounded(texts[index], Min(Min(limits.lineBytes, limits.bytes), remaining));
      var reuse := index < |previous|;
      var line := Line(if reuse then previous[index].id else nextId, text, None);
      var rest := StreamLines(texts[index + 1..], previous, index + 1, if Cost(text) >= remaining then 0 else remaining - Cost(text),
                              if reuse then nextId else nextId + 1, limits);
      assert built + ([line] + rest) == built + [line] + rest;
    }
  }

  lemma StreamLinesStep(texts: seq<Text>, previous: seq<Line>, index: nat, remaining: nat, nextId: nat, limits: Limits)
    ensures StreamLines(texts, previous, index, remaining, nextId, limits)
         == if texts == [] || index >= limits.lines || remaining == 0 then []
            else
              var text := Bounded(texts[0], Min(Min(limits.lineBytes, limits.bytes), remaining));
              var reuse := index < |previous|;
              [Line(if reuse then previous[index].id else nextId, text, None)]
              + StreamLines(texts[1..], previous, index + 1, if Cost(text) >= remaining then 0 else remaining - Cost(text),
                            if reuse then nextId else nextId + 1, limits)
  {
    hide Bounded, Cost;
  }

  lemma {:induction false} StreamLinesNumbered(texts: seq<Text>, previous: seq<Line>, index: nat, remaining: nat,
                                               nextId: nat, limits: Limits)
    ensures var ls := StreamLines(texts, previous, index, remaining, nextId, limits);
            forall i :: 0 <= i < |ls| ==>
              ls[i].id == if index + i < |previous| then previous[index + i].id
                          else nextId + (index + i - Max(index, |previous|))
    decreases |texts|
  {
    hide Bounded;
    if texts != [] && index < limits.lines && remaining > 0 {
      var text := Bounded(texts[0], Min(Min(limits.lineBytes, limits.bytes), remaining));
      var remaining' := if Cost(text) >= remaining then 0 else remaining - Cost(text);
      var nextId' := if index < |previous| then nextId else nextId + 1;
      StreamLinesNumbered(texts[1..], previous, index + 1, remaining', nextId', limits);
      var ls, rest := StreamLines(texts, previous, index, remaining, nextId, limits),
                      StreamLines(texts[1..], previous, index + 1, remaining', nextId', limits);
      StreamLinesStep(texts, previous, index, remaining, nextId, limits);
      forall i | 0 <= i < |ls|
        ensures ls[i].id == if index + i < |previous| then previous[index + i].id
                            else nextId + (index + i - Max(index, |previous|))
      {
        if i > 0 {
          assert ls[i] == rest[i - 1];
          assert index + 1 + (i - 1) == index + i;
        }
      }
    }
  }

  lemma {:induction false} StreamLinesBounded(texts: seq<Text>, previous: seq<Line>, index: nat, remaining: nat,
                                              nextId: nat, limits: Limits)
    requires index <= limits.lines
    ensures var ls := StreamLines(texts, previous, index, remaining, nextId, limits);
            && index + |ls| <= limits.lines && |ls| <= |texts|
            && TotalCost(ls) <= remaining + 1
            && (remaining == 0 ==> ls == [])
            && (texts != [] && index < limits.lines && remaining > 0 ==> ls != [])
    decreases |texts|
  {
    hide Bounded;
    if texts != [] && index < limits.lines && remaining > 0 {
      var text := Bounded(texts[0], Min(Min(limits.lineBytes, limits.bytes), remaining));
      BoundedFits(texts[0], Min(Min(limits.lineBytes, limits.bytes), remaining));
      var remaining' := if Cost(text) >= remaining then 0 else remaining - Cost(text);
      var nextId' := if index < |previous| then nextId else nextId + 1;
      StreamLinesBounded(texts[1..], previous, index + 1, remaining', nextId', limits);
      var rest := StreamLines(texts[1..], previous, index + 1, remaining', nextId', limits);
      var ls := StreamLines(texts, previous, index, remaining, nextId, limits);
      assert ls[1..] == rest && ls[0].text == text;
      if remaining' == 0 { assert TotalCost(rest) == 0; }
    }
  }

  lemma {:induction false} StreamIdsDistinct(lines: seq<Line>, previous: seq<Line>, next: seq<Line>, oldId: nat, newId: nat)
    requires DistinctIds(lines + previous, oldId)
    requires newId == oldId + (if |next| > |previous| then |next| - |previous| else 0)
    requires forall i :: 0 <= i < |next| ==> next[i].id == if i < |previous| then previous[i].id else oldId + (i - |previous|)
    ensures DistinctIds(lines + next, newId)
  {
    var old0, all := lines + previous, lines + next;
    forall i | 0 <= i < |all|
      ensures all[i].id == if i < |old0| then old0[i].id else oldId + (i - |old0|)
    {
      if i >= |lines| {
        assert all[i] == next[i - |lines|];
        if i < |old0| { assert old0[i] == previous[i - |lines|]; }
      }
    }
  }

  /* ---------- replacement ---------- */

  /** Taking the first element of `rest` out, or counting it to `kept`. */
  lemma MoveBoundary(head: seq<Line>, kept: seq<Line>, rest: seq<Line>)
    requires rest != []
    ensures var all, n := head + kept + rest, |head| + |kept|;
            && all[n] == rest[0] && all[..n] + all[n + 1..] == head + kept + rest[1..]
            && all == head + (kept + [rest[0]]) + rest[1..]
  {
  }

  lemma {:induction false} OthersSnoc(lines: seq<Line>, line: Line, action: nat)
    ensures Others(lines + [line], action) == Others(lines, action) + (if line.action == Some(action) then [] else [line])
    ensures IdsOf(lines + [line], action) == IdsOf(lines, action) + (if line.action == Some(action) then [line.id] else [])
  {
    if lines == [] {
      assert lines + [line] == [line] && [line][1..] == [];
    } else {
      assert (lines + [line])[1..] == lines[1..] + [line];
      OthersSnoc(lines[1..], line, action);
    }
  }

  lemma {:induction false} IdsBeforeFirst(lines: seq<Line>, action: nat)
    ensures IdsOf(lines, action) == IdsOf(lines[FirstWith(lines, action)..], action)
  {
    if lines != [] && lines[0].action != Some(action) {
      IdsBeforeFirst(lines[1..], action);
      var n := FirstWith(lines[1..], action);
      assert lines[1..][n..] == lines[n + 1..];
    } else {
      assert lines[0..] == lines;
    }
  }

  /** `sources` says where the id of each line comes from: an old line, or a new number. */
  ghost predicate IdsFrom(lines: seq<Line>, sources: seq<nat>, old0: seq<Line>, nextId: nat) {
    && |sources| == |lines|
    && (forall i :: 0 <= i < |lines| ==> lines[i].id == SourceId(sources[i], old0, nextId))
    && (forall i, j :: 0 <= i < j < |sources| ==> sources[i] != sources[j])
  }

  ghost function SourceId(source: nat, old0: seq<Line>, nextId: nat): nat {
    if source < |old0| then old0[source].id else nextId + (source - |old0|)
  }

  lemma IdsFromDistinct(lines: seq<Line>, sources: seq<nat>, old0: seq<Line>, nextId: nat, newNext: nat)
    requires DistinctIds(old0, nextId) && IdsFrom(lines, sources, old0, nextId) && nextId <= newNext
    requires forall i :: 0 <= i < |sources| ==> sources[i] < |old0| + (newNext - nextId)
    ensures DistinctIds(lines, newNext)
  {
    forall i, j | 0 <= i < j < |lines| ensures lines[i].id != lines[j].id {
      assert sources[i] != sources[j];
    }
  }

  lemma OthersCons(lines: seq<Line>, from: nat, action: nat)
    requires from < |lines|
    ensures var carries := lines[from].action == Some(action);
            && Others(lines[from..], action) == (if carries then [] else [lines[from]]) + Others(lines[from + 1..], action)
            && IdsOf(lines[from..], action) == (if carries then [lines[from].id] else []) + IdsOf(lines[from + 1..], action)
  {
    assert lines[from..][1..] == lines[from + 1..];
  }

  /** The old positions of the lines without the action. */
  lemma {:induction false} PositionsOfOthers(lines: seq<Line>, from: nat, action: nat) returns (at: seq<nat>)
    requires from <= |lines|
    ensures |at| == |Others(lines[from..], action)|
    ensures forall i :: 0 <= i < |at| ==>
              && from <= at[i] < |lines|
              && lines[at[i]] == Others(lines[from..], action)[i] && lines[at[i]].action != Some(action)
    ensures forall i, j :: 0 <= i < j < |at| ==> at[i] < at[j]
    decreases |lines| - from
  {
    hide Others, IdsOf;
    if from == |lines| {
      at := [];
      OthersOfNone(lines[from..], action);
    } else {
      at := PositionsOfOthers(lines, from + 1, action);
      OthersCons(lines, from, action);
      if lines[from].action != Some(action) {
        at := [from] + at;
      }
    }
  }

  /** The old positions of the lines with the action. */
  lemma {:induction false} PositionsOfRemoved(lines: seq<Line>, from: nat, action: nat) returns (at: seq<nat>)
    requires from <= |lines|
    ensures |at| == |IdsOf(lines[from..], action)|
    ensures forall i :: 0 <= i < |at| ==>
              && from <= at[i] < |lines|
              && lines[at[i]].id == IdsOf(lines[from..], action)[i] && lines[at[i]].action == Some(action)
    ensures forall i, j :: 0 <= i < j < |at| ==> at[i] < at[j]
    decreases |lines| - from
  {
    hide Others, IdsOf;
    if from == |lines| {
      at := [];
      OthersOfNone(lines[from..], action);
    } else {
      at := PositionsOfRemoved(lines, from + 1, action);
      OthersCons(lines, from, action);
      if lines[from].action == Some(action) {
        at := [from] + at;
      }
    }
  }

  lemma OthersOfNone(lines: seq<Line>, action: nat)
    requires lines == []
    ensures Others(lines, action) == [] && IdsOf(lines, action) == []
  {
  }

  lemma ReusingLinesStep(texts: seq<Text>, ids: seq<nat>, limit: nat, nextId: nat, action: nat)
    ensures ReusingLines(texts, ids, limit, nextId, action)
         == if texts == [] then []
            else if ids != [] then
              [Line(ids[0], Bounded(texts[0], limit), Some(action))] + ReusingLines(texts[1..], ids[1..], limit, nextId, action)
            else
              [Line(nextId, Bounded(texts[0], limit), Some(action))] + ReusingLines(texts[1..], [], limit, nextId + 1, action)
  {
    hide Bounded;
  }

  lemma {:induction false} ReusingLinesNumbered(texts: seq<Text>, ids: seq<nat>, limit: nat, nextId: nat, action: nat)
    ensures var ls := ReusingLines(texts, ids, limit, nextId, action);
            && |ls| == |texts|
            && forall i :: 0 <= i < |ls| ==> ls[i].id == if i < |ids| then ids[i] else nextId + (i - |ids|)
    decreases |texts|
  {
    hide Bounded;
    if texts != [] {
      if ids != [] {
        ReusingLinesNumbered(texts[1..], ids[1..], limit, nextId, action);
      } else {
        ReusingLinesNumbered(texts[1..], [], limit, nextId + 1, action);
      }
    }
  }

  lemma {:induction false} ReplacedIdsDistinct(lines: seq<Line>, streaming: seq<Line>, action: nat, texts: seq<Text>,
                                               limit: nat, nextId: nat, newNext: nat)
    requires DistinctIds(lines + streaming, nextId)
    requires var count, ids := |OrEmpty(texts)|, |IdsOf(lines, action)|;
             newNext == nextId + (if count > ids then count - ids else 0)
    ensures DistinctIds(Replaced(lines, action, texts, limit, nextId) + streaming, newNext)
  {
    hide ReusingLines, Others, IdsOf, DistinctIds;
    var start := FirstWith(lines, action);
    var old0 := lines + streaming;
    var others := PositionsOfOthers(lines, start, action);
    var removed := PositionsOfRemoved(lines, start, action);
    IdsBeforeFirst(lines, action);
    var created := ReusingLines(OrEmpty(texts), IdsOf(lines, action), limit, nextId, action);
    ReusingLinesNumbered(OrEmpty(texts), IdsOf(lines, action), limit, nextId, action);
    var head := seq(start, i requires 0 <= i => i);
    var middle := seq(|created|, i requires 0 <= i < |created| => if i < |removed| then removed[i] else |old0| + (i - |removed|));
    var tail := seq(|streaming|, i requires 0 <= i => |lines| + i);
    var sources := head + middle + others + tail;
    var all := lines[..start] + created + Others(lines[start..], action) + streaming;
    assert IdsFrom(all, sources, old0, nextId) by {
      ReplacedSources(lines, streaming, all, created, start, others, removed, head, middle, tail, action, nextId);
    }
    IdsFromDistinct(all, sources, old0, nextId, newNext);
  }

  lemma {:induction false} ReplacedSources(lines: seq<Line>, streaming: seq<Line>, all: seq<Line>, created: seq<Line>, start: nat,
                                           others: seq<nat>, removed: seq<nat>, head: seq<nat>, middle: seq<nat>, tail: seq<nat>,
                                           action: nat, nextId: nat)
    requires start <= |lines| && |head| == start && |middle| == |created| && |tail| == |streaming|
    requires |others| == |Others(lines[start..], action)|
    requires all == lines[..start] + created + Others(lines[start..], action) + streaming
    requires forall i :: 0 <= i < |head| ==> head[i] == i
    requires forall i :: 0 <= i < |tail| ==> tail[i] == |lines| + i
    requires forall i :: 0 <= i < |middle| ==>
               middle[i] == if i < |removed| then removed[i] else |lines| + |streaming| + (i - |removed|)
    requires forall i :: 0 <= i < |others| ==>
               && start <= others[i] < |lines|
               && lines[others[i]] == Others(lines[start..], action)[i] && lines[others[i]].action != Some(action)
    requires forall i :: 0 <= i < |removed| ==> start <= removed[i] < |lines| && lines[removed[i]].action == Some(action)
    requires forall i, j :: 0 <= i < j < |others| ==> others[i] < others[j]
    requires forall i, j :: 0 <= i < j < |removed| ==> removed[i] < removed[j]
    requires forall i :: 0 <= i < |created| ==>
               created[i].id == if i < |removed| then lines[removed[i]].id else nextId + (i - |removed|)
    ensures IdsFrom(all, head + middle + others + tail, lines + streaming, nextId)
  {
    hide Others;
    var old0, sources := lines + streaming, head + middle + others + tail;
    forall i | 0 <= i < |all| ensures all[i].id == SourceId(sources[i], old0, nextId) {
      if i >= start + |created| + |others| {
        assert all[i] == streaming[i - start - |created| - |others|];
      }
    }
    forall i, j | 0 <= i < j < |sources| ensures sources[i] != sources[j] {
    }
  }
}
