/** Where a view that is scrolled away comes to rest after a change (src/fullscreen.rs): it is put
    at the first row that shows the byte its top row began with. A row shows both its ends, and
    rows abut, so a top row that continues a line gives way to the row before it.
 */
module ViewAnchor {
  import opened Wrappers
  import opened LineWrap
  import opened Transcript

  /** Lines can be told apart by their ids. */
  ghost predicate Apart(lines: seq<Line>) {
    forall i, j :: 0 <= i < j < |lines| ==> lines[i].id != lines[j].id
  }

  /** Where the view goes when its top row was `row`. */
  function Restored(rows: seq<Row>, row: Row): nat { AnchorRow(rows, Some(Anchor(row.line, row.start))) }

  /* ---------- rows ---------- */

  lemma {:induction false} WrapAllConcat(a: seq<Line>, b: seq<Line>, columns: nat)
    ensures WrapAll(a + b, columns) == WrapAll(a, columns) + WrapAll(b, columns)
  {
    hide Wrap;
    if a == [] {
      assert a + b == b;
    } else {
      assert (a + b)[1..] == a[1..] + b;
      WrapAllConcat(a[1..], b, columns);
    }
  }

  /** The rows of a transcript around those of one line. */
  lemma RowsAround(lines: seq<Line>, columns: nat, i: nat)
    requires i < |lines|
    ensures WrapAll(lines, columns) == WrapAll(lines[..i], columns) + Wrap(lines[i], columns) + WrapAll(lines[i + 1..], columns)
  {
    hide Wrap, WrapAll;
    assert lines == lines[..i] + [lines[i]] + lines[i + 1..];
    WrapAllConcat(lines[..i] + [lines[i]], lines[i + 1..], columns);
    WrapAllSnoc(lines[..i], lines[i], columns);
  }

  lemma RowsOfOthers(lines: seq<Line>, columns: nat, id: nat)
    requires columns >= 1 && forall i :: 0 <= i < |lines| ==> lines[i].id != id
    ensures forall k :: 0 <= k < |WrapAll(lines, columns)| ==> WrapAll(lines, columns)[k].line != id
  {
    hide Wrap, WrapAll;
    forall k | 0 <= k < |WrapAll(lines, columns)| ensures WrapAll(lines, columns)[k].line != id {
      var line, row := CacheRowsFit(lines, columns, k);
      RowsTileTheLine(lines[line], columns, row);
      RowBelongs(lines[line], columns, row);
    }
  }

  lemma {:induction false} RowBelongs(line: Line, columns: nat, k: nat)
    requires columns >= 1 && k < |Wrap(line, columns)|
    ensures Wrap(line, columns)[k].line == line.id
  {
    if line.text != [] { RowBelongsFrom(line, 0, columns, k); }
  }

  lemma {:induction false} RowBelongsFrom(line: Line, a: nat, columns: nat, k: nat)
    requires a <= |line.text| && k < |RowsFrom(line, a, columns)|
    ensures RowsFrom(line, a, columns)[k].line == line.id
    decreases k
  {
    hide Extend;
    if k > 0 { RowBelongsFrom(line, Extend(line.text, a, a + 1, columns), columns, k - 1); }
  }

  /** The rows of a line are in order. */
  lemma {:induction false} RowsInOrder(line: Line, columns: nat, i: nat, j: nat)
    requires columns >= 1 && i < j < |Wrap(line, columns)|
    ensures Wrap(line, columns)[i].end <= Wrap(line, columns)[j].start
    ensures Wrap(line, columns)[i].start < Wrap(line, columns)[i].end && Wrap(line, columns)[j].start < Wrap(line, columns)[j].end
    decreases j
  {
    assert line.text != [];
    hide Wrap;
    RowsTileTheLine(line, columns, i);
    RowsTileTheLine(line, columns, j);
    RowsTileTheLine(line, columns, j - 1);
    if i < j - 1 { RowsInOrder(line, columns, i, j - 1); }
  }

  /* ---------- the first row that shows a byte ---------- */

  /** If the rows of one line are the only ones with its id, the search ends among them. */
  lemma {:induction false} FoundInLine(lines: seq<Line>, columns: nat, i: nat, n: nat, byte: nat)
    requires columns >= 1 && i < |lines| && Apart(lines) && n < |Wrap(lines[i], columns)|
    requires ShowsAnchor(Wrap(lines[i], columns)[n], Anchor(lines[i].id, byte))
    requires forall m :: 0 <= m < n ==> !ShowsAnchor(Wrap(lines[i], columns)[m], Anchor(lines[i].id, byte))
    ensures AnchorRow(WrapAll(lines, columns), Some(Anchor(lines[i].id, byte))) == |WrapAll(lines[..i], columns)| + n
  {
    hide Wrap, WrapAll;
    RowsAround(lines, columns, i);
    RowsOfOthers(lines[..i], columns, lines[i].id);
    var rows, k := WrapAll(lines, columns), |WrapAll(lines[..i], columns)| + n;
    assert rows[k] == Wrap(lines[i], columns)[n];
    forall m | 0 <= m < k ensures !ShowsAnchor(rows[m], Anchor(lines[i].id, byte)) {
      var before := |WrapAll(lines[..i], columns)|;
      if m < before {
        assert rows[m] == WrapAll(lines[..i], columns)[m];
      } else {
        assert rows[m] == Wrap(lines[i], columns)[m - before];
      }
    }
  }

  /** Whatever happens to the lines around it, as long as the line at the top is still there, the
      view comes to rest on the row it showed if that row begins the line, and on the row before it
      if it continues one. */
  lemma ViewKeepsItsLine(before: seq<Line>, after: seq<Line>, columns: nat, i: nat, i': nat, j: nat)
    requires columns >= 1 && Apart(after)
    requires i < |before| && i' < |after| && before[i] == after[i'] && j < |Wrap(before[i], columns)|
    ensures |WrapAll(before[..i], columns)| + j < |WrapAll(before, columns)|
    ensures var row := WrapAll(before, columns)[|WrapAll(before[..i], columns)| + j];
            && row == Wrap(before[i], columns)[j]
            && (row.start == 0 <==> j == 0)
            && Restored(WrapAll(after, columns), row) == |WrapAll(after[..i'], columns)| + if row.start == 0 then 0 else j - 1
  {
    hide Wrap, WrapAll, AnchorRow;
    RowsAround(before, columns, i);
    var line := before[i];
    RowBelongs(line, columns, j);
    RowsTileTheLine(line, columns, j);
    RowsTileTheLine(line, columns, 0);
    var n := if j == 0 then 0 else j - 1;
    if j > 0 {
      RowsInOrder(line, columns, 0, j);
      RowsTileTheLine(line, columns, n);
      RowBelongs(line, columns, n);
      RowsInOrder(line, columns, n, j);
    }
    forall m | 0 <= m < n ensures !ShowsAnchor(Wrap(line, columns)[m], Anchor(line.id, Wrap(line, columns)[j].start)) {
      RowsInOrder(line, columns, m, n);
      RowsInOrder(line, columns, n, j);
    }
    FoundInLine(after, columns, i', n, Wrap(line, columns)[j].start);
  }

  /** If the line is gone, the view goes to the top. */
  lemma ViewLosesItsLine(after: seq<Line>, columns: nat, anchor: Anchor)
    requires columns >= 1 && forall i :: 0 <= i < |after| ==> after[i].id != anchor.line
    ensures AnchorRow(WrapAll(after, columns), Some(anchor)) == 0
  {
    hide WrapAll;
    RowsOfOthers(after, columns, anchor.line);
  }

  /** A change that leaves the lines alone leaves the view alone exactly if its top row begins a line. */
  lemma ViewStaysExactly(s: FullscreenState)
    requires s.Valid() && s.scrollTop < |s.visualCache|
    ensures AnchorRow(s.visualCache, s.TopAnchor()) == s.scrollTop <==> s.visualCache[s.scrollTop].start == 0
    ensures s.visualCache[s.scrollTop].start > 0 ==> AnchorRow(s.visualCache, s.TopAnchor()) == s.scrollTop - 1
  {
    hide WrapAll, Wrap, AnchorRow, TotalCost, ContentRows, WithinLimits;
    var all := s.lines + s.streaming;
    var i, j := PlaceOf(all, s.columns, s.scrollTop);
    ViewKeepsItsLine(all, all, s.columns, i, i, j);
  }

  /** The line of a row, and its place in that line. */
  lemma {:induction false} PlaceOf(lines: seq<Line>, columns: nat, k: nat) returns (i: nat, j: nat)
    requires k < |WrapAll(lines, columns)|
    ensures i < |lines| && j < |Wrap(lines[i], columns)| && k == |WrapAll(lines[..i], columns)| + j
  {
    hide Wrap;
    var first := |Wrap(lines[0], columns)|;
    if k < first {
      i, j := 0, k;
    } else {
      i, j := PlaceOf(lines[1..], columns, k - first);
      assert lines[..i + 1][1..] == lines[1..][..i];
      i := i + 1;
    }
  }

  /** A view scrolled away drifts: each of a number of changes further down moves it up by one row,
      until it begins a line. */
  lemma {:induction false} ViewDrifts(head: seq<Line>, line: Line, later: seq<seq<Line>>, columns: nat, tops: seq<nat>, maxima: seq<nat>, j: nat, t: nat)
    requires columns >= 1 && j < |Wrap(line, columns)| && t < |tops| && |tops| == |later| == |maxima|
    requires forall n :: 0 <= n < |later| ==> Apart(head + [line] + later[n])
    requires tops[0] == |WrapAll(head, columns)| + j && forall n :: 0 <= n < |maxima| ==> tops[0] <= maxima[n]
    requires forall n :: 0 <= n < |tops| ==> tops[n] < |WrapAll(head + [line] + later[n], columns)|
    requires forall n :: 0 < n < |tops| ==>
               tops[n] == Min(Restored(WrapAll(head + [line] + later[n], columns),
                                       WrapAll(head + [line] + later[n - 1], columns)[tops[n - 1]]), maxima[n])
    ensures tops[t] == |WrapAll(head, columns)| + if t < j then j - t else 0
    decreases t
  {
    hide Wrap, WrapAll, AnchorRow, Restored, Apart;
    if t > 0 {
      ViewDrifts(head, line, later, columns, tops, maxima, j, t - 1);
      var before, after := head + [line] + later[t - 1], head + [line] + later[t];
      var j' := if t - 1 < j then j - (t - 1) else 0;
      assert before[..|head|] == head == after[..|head|] && before[|head|] == line == after[|head|];
      ViewKeepsItsLine(before, after, columns, |head|, |head|, j');
    }
  }

  /** After a change of width the top row is in the line it was in and shows the byte it began with
      at one of its ends or between; that byte begins the row below exactly if the new rows break there. */
  lemma ResizeKeepsTheByte(lines: seq<Line>, columns: nat, i: nat, byte: nat)
    requires columns >= 1 && i < |lines| && Apart(lines) && byte <= Bytes(lines[i].text)
    ensures var rows := WrapAll(lines, columns);
            var n := AnchorRow(rows, Some(Anchor(lines[i].id, byte)));
            && n < |rows| && rows[n].line == lines[i].id && rows[n].start <= byte <= rows[n].end
            && (byte < Bytes(lines[i].text) ==>
                (byte == rows[n].end <==> byte > 0 && exists k :: 0 <= k < |rows| && rows[k].line == lines[i].id && rows[k].start == byte))
  {
    hide Wrap, WrapAll;
    var line := lines[i];
    var m := RowShowing(line, columns, byte);
    RowsTileTheLine(line, columns, m);
    RowBelongs(line, columns, m);
    FoundInLine(lines, columns, i, m, byte);
    RowsAround(lines, columns, i);
    var rows, base := WrapAll(lines, columns), |WrapAll(lines[..i], columns)|;
    assert rows[base + m] == Wrap(line, columns)[m];
    if byte < Bytes(line.text) && byte == rows[base + m].end {
      assert rows[base + m + 1] == Wrap(line, columns)[m + 1];
      RowBelongs(line, columns, m + 1);
    }
    RowsOfLine(lines, columns, i);
    forall k | 0 <= k < |rows| && rows[k].line == line.id && rows[k].start == byte && byte > 0 && byte < Bytes(line.text)
      ensures byte == rows[base + m].end
    {
      BreaksAt(line, columns, k - base, m, byte);
    }
  }

  lemma RowsOfLine(lines: seq<Line>, columns: nat, i: nat)
    requires columns >= 1 && i < |lines| && Apart(lines)
    ensures var rows, base, own := WrapAll(lines, columns), |WrapAll(lines[..i], columns)|, Wrap(lines[i], columns);
            forall k :: 0 <= k < |rows| && rows[k].line == lines[i].id ==> base <= k < base + |own| && rows[k] == own[k - base]
  {
    hide Wrap, WrapAll;
    var rows, above, own, below := WrapAll(lines, columns), WrapAll(lines[..i], columns), Wrap(lines[i], columns), WrapAll(lines[i + 1..], columns);
    RowsAround(lines, columns, i);
    assert forall k :: 0 <= k < |above| ==> rows[k] == above[k];
    assert forall k :: |above| + |own| <= k < |rows| ==> rows[k] == below[k - |above| - |own|];
    RowsOfOthers(lines[..i], columns, lines[i].id);
    RowsOfOthers(lines[i + 1..], columns, lines[i].id);
  }

  /** The first row of a line that shows a byte of it. */
  lemma {:induction false} RowShowing(line: Line, columns: nat, byte: nat) returns (m: nat)
    requires columns >= 1 && byte <= Bytes(line.text)
    ensures m < |Wrap(line, columns)| && Wrap(line, columns)[m].start <= byte <= Wrap(line, columns)[m].end
    ensures forall k :: 0 <= k < m ==> Wrap(line, columns)[k].end < byte
    ensures byte > 0 ==> Wrap(line, columns)[m].start < byte
  {
    m := 0;
    SomeRow(line, columns);
    hide Wrap;
    var rows := Wrap(line, columns);
    RowsTileTheLine(line, columns, 0);
    while rows[m].end < byte
      invariant m < |rows| && rows[m].start <= byte && (byte > 0 ==> rows[m].start < byte)
      invariant forall k :: 0 <= k < m ==> rows[k].end < byte
      decreases |rows| - m
    {
      RowsTileTheLine(line, columns, m);
      RowsTileTheLine(line, columns, |rows| - 1);
      m := m + 1;
    }
  }

  lemma SomeRow(line: Line, columns: nat)
    ensures |Wrap(line, columns)| > 0 && (line.text == [] ==> Wrap(line, columns) == [Row(line.id, 0, 0, [])] && Bytes(line.text) == 0)
  {
  }

  lemma BreaksAt(line: Line, columns: nat, k: nat, m: nat, byte: nat)
    requires columns >= 1 && k < |Wrap(line, columns)| && m < |Wrap(line, columns)|
    requires Wrap(line, columns)[k].start == byte && 0 < byte
    requires Wrap(line, columns)[m].start < byte <= Wrap(line, columns)[m].end
    ensures byte == Wrap(line, columns)[m].end
  {
    if m < k {
      RowsInOrder(line, columns, m, k);
    } else if k < m {
      RowsInOrder(line, columns, k, m);
    }
  }

  /** At the bottom the view ends with the last row, and it is full as soon as there are rows enough. */
  lemma BottomIsTheLastScreen(s: FullscreenState)
    ensures var content := ContentRows(s.rows, s.composerReserve, s.status);
            && s.ScrollMax() + content >= |s.visualCache|
            && (s.ScrollMax() > 0 ==> s.ScrollMax() + content == |s.visualCache|)
  {
  }
}
