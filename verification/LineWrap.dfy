/** Model of the transcript's soft wrapping (src/fullscreen.rs). A line is a sequence of
    graphemes, each with its length in bytes and its display width.
 */
module LineWrap {

  import opened Wrappers

  datatype RawGrapheme = Grapheme(bytes: nat, width: nat, symbol: nat)

  /** A grapheme takes at least one byte and one column. */
  type Grapheme = g: RawGrapheme | g.bytes >= 1 && g.width >= 1 witness Grapheme(1, 1, 0)

  type Text = seq<Grapheme>

  /** Stands for what does not fit. */
  const ELLIPSIS: Grapheme := Grapheme(3, 1, 0)

  datatype Line = Line(id: nat, text: Text, action: Option<nat>)

  /** One screen row: the byte range of its line that it shows, and what is displayed. */
  datatype Row = Row(line: nat, start: nat, end: nat, shown: Text)

  /** Bytes and columns of the first `i` graphemes. */
  function BytesTo(t: Text, i: nat): nat
    requires i <= |t|
  {
    if i == 0 then 0 else BytesTo(t, i - 1) + t[i - 1].bytes
  }

  function WidthTo(t: Text, i: nat): nat
    requires i <= |t|
  {
    if i == 0 then 0 else WidthTo(t, i - 1) + t[i - 1].width
  }

  function Bytes(t: Text): nat { BytesTo(t, |t|) }

  lemma {:induction false} Monotone(t: Text, i: nat, j: nat)
    requires i <= j <= |t|
    ensures WidthTo(t, i) + (j - i) <= WidthTo(t, j) && BytesTo(t, i) + (j - i) <= BytesTo(t, j)
    decreases j
  {
    if i < j { Monotone(t, i, j - 1); }
  }

  /* ---------- what a row is ---------- */

  /** The graphemes `a..b` fit on a row; a grapheme wider than the screen has a row of its own. */
  ghost predicate Fits(t: Text, a: nat, b: nat, columns: nat)
    requires a < b <= |t|
  {
    WidthTo(t, b) - WidthTo(t, a) <= columns || b == a + 1
  }

  /** No further grapheme would have fitted. */
  ghost predicate Full(t: Text, a: nat, b: nat, columns: nat)
    requires a < b <= |t|
  {
    b == |t| || WidthTo(t, b + 1) - WidthTo(t, a) > columns
  }

  /** A row from grapheme `a` ends at `b`. */
  ghost predicate IsRowEnd(t: Text, a: nat, b: nat, columns: nat)
    requires a < b <= |t|
  {
    Fits(t, a, b, columns) && Full(t, a, b, columns)
  }

  lemma {:induction false} RowEndUnique(t: Text, a: nat, b: nat, c: nat, columns: nat)
    requires a < b <= |t| && a < c <= |t| && IsRowEnd(t, a, b, columns) && IsRowEnd(t, a, c, columns)
    ensures b == c
  {
    if b < c {
      Monotone(t, b + 1, c);
    } else if c < b {
      Monotone(t, c + 1, b);
    }
  }

  function Extend(t: Text, a: nat, b: nat, columns: nat): (end: nat)
    requires a < b <= |t|
    ensures b <= end <= |t|
    decreases |t| - b
  {
    if b < |t| && WidthTo(t, b + 1) - WidthTo(t, a) <= columns then Extend(t, a, b + 1, columns) else b
  }

  lemma {:induction false} ExtendIsRowEnd(t: Text, a: nat, b: nat, columns: nat)
    requires a < b <= |t| && Fits(t, a, b, columns)
    ensures IsRowEnd(t, a, Extend(t, a, b, columns), columns)
    decreases |t| - b
  {
    if b < |t| && WidthTo(t, b + 1) - WidthTo(t, a) <= columns { ExtendIsRowEnd(t, a, b + 1, columns); }
  }

  /** What a row shows: its graphemes, or an ellipsis for one that is too wide. */
  function Shown(t: Text, a: nat, b: nat, columns: nat): Text
    requires a < b <= |t|
  {
    if b == a + 1 && t[a].width > columns then [ELLIPSIS] else t[a..b]
  }

  function RowOf(line: Line, a: nat, b: nat, columns: nat): Row
    requires a < b <= |line.text|
  {
    Row(line.id, BytesTo(line.text, a), BytesTo(line.text, b), Shown(line.text, a, b, columns))
  }

  ghost function RowsFrom(line: Line, a: nat, columns: nat): seq<Row>
    requires a <= |line.text|
    decreases |line.text| - a
  {
    if a == |line.text| then []
    else
      var b := Extend(line.text, a, a + 1, columns);
      [RowOf(line, a, b, columns)] + RowsFrom(line, b, columns)
  }

  /** The rows of a line; an empty line has one empty row. */
  ghost function Wrap(line: Line, columns: nat): seq<Row> {
    if line.text == [] then [Row(line.id, 0, 0, [])] else RowsFrom(line, 0, columns)
  }

  ghost function WrapAll(lines: seq<Line>, columns: nat): seq<Row> {
    if lines == [] then [] else Wrap(lines[0], columns) + WrapAll(lines[1..], columns)
  }

  lemma {:induction false} WrapAllSnoc(lines: seq<Line>, line: Line, columns: nat)
    ensures WrapAll(lines + [line], columns) == WrapAll(lines, columns) + Wrap(line, columns)
  {
    hide Wrap;
    if lines == [] {
      assert lines + [line] == [line] && [line][1..] == [];
      assert Wrap(line, columns) + [] == [] + Wrap(line, columns);
    } else {
      assert (lines + [line])[1..] == lines[1..] + [line];
      WrapAllSnoc(lines[1..], line, columns);
      var a, b, c := Wrap(lines[0], columns), WrapAll(lines[1..], columns), Wrap(line, columns);
      assert a + (b + c) == a + b + c;
    }
  }

  /* ---------- the rows are the only greedy tiling ---------- */

  /** Rows tile the bytes of the line at grapheme boundaries, show their graphemes, fit, and are full. */
  ghost predicate IsGreedyTiling(line: Line, columns: nat, rows: seq<Row>, cuts: seq<nat>) {
    && |cuts| == |rows| + 1 && cuts[|rows|] == |line.text|
    && forall k :: 0 <= k < |rows| ==> IsGreedyRow(line, columns, rows[k], cuts[k], cuts[k + 1])
  }

  ghost predicate IsGreedyRow(line: Line, columns: nat, row: Row, a: nat, b: nat) {
    && a < b <= |line.text| && IsRowEnd(line.text, a, b, columns) && row == RowOf(line, a, b, columns)
  }

  lemma {:induction false} RowsAreGreedyTiling(line: Line, a: nat, columns: nat) returns (cuts: seq<nat>)
    requires a <= |line.text|
    ensures IsGreedyTiling(line, columns, RowsFrom(line, a, columns), cuts) && cuts[0] == a
    decreases |line.text| - a
  {
    hide RowOf, IsRowEnd, Extend;
    if a == |line.text| {
      cuts := [a];
    } else {
      assert IsRowEnd(line.text, a, Extend(line.text, a, a + 1, columns), columns) by {
        assert Fits(line.text, a, a + 1, columns);
        ExtendIsRowEnd(line.text, a, a + 1, columns);
      }
      var b := Extend(line.text, a, a + 1, columns);
      var rest := RowsAreGreedyTiling(line, b, columns);
      cuts := [a] + rest;
      TilingCons(line, columns, a, b, RowsFrom(line, b, columns), rest);
    }
  }

  lemma TilingCons(line: Line, columns: nat, a: nat, b: nat, rows: seq<Row>, cuts: seq<nat>)
    requires a < b <= |line.text| && IsRowEnd(line.text, a, b, columns)
    requires IsGreedyTiling(line, columns, rows, cuts) && cuts[0] == b
    ensures IsGreedyTiling(line, columns, [RowOf(line, a, b, columns)] + rows, [a] + cuts)
  {
    hide RowOf, IsRowEnd;
    var rows', cuts' := [RowOf(line, a, b, columns)] + rows, [a] + cuts;
    forall k | 0 <= k < |rows'| ensures IsGreedyRow(line, columns, rows'[k], cuts'[k], cuts'[k + 1]) {
      if k > 0 {
        assert rows'[k] == rows[k - 1] && cuts'[k] == cuts[k - 1] && cuts'[k + 1] == cuts[k];
      }
    }
  }

  lemma {:induction false} GreedyTilingIsUnique(line: Line, columns: nat, rows: seq<Row>, cuts: seq<nat>)
    requires IsGreedyTiling(line, columns, rows, cuts)
    ensures cuts[0] <= |line.text| && rows == RowsFrom(line, cuts[0], columns)
    decreases |rows|
  {
    hide RowOf, IsRowEnd, Extend;
    if rows != [] {
      var a, b := cuts[0], cuts[1];
      assert IsGreedyRow(line, columns, rows[0], cuts[0], cuts[0 + 1]);
      assert IsRowEnd(line.text, a, Extend(line.text, a, a + 1, columns), columns) by {
        assert Fits(line.text, a, a + 1, columns);
        ExtendIsRowEnd(line.text, a, a + 1, columns);
      }
      RowEndUnique(line.text, a, b, Extend(line.text, a, a + 1, columns), columns);
      forall k | 0 <= k < |rows[1..]| ensures IsGreedyRow(line, columns, rows[1..][k], cuts[1..][k], cuts[1..][k + 1]) {
        assert IsGreedyRow(line, columns, rows[k + 1], cuts[k + 1], cuts[k + 1 + 1]);
      }
      GreedyTilingIsUnique(line, columns, rows[1..], cuts[1..]);
      assert rows == [rows[0]] + rows[1..];
    }
  }

  /** The rows of a line tile its bytes without gap or overlap, and none is wider than the screen. */
  lemma {:induction false} RowsTileTheLine(line: Line, columns: nat, k: nat)
    requires columns >= 1 && k < |Wrap(line, columns)|
    ensures var rows := Wrap(line, columns);
            && WidthTo(rows[k].shown, |rows[k].shown|) <= columns
            && rows[0].start == 0 && rows[|rows| - 1].end == Bytes(line.text)
            && (k + 1 < |rows| ==> rows[k].end == rows[k + 1].start)
            && (line.text != [] ==> rows[k].start < rows[k].end)
            && rows[k].line == line.id
  {
    if line.text != [] {
      hide RowsFrom, WidthTo, BytesTo, IsGreedyTiling;
      var cuts := RowsAreGreedyTiling(line, 0, columns);
      var rows := RowsFrom(line, 0, columns);
      TilingEnds(line, columns, rows, cuts);
      RowAt(line, columns, rows, cuts, k);
      RowAt(line, columns, rows, cuts, 0);
      RowAt(line, columns, rows, cuts, |rows| - 1);
      if k + 1 < |rows| { RowAt(line, columns, rows, cuts, k + 1); }
    }
  }

  lemma TilingEnds(line: Line, columns: nat, rows: seq<Row>, cuts: seq<nat>)
    requires IsGreedyTiling(line, columns, rows, cuts)
    ensures |cuts| == |rows| + 1 && cuts[|rows|] == |line.text|
  {
  }

  lemma {:induction false} RowAt(line: Line, columns: nat, rows: seq<Row>, cuts: seq<nat>, k: nat)
    requires columns >= 1 && IsGreedyTiling(line, columns, rows, cuts) && k < |rows|
    ensures |cuts| == |rows| + 1 && cuts[k] < cuts[k + 1] <= |line.text| && BytesTo(line.text, 0) == 0
    ensures var row := rows[k];
            && WidthTo(row.shown, |row.shown|) <= columns && row.start < row.end && row.line == line.id
            && row.start == BytesTo(line.text, cuts[k]) && row.end == BytesTo(line.text, cuts[k + 1])
  {
    hide RowOf, IsRowEnd, WidthTo, BytesTo;
    assert IsGreedyRow(line, columns, rows[k], cuts[k], cuts[k + 1]);
    RowFacts(line, cuts[k], cuts[k + 1], columns);
  }

  lemma {:induction false} RowFacts(line: Line, a: nat, b: nat, columns: nat)
    requires columns >= 1 && a < b <= |line.text| && IsRowEnd(line.text, a, b, columns)
    ensures var row := RowOf(line, a, b, columns);
            && WidthTo(row.shown, |row.shown|) <= columns
            && row.start == BytesTo(line.text, a) && row.end == BytesTo(line.text, b)
            && row.start < row.end && row.line == line.id
            && BytesTo(line.text, 0) == 0
  {
    Monotone(line.text, a, b);
    WidthOfSlice(line.text, a, b);
    assert WidthTo([ELLIPSIS], 1) == WidthTo([ELLIPSIS], 0) + 1;
    assert WidthTo(line.text, a + 1) == WidthTo(line.text, a) + line.text[a].width;
  }

  lemma {:induction false} WidthOfSlice(t: Text, a: nat, b: nat)
    requires a <= b <= |t|
    ensures WidthTo(t[a..b], b - a) == WidthTo(t, b) - WidthTo(t, a)
    decreases b
  {
    if a < b {
      WidthOfSlice(t, a, b - 1);
      WidthOfPrefix(t[a..b], b - 1 - a);
      assert t[a..b][..b - 1 - a] == t[a..b - 1];
      WidthOfPrefix(t[a..b - 1], b - 1 - a);
      assert t[a..b - 1][..b - 1 - a] == t[a..b - 1];
    }
  }

  lemma {:induction false} WidthOfPrefix(t: Text, n: nat)
    requires n <= |t|
    ensures WidthTo(t[..n], n) == WidthTo(t, n)
    decreases n
  {
    if n > 0 {
      WidthOfPrefix(t, n - 1);
      WidthOfPrefix(t[..n], n - 1);
      assert t[..n][..n - 1] == t[..n - 1];
    }
  }

  /* ---------- what the rows show ---------- */

  /** The row shows the graphemes `a..b` at their bytes, or an ellipsis in place of a single one
      that is wider than the screen. */
  ghost predicate Shows(t: Text, row: Row, a: nat, b: nat, columns: nat) {
    && a < b <= |t|
    && row.start == Bytes(t[..a]) && row.end == Bytes(t[..b])
    && (if b == a + 1 && t[a].width > columns then row.shown == [ELLIPSIS] else row.shown == t[a..b])
  }

  function Displayed(rows: seq<Row>): Text {
    if rows == [] then [] else Displayed(rows[..|rows| - 1]) + rows[|rows| - 1].shown
  }

  /** The rows show the line, piece after piece. */
  lemma {:induction false} RowsShowTheLine(line: Line, columns: nat) returns (cuts: seq<nat>)
    requires line.text != []
    ensures var rows := Wrap(line, columns);
            && |cuts| == |rows| + 1 && cuts[0] == 0 && cuts[|rows|] == |line.text|
            && forall k :: 0 <= k < |rows| ==> Shows(line.text, rows[k], cuts[k], cuts[k + 1], columns)
  {
    hide RowsFrom, BytesTo, RowOf, IsRowEnd, Shows;
    cuts := RowsAreGreedyTiling(line, 0, columns);
    var rows := RowsFrom(line, 0, columns);
    forall k | 0 <= k < |rows|
      ensures Shows(line.text, rows[k], cuts[k], cuts[k + 1], columns)
    {
      assert IsGreedyRow(line, columns, rows[k], cuts[k], cuts[k + 1]);
      RowShows(line, cuts[k], cuts[k + 1], columns);
    }
  }

  lemma RowShows(line: Line, a: nat, b: nat, columns: nat)
    requires a < b <= |line.text|
    ensures Shows(line.text, RowOf(line, a, b, columns), a, b, columns)
  {
    BytesOfPrefix(line.text, a);
    BytesOfPrefix(line.text, b);
  }

  /** A line without a grapheme wider than the screen is displayed as it is. */
  lemma {:induction false} RowsDisplayTheText(line: Line, columns: nat)
    requires forall i :: 0 <= i < |line.text| ==> line.text[i].width <= columns
    ensures Displayed(Wrap(line, columns)) == line.text
  {
    if line.text == [] {
      assert [Row(line.id, 0, 0, [])][..0] == [];
    } else {
      var cuts := RowsShowTheLine(line, columns);
      var rows := Wrap(line, columns);
      DisplayedUpTo(line, columns, rows, cuts, |rows|);
      assert rows[..|rows|] == rows && line.text[..|line.text|] == line.text;
    }
  }

  lemma {:induction false} DisplayedUpTo(line: Line, columns: nat, rows: seq<Row>, cuts: seq<nat>, n: nat)
    requires forall i :: 0 <= i < |line.text| ==> line.text[i].width <= columns
    requires n <= |rows| && |cuts| == |rows| + 1 && cuts[0] == 0
    requires forall k :: 0 <= k < |rows| ==> Shows(line.text, rows[k], cuts[k], cuts[k + 1], columns)
    ensures cuts[n] <= |line.text| && Displayed(rows[..n]) == line.text[..cuts[n]]
  {
    hide Bytes;
    if n > 0 {
      DisplayedUpTo(line, columns, rows, cuts, n - 1);
      assert rows[..n][..n - 1] == rows[..n - 1];
      assert line.text[..cuts[n - 1]] + line.text[cuts[n - 1]..cuts[n]] == line.text[..cuts[n]];
    }
  }

  /** Bytes and columns of a text add up. */
  lemma {:induction false} BytesAndWidthAddUp(t: Text, g: Grapheme)
    ensures Bytes(t + [g]) == Bytes(t) + g.bytes && WidthTo(t + [g], |t| + 1) == WidthTo(t, |t|) + g.width
    ensures Bytes([]) == 0 && WidthTo([], 0) == 0
  {
    BytesOfPrefix(t + [g], |t|);
    WidthOfPrefix(t + [g], |t|);
    assert (t + [g])[..|t|] == t;
  }

  /* ---------- the loop of the source ---------- */

  /** Appends the rows of a line. `start` is the first grapheme of the row being filled and
      `width` its width so far. */
  method WrapLine(line: Line, columns: nat, output: seq<Row>) returns (rows: seq<Row>)
    requires columns >= 1
    ensures rows == output + Wrap(line, columns)
  {
    hide RowOf, Extend, BytesTo;
    rows := output;
    var t := line.text;
    if t == [] {
      return rows + [Row(line.id, 0, 0, [])];
    }
    var start := 0;
    var width := 0;
    for i := 0 to |t|
      invariant start <= i && width == WidthTo(t, i) - WidthTo(t, start) <= columns && (width == 0 <==> start == i)
      invariant output + Wrap(line, columns) == rows + RowsFrom(line, start, columns)
    {
      Monotone(t, start, i);
      assert WidthTo(t, i + 1) == WidthTo(t, i) + t[i].width;
      if width > 0 && width + t[i].width > columns {
        RowCut(line, start, i, columns);
        assert rows + ([RowOf(line, start, i, columns)] + RowsFrom(line, i, columns))
            == rows + [RowOf(line, start, i, columns)] + RowsFrom(line, i, columns);
        rows := rows + [RowOf(line, start, i, columns)];
        start, width := i, 0;
      }
      if t[i].width > columns {
        RowCut(line, i, i + 1, columns);
        assert rows + ([RowOf(line, i, i + 1, columns)] + RowsFrom(line, i + 1, columns))
            == rows + [RowOf(line, i, i + 1, columns)] + RowsFrom(line, i + 1, columns);
        rows := rows + [RowOf(line, i, i + 1, columns)];
        start, width := i + 1, 0;
      } else {
        width := width + t[i].width;
      }
    }
    if start < |t| {
      RowCut(line, start, |t|, columns);
      rows := rows + [RowOf(line, start, |t|, columns)];
    }
  }

  /** A row end is where the next row begins. */
  lemma {:induction false} RowCut(line: Line, a: nat, b: nat, columns: nat)
    requires a < b <= |line.text| && IsRowEnd(line.text, a, b, columns)
    ensures RowsFrom(line, a, columns) == [RowOf(line, a, b, columns)] + RowsFrom(line, b, columns)
  {
    hide RowOf, Extend;
    assert Fits(line.text, a, a + 1, columns);
    ExtendIsRowEnd(line.text, a, a + 1, columns);
    RowEndUnique(line.text, a, b, Extend(line.text, a, a + 1, columns), columns);
  }

  /* ---------- bounding a text ---------- */

  /** A text within `limit` bytes: the text itself when it fits, otherwise a prefix of it,
      closed by an ellipsis when there is room for one. */
  method Bound(t: Text, limit: nat) returns (bounded: Text)
    ensures bounded == Bounded(t, limit)
  {
    var n := 0;
    while n < |t| && BytesTo(t, n + 1) <= limit
      invariant n <= |t| && BytesTo(t, n) <= limit
      invariant Longest(t, n, limit) == Longest(t, 0, limit)
    {
      n := n + 1;
    }
    assert n == Longest(t, 0, limit);
    if n < |t| && limit >= ELLIPSIS.bytes {
      var m := n;
      while BytesTo(t, m) + ELLIPSIS.bytes > limit
        invariant 0 <= m <= n && Shorten(t, m, limit) == Shorten(t, n, limit)
        decreases m
      {
        m := m - 1;
      }
      return t[..m] + [ELLIPSIS];
    }
    return t[..n];
  }

  function Longest(t: Text, n: nat, limit: nat): (m: nat)
    requires n <= |t|
    ensures n <= m <= |t|
    decreases |t| - n
  {
    if n < |t| && BytesTo(t, n + 1) <= limit then Longest(t, n + 1, limit) else n
  }

  function Shorten(t: Text, n: nat, limit: nat): (m: nat)
    requires n <= |t| && limit >= ELLIPSIS.bytes
    ensures m <= n && BytesTo(t, m) + ELLIPSIS.bytes <= limit
  {
    if BytesTo(t, n) + ELLIPSIS.bytes <= limit then n else Shorten(t, n - 1, limit)
  }

  function Bounded(t: Text, limit: nat): Text {
    var n := Longest(t, 0, limit);
    if n < |t| && limit >= ELLIPSIS.bytes then t[..Shorten(t, n, limit)] + [ELLIPSIS] else t[..n]
  }

  lemma {:induction false} BoundedFits(t: Text, limit: nat)
    ensures Bytes(Bounded(t, limit)) <= limit
    ensures Bytes(t) <= limit ==> Bounded(t, limit) == t
  {
    LongestFits(t, 0, limit);
    var n := Longest(t, 0, limit);
    BytesOfPrefix(t, n);
    if n == |t| {
      assert t[..n] == t;
    } else {
      Monotone(t, n + 1, |t|);
      if limit >= ELLIPSIS.bytes {
        var m := Shorten(t, n, limit);
        var b := t[..m] + [ELLIPSIS];
        BytesOfPrefix(t, m);
        BytesOfPrefix(b, m);
        assert b[..m] == t[..m];
      }
    }
  }

  lemma {:induction false} LongestFits(t: Text, n: nat, limit: nat)
    requires n <= |t| && BytesTo(t, n) <= limit
    ensures BytesTo(t, Longest(t, n, limit)) <= limit
    ensures Longest(t, n, limit) < |t| ==> BytesTo(t, Longest(t, n, limit) + 1) > limit
    decreases |t| - n
  {
    if n < |t| && BytesTo(t, n + 1) <= limit { LongestFits(t, n + 1, limit); }
  }

  /** A text that does not fit is cut at the longest prefix within the limit, or, if an ellipsis fits
      at all, at the longest one that leaves room for it. */
  lemma {:induction false} BoundedIsLongest(t: Text, limit: nat) returns (n: nat)
    requires Bytes(t) > limit
    ensures n <= |t| && Bounded(t, limit) == t[..n] + (if limit >= ELLIPSIS.bytes then [ELLIPSIS] else [])
    ensures forall k :: 0 <= k <= |t| ==>
              (BytesTo(t, k) + (if limit >= ELLIPSIS.bytes then ELLIPSIS.bytes else 0) <= limit <==> k <= n)
  {
    LongestFits(t, 0, limit);
    var longest := Longest(t, 0, limit);
    n := longest;
    if limit >= ELLIPSIS.bytes {
      n := Shorten(t, longest, limit);
      ShortenIsLongest(t, longest, limit);
    }
    forall k | 0 <= k <= |t|
      ensures BytesTo(t, k) + (if limit >= ELLIPSIS.bytes then ELLIPSIS.bytes else 0) <= limit <==> k <= n
    {
      CutAt(t, longest, k, limit);
      if n < longest { CutAt(t, n, k, limit - ELLIPSIS.bytes); } else if k <= n { Monotone(t, k, n); }
    }
  }

  lemma {:induction false} CutAt(t: Text, n: nat, k: nat, limit: nat)
    requires n <= |t| && k <= |t| && BytesTo(t, n) <= limit && (n < |t| ==> BytesTo(t, n + 1) > limit)
    ensures BytesTo(t, k) <= limit <==> k <= n
  {
    if k <= n { Monotone(t, k, n); } else { Monotone(t, n + 1, k); }
  }

  lemma {:induction false} ShortenIsLongest(t: Text, n: nat, limit: nat)
    requires n <= |t| && limit >= ELLIPSIS.bytes
    ensures var m := Shorten(t, n, limit); m < n ==> BytesTo(t, m + 1) + ELLIPSIS.bytes > limit
  {
    if BytesTo(t, n) + ELLIPSIS.bytes > limit { ShortenIsLongest(t, n - 1, limit); }
  }

  lemma {:induction false} BytesOfPrefix(t: Text, n: nat)
    requires n <= |t|
    ensures BytesTo(t[..n], n) == BytesTo(t, n)
    decreases n
  {
    if n > 0 {
      BytesOfPrefix(t, n - 1);
      BytesOfPrefix(t[..n], n - 1);
      assert t[..n][..n - 1] == t[..n - 1];
    }
  }
}
