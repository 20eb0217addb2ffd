/**
 * ansi/table.go: drawing a box table around a header and rows of cells.
 * The writer is modelled as the sequence of lines written to it; every line
 * is built piece by piece in the order Table writes the pieces.
 */
module AnsiTable {
  import opened Runes
  import opened MathSum

  const TopLeft: char := '\U{250C}'
  const TopRight: char := '\U{2510}'
  const BottomLeft: char := '\U{2514}'
  const BottomRight: char := '\U{2518}'
  const MidLeft: char := '\U{251C}'
  const MidRight: char := '\U{2524}'
  const VertBar: char := '\U{2502}'
  const HorizBar: char := '\U{2500}'
  const TopSep: char := '\U{252C}'
  const BottomSep: char := '\U{2534}'
  const MidSep: char := '\U{253C}'

  /** What Table leaves behind: the lines it wrote, or the empty-column-set error (and nothing written). */
  datatype Drawn = Lines(lines: seq<string>) | EmptyColumns

  /** The width stringWidth gives one rune: 2 when its UTF-8 form takes more than one byte, else 1. */
  function RuneWidth(c: char): nat {
    if RuneLen(c) > 1 then 2 else 1
  }

  /** The width stringWidth computes: the sum of the widths of the runes. */
  function Width(s: string): nat {
    if |s| == 0 then 0 else Width(s[..|s| - 1]) + RuneWidth(s[|s| - 1])
  }

  lemma {:induction false} WidthAppend(a: string, b: string)
    ensures Width(a + b) == Width(a) + Width(b)
    decreases |b|
  {
    if |b| == 0 {
      assert a + b == a;
    } else {
      var init := b[..|b| - 1];
      assert (a + b)[..|a + b| - 1] == a + init;
      assert (a + b)[|a + b| - 1] == b[|b| - 1];
      WidthAppend(a, init);
    }
  }

  /**
   * A string is at least as wide as it has runes and at most twice that; it is
   * exactly as wide as it is long when every rune is ASCII.
   */
  lemma {:induction false} WidthBounds(s: string)
    ensures |s| <= Width(s) <= 2 * |s|
    ensures Width(s) == |s| <==> forall i :: 0 <= i < |s| ==> s[i] as int < 0x80
    decreases |s|
  {
    if |s| > 0 {
      var init := s[..|s| - 1];
      WidthBounds(init);
      assert forall i :: 0 <= i < |init| ==> init[i] == s[i];
    }
  }

  /** stringWidth: one pass over the runes adding 2 for a multi-byte rune and 1 otherwise. */
  method StringWidth(value: string) returns (width: int)
    ensures width == Width(value)
  {
    width := 0;
    for i := 0 to |value|
      invariant width == Width(value[..i])
    {
      assert value[..i + 1][..i] == value[..i];
      var runeWidth := RuneLen(value[i]);
      if runeWidth > 1 {
        width := width + 2;
      } else {
        width := width + 1;
      }
    }
    assert value[..|value|] == value;
  }

  /** strings.Repeat of a one-rune string. */
  function Repeat(c: char, n: nat): string {
    seq(n, _ => c)
  }

  lemma {:induction false} WidthOfSpaces(n: nat)
    ensures Width(Repeat(' ', n)) == n
    decreases n
  {
    if n > 0 {
      assert Repeat(' ', n)[..n - 1] == Repeat(' ', n - 1);
      WidthOfSpaces(n - 1);
    }
  }

  lemma {:induction false} RepeatCount(c: char, n: nat)
    ensures multiset(Repeat(c, n))[c] == n
    ensures forall d :: d != c ==> multiset(Repeat(c, n))[d] == 0
    decreases n
  {
    if n > 0 {
      assert Repeat(c, n) == Repeat(c, n - 1) + [c];
      RepeatCount(c, n - 1);
    }
  }

  /** The cell writeWidth writes: value padded on the right with spaces. */
  function Padded(width: int, value: string): string
    requires Width(value) <= width
  {
    value + Repeat(' ', width - Width(value))
  }

  /**
   * writeWidth: the value, then width - stringWidth(value) spaces, so the
   * cell is exactly width wide. A negative count would make strings.Repeat
   * panic, hence the first precondition. A cell that needs padding goes
   * through Fprintf as a format string, so it must hold no '%'; a cell of
   * full width goes through Fprint and is written as it is.
   */
  method WriteWidth(width: int, value: string) returns (written: string)
    requires Width(value) <= width
    requires Width(value) < width ==> '%' !in value
    ensures written == Padded(width, value)
    ensures Width(written) == width
  {
    var valueWidth := StringWidth(value);
    var spaces := width - valueWidth;
    if spaces == 0 {
      written := value;
      assert Padded(width, value) == value + [];
    } else {
      written := value + Repeat(' ', spaces);
    }
    WidthAppend(value, Repeat(' ', spaces));
    WidthOfSpaces(spaces);
  }

  /**
   * The part of one line between its two end runes, as the column loops
   * write it: each piece, followed by sep unless it is in the last of the n
   * columns.
   */
  function Cells(pieces: seq<string>, n: int, sep: char): string {
    if |pieces| == 0 then []
    else
      var k := |pieces| - 1;
      Cells(pieces[..k], n, sep) + pieces[k] + (if k < n - 1 then [sep] else [])
  }

  /** One more turn of a column loop adds one piece and, before the last column, a separator. */
  lemma CellsStep(pieces: seq<string>, index: int, n: int, sep: char)
    requires 0 <= index < |pieces|
    ensures Cells(pieces[..index + 1], n, sep) ==
            Cells(pieces[..index], n, sep) + pieces[index] + (if index < n - 1 then [sep] else [])
  {
    assert pieces[..index + 1][..index] == pieces[..index];
  }

  /** The same step for a whole line under construction, opened by left. */
  lemma LineStep(left: char, before: string, pieces: seq<string>, index: int, n: int, sep: char)
    requires 0 <= index < |pieces|
    requires before == [left] + Cells(pieces[..index], n, sep)
    ensures before + pieces[index] + (if index < n - 1 then [sep] else []) ==
            [left] + Cells(pieces[..index + 1], n, sep)
  {
    CellsStep(pieces, index, n, sep);
  }

  /** A line as Table writes it: an end rune, the column pieces, an end rune. */
  function Line(left: char, pieces: seq<string>, n: int, sep: char, right: char): string {
    [left] + Cells(pieces, n, sep) + [right]
  }

  /** The pieces joined by sep, with nothing before the first or after the last. */
  function Join(pieces: seq<string>, sep: char): string {
    if |pieces| == 0 then []
    else if |pieces| == 1 then pieces[0]
    else Join(pieces[..|pieces| - 1], sep) + [sep] + pieces[|pieces| - 1]
  }

  /**
   * With at most n pieces, the column loop joins them with sep and adds one
   * more sep after the last piece exactly when there are fewer than n.
   */
  lemma {:induction false} CellsJoin(pieces: seq<string>, n: int, sep: char)
    requires 0 < |pieces| <= n
    ensures Cells(pieces, n, sep) == Join(pieces, sep) + (if |pieces| < n then [sep] else [])
    decreases |pieces|
  {
    var k := |pieces| - 1;
    if k > 0 {
      CellsJoin(pieces[..k], n, sep);
      assert pieces[..k][..k - 1] == pieces[..k - 1];
      assert Cells(pieces[..k], n, sep) == Join(pieces[..k], sep) + [sep];
    }
  }

  /** The horizontal bars of a border: maxWidths[i] of them for column i. */
  function Bars(widths: seq<int>): seq<string>
    requires forall i :: 0 <= i < |widths| ==> widths[i] >= 0
  {
    seq(|widths|, i requires 0 <= i < |widths| => Repeat(HorizBar, widths[i]))
  }

  /** Each cell fits its column: no more cells than columns, none wider than its column. */
  predicate Fits(widths: seq<int>, cells: seq<string>) {
    |cells| <= |widths| && forall j :: 0 <= j < |cells| ==> Width(cells[j]) <= widths[j]
  }

  /** The padded cells of one row. */
  function Pads(widths: seq<int>, cells: seq<string>): seq<string>
    requires Fits(widths, cells)
  {
    seq(|cells|, j requires 0 <= j < |cells| => Padded(widths[j], cells[j]))
  }

  /** No cell that writeWidth pads (one narrower than its column) holds a '%'. */
  predicate NoVerbs(widths: seq<int>, cells: seq<string>) {
    forall j :: 0 <= j < |cells| && j < |widths| && Width(cells[j]) < widths[j] ==> '%' !in cells[j]
  }

  /**
   * The bars of the border joined by sep: Sum(widths) bars and
   * |widths| - 1 separators.
   */
  lemma {:induction false} JoinedBars(widths: seq<int>, sep: char)
    requires |widths| > 0 && forall i :: 0 <= i < |widths| ==> widths[i] >= 0
    requires sep != HorizBar
    ensures var j := Join(Bars(widths), sep);
      && |j| == Sum(widths) + |widths| - 1
      && multiset(j)[HorizBar] == Sum(widths)
      && multiset(j)[sep] == |widths| - 1
    decreases |widths|
  {
    var k := |widths| - 1;
    var bars := Bars(widths);
    RepeatCount(HorizBar, widths[k]);
    assert bars[k] == Repeat(HorizBar, widths[k]);
    if k == 0 {
      assert Sum(widths) == Sum(widths[..0]) + widths[0];
      assert Join(bars, sep) == bars[0];
    } else {
      var init := Join(bars[..k], sep);
      assert bars[..k] == Bars(widths[..k]);
      JoinedBars(widths[..k], sep);
      var j := init + [sep] + bars[k];
      assert Join(bars, sep) == j;
      assert multiset(j) == multiset(init) + multiset{sep} + multiset(bars[k]);
      assert Sum(widths) == Sum(widths[..k]) + widths[k];
    }
  }

  /**
   * Every border line is a corner, then the bars of each column with one
   * separator between neighbouring columns, then a corner: Sum(widths)
   * bars and |widths| - 1 separators in all.
   */
  lemma BorderShape(left: char, sep: char, right: char, widths: seq<int>)
    requires |widths| > 0 && forall i :: 0 <= i < |widths| ==> widths[i] >= 0
    requires sep != HorizBar && sep != left && sep != right && left != HorizBar && right != HorizBar
    ensures var line := Line(left, Bars(widths), |widths|, sep, right);
      && line == [left] + Join(Bars(widths), sep) + [right]
      && |line| == Sum(widths) + |widths| + 1
      && multiset(line)[HorizBar] == Sum(widths)
      && multiset(line)[sep] == |widths| - 1
  {
    var bars := Bars(widths);
    var j := Join(bars, sep);
    CellsJoin(bars, |widths|, sep);
    JoinedBars(widths, sep);
    assert Line(left, bars, |widths|, sep, right) == [left] + j + [right];
    assert multiset([left] + j + [right]) == multiset{left} + multiset(j) + multiset{right};
  }

  /**
   * The widths loops of Table: column j is as wide as the widest of its
   * header and of the cells that the rows have in column j.
   */
  function ColumnWidth(columns: seq<string>, rows: seq<seq<string>>, j: int): nat
    requires 0 <= j < |columns|
  {
    if |rows| == 0 then Width(columns[j])
    else
      var last := rows[|rows| - 1];
      var prior := ColumnWidth(columns, rows[..|rows| - 1], j);
      if j < |last| && prior < Width(last[j]) then Width(last[j]) else prior
  }

  /** ColumnWidth is the maximum: no header or cell of the column is wider, and one is that wide. */
  lemma {:induction false} ColumnWidthIsMax(columns: seq<string>, rows: seq<seq<string>>, j: int)
    requires 0 <= j < |columns|
    ensures Width(columns[j]) <= ColumnWidth(columns, rows, j)
    ensures forall r :: 0 <= r < |rows| && j < |rows[r]| ==> Width(rows[r][j]) <= ColumnWidth(columns, rows, j)
    ensures ColumnWidth(columns, rows, j) == Width(columns[j]) ||
            exists r :: 0 <= r < |rows| && j < |rows[r]| && ColumnWidth(columns, rows, j) == Width(rows[r][j])
    decreases |rows|
  {
    if |rows| > 0 {
      var k := |rows| - 1;
      ColumnWidthIsMax(columns, rows[..k], j);
      assert forall r :: 0 <= r < k ==> rows[..k][r] == rows[r];
    }
  }

  function ColumnWidths(columns: seq<string>, rows: seq<seq<string>>): seq<nat> {
    seq(|columns|, j requires 0 <= j < |columns| => ColumnWidth(columns, rows, j))
  }

  /** The header and every row fit the column widths. */
  lemma ColumnWidthsFit(columns: seq<string>, rows: seq<seq<string>>)
    requires forall r :: 0 <= r < |rows| ==> |rows[r]| <= |columns|
    ensures Fits(ColumnWidths(columns, rows), columns)
    ensures forall r :: 0 <= r < |rows| ==> Fits(ColumnWidths(columns, rows), rows[r])
  {
    forall j | 0 <= j < |columns| {
      ColumnWidthIsMax(columns, rows, j);
    }
  }

  /** What Table writes for a non-empty column set. */
  function Layout(columns: seq<string>, rows: seq<seq<string>>): seq<string>
    requires forall r :: 0 <= r < |rows| ==> |rows[r]| <= |columns|
  {
    var widths := ColumnWidths(columns, rows);
    var n := |columns|;
    ColumnWidthsFit(columns, rows);
    [Line(TopLeft, Bars(widths), n, TopSep, TopRight),
     Line(VertBar, Pads(widths, columns), n, VertBar, VertBar),
     Line(MidLeft, Bars(widths), n, MidSep, MidRight)]
    + seq(|rows|, r requires 0 <= r < |rows| => Line(VertBar, Pads(widths, rows[r]), n, VertBar, VertBar))
    + [Line(BottomLeft, Bars(widths), n, BottomSep, BottomRight)]
  }

  /** The first loops of Table: maxWidths starts at the header widths and is raised by every wider cell. */
  method MaxWidths(columns: seq<string>, rows: seq<seq<string>>) returns (maxWidths: array<int>)
    requires forall r :: 0 <= r < |rows| ==> |rows[r]| <= |columns|
    ensures maxWidths.Length == |columns|
    ensures maxWidths[..] == ColumnWidths(columns, rows)
  {
    maxWidths := new int[|columns|];
    for index := 0 to |columns|
      invariant forall j :: 0 <= j < index ==> maxWidths[j] == ColumnWidth(columns, [], j)
    {
      maxWidths[index] := StringWidth(columns[index]);
    }
    for r := 0 to |rows|
      invariant forall j :: 0 <= j < |columns| ==> maxWidths[j] == ColumnWidth(columns, rows[..r], j)
    {
      var cols := rows[r];
      assert rows[..r + 1][..r] == rows[..r];
      for index := 0 to |cols|
        invariant forall j :: 0 <= j < |columns| ==>
          maxWidths[j] == if j < index then ColumnWidth(columns, rows[..r + 1], j) else ColumnWidth(columns, rows[..r], j)
      {
        var width := StringWidth(cols[index]);
        if maxWidths[index] < width {
          maxWidths[index] := width;
        }
      }
    }
    assert rows[..|rows|] == rows;
  }

  /** Drawing one border: a corner, maxWidths[i] bars per column, sep between columns, a corner. */
  method DrawBorder(left: char, sep: char, right: char, maxWidths: array<int>) returns (line: string)
    requires forall i :: 0 <= i < maxWidths.Length ==> maxWidths[i] >= 0
    ensures line == Line(left, Bars(maxWidths[..]), maxWidths.Length, sep, right)
  {
    ghost var bars := Bars(maxWidths[..]);
    var n := maxWidths.Length;
    line := [left];
    for index := 0 to n
      invariant line == [left] + Cells(bars[..index], n, sep)
    {
      ghost var before := line;
      line := line + Repeat(HorizBar, maxWidths[index]);
      if index < n - 1 {
        line := line + [sep];
      }
      LineStep(left, before, bars, index, n, sep);
    }
    assert bars[..n] == bars;
    line := line + [right];
  }

  /** Drawing the header or one row: a bar, each padded cell with a bar after all but the last column, a bar. */
  method DrawRow(maxWidths: array<int>, row: seq<string>) returns (line: string)
    requires Fits(maxWidths[..], row) && NoVerbs(maxWidths[..], row)
    ensures line == Line(VertBar, Pads(maxWidths[..], row), maxWidths.Length, VertBar, VertBar)
  {
    ghost var widths := maxWidths[..];
    ghost var pads := Pads(widths, row);
    var n := maxWidths.Length;
    line := [VertBar];
    for index := 0 to |row|
      invariant line == [VertBar] + Cells(pads[..index], n, VertBar)
    {
      assert maxWidths[index] == widths[index] && Width(row[index]) <= widths[index];
      assert pads[index] == Padded(widths[index], row[index]);
      assert Width(row[index]) < maxWidths[index] ==> '%' !in row[index];
      var cell := WriteWidth(maxWidths[index], row[index]);
      ghost var before := line;
      line := line + cell;
      if index < n - 1 {
        line := line + [VertBar];
      }
      LineStep(VertBar, before, pads, index, n, VertBar);
    }
    assert pads[..|row|] == pads;
    line := line + [VertBar];
  }

  /**
   * Table: an empty column set is an error and nothing is written; otherwise
   * the top border, the header, the separator, one line per row and the
   * footer, |rows| + 4 lines in all. A row with more cells than columns would
   * index past maxWidths, and a '%' in a cell narrower than its column
   * would be read as a formatting verb; the preconditions exclude both.
   */
  method Table(columns: seq<string>, rows: seq<seq<string>>) returns (r: Drawn)
    requires forall i :: 0 <= i < |rows| ==> |rows[i]| <= |columns|
    requires NoVerbs(ColumnWidths(columns, rows), columns)
    requires forall i :: 0 <= i < |rows| ==> NoVerbs(ColumnWidths(columns, rows), rows[i])
    ensures r.EmptyColumns? <==> |columns| == 0
    ensures r.Lines? ==> |r.lines| == |rows| + 4 && r.lines == Layout(columns, rows)
  {
    if |columns| == 0 {
      return EmptyColumns;
    }
    var maxWidths := MaxWidths(columns, rows);
    ColumnWidthsFit(columns, rows);
    var lines: seq<string> := [];

    var top := DrawBorder(TopLeft, TopSep, TopRight, maxWidths);
    var header := DrawRow(maxWidths, columns);
    var mid := DrawBorder(MidLeft, MidSep, MidRight, maxWidths);
    lines := [top, header, mid];

    var body: seq<string> := [];
    for i := 0 to |rows|
      invariant maxWidths[..] == ColumnWidths(columns, rows)
      invariant |body| == i
      invariant forall k :: 0 <= k < i ==>
        body[k] == Line(VertBar, Pads(maxWidths[..], rows[k]), |columns|, VertBar, VertBar)
    {
      var line := DrawRow(maxWidths, rows[i]);
      body := body + [line];
    }
    var footer := DrawBorder(BottomLeft, BottomSep, BottomRight, maxWidths);
    lines := lines + body + [footer];
    return Lines(lines);
  }

  /** The line of the header and of each row, as Layout places them. */
  lemma LayoutRowLines(columns: seq<string>, rows: seq<seq<string>>, i: int)
    requires forall r :: 0 <= r < |rows| ==> |rows[r]| <= |columns|
    requires 0 <= i < |rows|
    ensures var widths := ColumnWidths(columns, rows);
      && Fits(widths, columns) && Fits(widths, rows[i])
      && |Layout(columns, rows)| == |rows| + 4
      && Layout(columns, rows)[1] == Line(VertBar, Pads(widths, columns), |columns|, VertBar, VertBar)
      && Layout(columns, rows)[3 + i] == Line(VertBar, Pads(widths, rows[i]), |columns|, VertBar, VertBar)
  {
    ColumnWidthsFit(columns, rows);
  }

  /**
   * A line of cells for every column: a bar, the padded cells joined by
   * bars, a bar, with cell j exactly widths[j] wide.
   */
  lemma FullLine(widths: seq<int>, row: seq<string>)
    requires Fits(widths, row) && |row| == |widths| > 0
    ensures Line(VertBar, Pads(widths, row), |widths|, VertBar, VertBar) ==
            [VertBar] + Join(Pads(widths, row), VertBar) + [VertBar]
    ensures forall j :: 0 <= j < |row| ==> Width(Pads(widths, row)[j]) == widths[j]
  {
    var pads := Pads(widths, row);
    CellsJoin(pads, |widths|, VertBar);
    forall j | 0 <= j < |row|
      ensures Width(pads[j]) == widths[j]
    {
      PaddedWidthIs(widths[j], row[j]);
    }
  }

  /**
   * A row with a cell in every column is laid out like the header: a bar,
   * the padded cells joined by bars, a bar, and cell j is exactly as wide as
   * column j in both.
   */
  lemma FullRowMatchesHeader(columns: seq<string>, rows: seq<seq<string>>, i: int)
    requires forall r :: 0 <= r < |rows| ==> |rows[r]| <= |columns|
    requires 0 <= i < |rows| && |rows[i]| == |columns| > 0
    ensures var widths := ColumnWidths(columns, rows);
      && Fits(widths, columns) && Fits(widths, rows[i])
      && Layout(columns, rows)[1] == [VertBar] + Join(Pads(widths, columns), VertBar) + [VertBar]
      && Layout(columns, rows)[3 + i] == [VertBar] + Join(Pads(widths, rows[i]), VertBar) + [VertBar]
      && forall j :: 0 <= j < |columns| ==>
           Width(Pads(widths, columns)[j]) == Width(Pads(widths, rows[i])[j]) == widths[j]
  {
    var widths := ColumnWidths(columns, rows);
    LayoutRowLines(columns, rows, i);
    FullLine(widths, columns);
    FullLine(widths, rows[i]);
  }

  lemma PaddedWidthIs(width: int, value: string)
    requires Width(value) <= width
    ensures Width(Padded(width, value)) == width
  {
    WidthAppend(value, Repeat(' ', width - Width(value)));
    WidthOfSpaces(width - Width(value));
  }

  /**
   * A row with fewer cells than columns gets a bar after every cell, so its
   * line ends in two bars.
   */
  lemma ShortRowEndsInDoubleBar(columns: seq<string>, rows: seq<seq<string>>, i: int)
    requires forall r :: 0 <= r < |rows| ==> |rows[r]| <= |columns|
    requires 0 <= i < |rows| && |rows[i]| < |columns|
    ensures var line := Layout(columns, rows)[3 + i];
      |line| >= 2 && line[|line| - 2..] == [VertBar, VertBar]
  {
    var widths := ColumnWidths(columns, rows);
    LayoutRowLines(columns, rows, i);
    var pads := Pads(widths, rows[i]);
    if |pads| > 0 {
      CellsJoin(pads, |columns|, VertBar);
    }
  }
}
