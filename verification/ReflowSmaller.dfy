/** Where the rows of a wrapped group break when they become narrower:
    `reflowSmallerGetNewLineLengths` (xterm.js module 4634). */
module ReflowSmaller {
  import opened BL = BufferLine
  import opened RT = ReflowText
  import RL = ReflowLarger

  /** Rows of `cols` cells in which no wide character is cut. */
  ghost predicate Plain(rows: seq<Row>, cols: nat) {
    |rows| > 0 && Sized(rows, cols) && forall i :: 0 <= i < |rows| ==> Whole(rows[i]) && Shown(rows[i])
  }

  lemma LengthPlain(rows: seq<Row>, i: nat, cols: nat)
    requires Plain(rows, cols) && i < |rows|
    ensures var n := Length(rows, i, cols);
            n <= cols && (i + 1 < |rows| ==> cols <= n + 1) && (n > 0 ==> rows[i][n - 1].width != 2)
  {
    assert Whole(rows[i]) && Shown(rows[i]);
    if i == |rows| - 1 {
      var e := TrimmedEnds(rows[i]);
    }
  }

  lemma TextPlain(rows: seq<Row>, i: nat, cols: nat)
    requires Plain(rows, cols) && i < |rows|
    ensures var n := Length(rows, i, cols);
            n <= cols && Text(rows, i + 1, cols) == Text(rows, i, cols) + rows[i][..n]
  {
    LengthPlain(rows, i, cols);
  }

  lemma {:induction false} TextWhole(rows: seq<Row>, n: nat, cols: nat)
    requires Plain(rows, cols) && n <= |rows|
    ensures var t := Text(rows, n, cols); Whole(t) && Shown(t) && (t != [] ==> t[|t| - 1].width != 2)
  {
    if n > 0 {
      var i := n - 1;
      TextWhole(rows, i, cols);
      TextPlain(rows, i, cols);
      LengthPlain(rows, i, cols);
      assert Whole(rows[i]) && Shown(rows[i]);
      PartAdded(Text(rows, i, cols), rows[i], Length(rows, i, cols), Text(rows, i + 1, cols));
      LastOf(Text(rows, i, cols), rows[i], Length(rows, i, cols), Text(rows, i + 1, cols));
    }
  }

  // ---------------------------------------------------------------- where the text breaks

  /** `lengths` break the first `n` cells of the text into rows. */
  ghost predicate Wrapping(text: Row, lengths: seq<nat>, newCols: nat, n: nat) {
    n <= |text| && newCols > 0
    && if lengths == [] then n == 0
       else
         var w := lengths[|lengths| - 1];
         0 < w <= n && w == Width(text, n - w, newCols) && Wrapping(text, lengths[..|lengths| - 1], newCols, n - w)
  }

  lemma WrappingMore(text: Row, lengths: seq<nat>, newCols: nat, n: nat)
    requires Wrapping(text, lengths, newCols, n) && n < |text| && newCols > 1
    ensures var w := Width(text, n, newCols); w > 0 && Wrapping(text, lengths + [w], newCols, n + w)
  {
    var w := Width(text, n, newCols);
    assert (lengths + [w])[..|lengths|] == lengths;
  }

  /** The lengths add up to the text; every row but the last has all columns or all but one. */
  lemma {:induction false} WrappingLengths(text: Row, lengths: seq<nat>, newCols: nat, n: nat)
    requires Wrapping(text, lengths, newCols, n)
    ensures Sum(lengths) == n
    ensures forall k :: 0 <= k < |lengths| ==> 0 < lengths[k] <= newCols
    ensures n < |text| ==> forall k :: 0 <= k < |lengths| ==> newCols <= lengths[k] + 1
    ensures forall k :: 0 <= k < |lengths| - 1 ==> newCols <= lengths[k] + 1
    decreases |lengths|
  {
    if lengths != [] {
      var front := lengths[..|lengths| - 1];
      WrappingLengths(text, front, newCols, n - lengths[|lengths| - 1]);
      assert forall k :: 0 <= k < |front| ==> lengths[k] == front[k];
    }
  }

  /** No break comes between a wide cell and its second half. */
  lemma {:induction false} WrappingKeepsWide(text: Row, lengths: seq<nat>, newCols: nat, n: nat, k: nat)
    requires Wrapping(text, lengths, newCols, n) && Whole(text) && k <= |lengths|
    ensures var pos := Sum(lengths[..k]);
            pos <= n && (0 < pos < |text| ==> text[pos - 1].width != 2)
    decreases |lengths|
  {
    if k == |lengths| {
      assert lengths[..k] == lengths;
      WrappingLengths(text, lengths, newCols, n);
    } else {
      assert lengths[..|lengths| - 1][..k] == lengths[..k];
      WrappingKeepsWide(text, lengths[..|lengths| - 1], newCols, n - lengths[|lengths| - 1], k);
    }
  }

  /** Every row takes as much of the text as fits without parting a wide character. */
  lemma {:induction false} RowsAreLongest(text: Row, lengths: seq<nat>, newCols: nat, n: nat, k: nat)
    requires Wrapping(text, lengths, newCols, n) && Whole(text) && k < |lengths|
    ensures IsLongest(text, Sum(lengths[..k]), newCols, lengths[k])
    decreases |lengths|
  {
    var front, w := lengths[..|lengths| - 1], lengths[|lengths| - 1];
    if k == |front| {
      WrappingLengths(text, front, newCols, n - w);
      WrappingKeepsWide(text, lengths, newCols, n, k);
      WidthIsLongest(text, n - w, newCols);
    } else {
      assert front[..k] == lengths[..k];
      RowsAreLongest(text, front, newCols, n - w, k);
    }
  }

  /** With a single column a wide character leaves no room for anything: the loop would not move on.
      With `MINIMUM_COLS`, which is 2 (module 744), it always does. */
  lemma MovesOn(text: Row, pos: nat, newCols: nat)
    requires pos < |text| && newCols > 0
    ensures Width(text, pos, newCols) > 0 <==> !(newCols == 1 && text[pos].width == 2)
  {
  }

  // ---------------------------------------------------------------- the loop

  /** The positions of the loop: `available` cells of the text end in row `srcLine` at `srcCol`. */
  ghost predicate At(rows: seq<Row>, oldCols: nat, available: nat, srcLine: nat, srcCol: nat) {
    Plain(rows, oldCols) && srcLine < |rows| && srcCol <= Length(rows, srcLine, oldCols)
    && available == |Text(rows, srcLine, oldCols)| + srcCol
  }

  lemma {:induction false} TextLonger(rows: seq<Row>, cols: nat, m: nat, n: nat)
    requires Plain(rows, cols) && m <= n <= |rows|
    ensures Text(rows, m, cols) <= Text(rows, n, cols)
  {
    TextPrefix(rows, m, n, cols);
  }

  /** The cell before a position of the loop. */
  lemma CellBefore(rows: seq<Row>, oldCols: nat, available: nat, srcLine: nat, srcCol: nat)
    requires At(rows, oldCols, available, srcLine, srcCol) && srcCol > 0
    ensures var text := Text(rows, |rows|, oldCols);
            available <= |text| && srcCol <= oldCols && text[available - 1] == rows[srcLine][srcCol - 1]
  {
    TextPlain(rows, srcLine, oldCols);
    TextLonger(rows, oldCols, srcLine + 1, |rows|);
    CellWithin(Text(rows, srcLine, oldCols), rows[srcLine], Length(rows, srcLine, oldCols),
               Text(rows, srcLine + 1, oldCols), Text(rows, |rows|, oldCols), srcCol);
  }

  lemma CellWithin(before: Row, row: Row, n: nat, t: Row, text: Row, col: nat)
    requires n <= |row| && t == before + row[..n] && t <= text && 0 < col <= n
    ensures |before| + col <= |text| && text[|before| + col - 1] == row[col - 1]
  {
  }

  /** `newCols` cells further on, at most one row has been left. */
  lemma Forward(rows: seq<Row>, oldCols: nat, newCols: nat, available: nat, srcLine: nat, srcCol: nat,
                n: nat, end: nat, col: nat)
    requires At(rows, oldCols, available, srcLine, srcCol) && 0 < newCols < oldCols
    requires n == Length(rows, srcLine, oldCols) && end == available + newCols && col == srcCol + newCols
    requires end <= |Text(rows, |rows|, oldCols)|
    ensures if col > n then srcLine + 1 < |rows| && At(rows, oldCols, end, srcLine + 1, col - n)
            else At(rows, oldCols, end, srcLine, col)
  {
    if col > n {
      LengthPlain(rows, srcLine, oldCols);
      TextPlain(rows, srcLine, oldCols);
      if srcLine + 1 < |rows| {
        NextHasRoom(rows, oldCols, srcLine + 1, end, col - n);
      }
    }
  }

  /** Where less than a row is over, it fits into a row that is not the last. */
  lemma NextHasRoom(rows: seq<Row>, oldCols: nat, line: nat, end: nat, col: nat)
    requires Plain(rows, oldCols) && line < |rows| && col < oldCols
    requires end == |Text(rows, line, oldCols)| + col && end <= |Text(rows, |rows|, oldCols)|
    ensures col <= Length(rows, line, oldCols)
  {
    LengthPlain(rows, line, oldCols);
    TextPlain(rows, line, oldCols);
  }

  /** Where the next full row ends, and the cell it ends with. */
  ghost predicate EndsAt(rows: seq<Row>, oldCols: nat, end: nat, text: Row, line: nat, col: nat) {
    0 < end <= |text| && line < |rows| && 0 < col <= |rows[line]|
    && At(rows, oldCols, end, line, col) && At(rows, oldCols, end - 1, line, col - 1)
    && rows[line][col - 1] == text[end - 1]
  }

  lemma EndsInRow(rows: seq<Row>, oldCols: nat, end: nat, text: Row, line: nat, col: nat)
    requires At(rows, oldCols, end, line, col) && col > 0 && text == Text(rows, |rows|, oldCols)
    ensures EndsAt(rows, oldCols, end, text, line, col)
  {
    CellBefore(rows, oldCols, end, line, col);
  }

  lemma RowEnds(rows: seq<Row>, oldCols: nat, newCols: nat, available: nat, text: Row, srcLine: nat, srcCol: nat,
                n: nat, end: nat, line: nat, col: nat)
    requires At(rows, oldCols, available, srcLine, srcCol) && 0 < newCols < oldCols
    requires text == Text(rows, |rows|, oldCols) && available + newCols <= |text|
    requires n == Length(rows, srcLine, oldCols) && end == available + newCols
    requires if srcCol + newCols > n then line == srcLine + 1 && col == srcCol + newCols - n
             else line == srcLine && col == srcCol + newCols
    ensures EndsAt(rows, oldCols, end, text, line, col)
  {
    Forward(rows, oldCols, newCols, available, srcLine, srcCol, n, end, srcCol + newCols);
    EndsInRow(rows, oldCols, end, text, line, col);
  }

  method NewLineLengths(lines: seq<BufferLine>, oldCols: nat, newCols: nat, ghost rows: seq<Row>, ghost text: Row)
    returns (lengths: seq<nat>)
    requires RL.Shows(lines, rows) && Plain(rows, oldCols) && 2 <= newCols < oldCols
    requires text == Text(rows, |rows|, oldCols)
    ensures Wrapping(text, lengths, newCols, |text|)
  {
    var cellsNeeded := CellsNeeded(lines, oldCols, rows);
    lengths := [];
    var srcCol, srcLine, cellsAvailable := 0, 0, 0;
    AtStart(rows, oldCols, newCols, text, cellsAvailable, srcLine, srcCol);
    while cellsAvailable < cellsNeeded
      invariant cellsAvailable <= cellsNeeded == |text|
      invariant Taken(rows, oldCols, newCols, text, lengths, cellsAvailable, srcLine, srcCol)
    {
      var lineLength: nat;
      ghost var n := cellsAvailable;
      lineLength, srcLine, srcCol :=
        NextRow(lines, oldCols, newCols, cellsNeeded, cellsAvailable, srcLine, srcCol, rows, text);
      cellsAvailable := cellsAvailable + lineLength;
      RowTaken(rows, oldCols, newCols, text, lengths, n, lineLength, cellsAvailable, srcLine, srcCol);
      lengths := lengths + [lineLength];
    }
    AllTaken(rows, oldCols, newCols, text, lengths, cellsAvailable, srcLine, srcCol);
  }

  /** Rows have been broken off the front of the text, and the loop stands where the rest begins. */
  ghost predicate Taken(rows: seq<Row>, oldCols: nat, newCols: nat, text: Row, lengths: seq<nat>, n: nat,
                        line: nat, col: nat) {
    Wrapping(text, lengths, newCols, n) && (n < |text| ==> At(rows, oldCols, n, line, col))
  }

  lemma AllTaken(rows: seq<Row>, oldCols: nat, newCols: nat, text: Row, lengths: seq<nat>, n: nat, line: nat, col: nat)
    requires Taken(rows, oldCols, newCols, text, lengths, n, line, col) && n == |text|
    ensures Wrapping(text, lengths, newCols, |text|)
  {
  }

  lemma AtStart(rows: seq<Row>, oldCols: nat, newCols: nat, text: Row, n: nat, line: nat, col: nat)
    requires Plain(rows, oldCols) && newCols > 0 && text == Text(rows, |rows|, oldCols) && n == line == col == 0
    ensures Taken(rows, oldCols, newCols, text, [], n, line, col)
  {
  }

  lemma RowTaken(rows: seq<Row>, oldCols: nat, newCols: nat, text: Row, lengths: seq<nat>, n: nat, w: nat, n': nat,
                 line: nat, col: nat)
    requires Wrapping(text, lengths, newCols, n) && n < |text| && newCols > 1 && w == Width(text, n, newCols)
    requires n' == n + w && (n' < |text| ==> At(rows, oldCols, n', line, col))
    ensures n < n' <= |text| && Taken(rows, oldCols, newCols, text, lengths + [w], n', line, col)
  {
    WrappingMore(text, lengths, newCols, n);
  }

  method CellsNeeded(lines: seq<BufferLine>, oldCols: nat, ghost rows: seq<Row>) returns (n: nat)
    requires RL.Shows(lines, rows) && Plain(rows, oldCols)
    ensures n == |Text(rows, |rows|, oldCols)|
  {
    n := 0;
    for i := 0 to |lines|
      invariant n == |Text(rows, i, oldCols)|
    {
      var length := LineLength(lines, i, oldCols, rows);
      TextPlain(rows, i, oldCols);
      n := n + length;
    }
  }

  /** One row: the rest of the text, or a full one. */
  method NextRow(lines: seq<BufferLine>, oldCols: nat, newCols: nat, needed: nat, available: nat, srcLine: nat,
                 srcCol: nat, ghost rows: seq<Row>, ghost text: Row)
    returns (lineLength: nat, srcLine': nat, srcCol': nat)
    requires RL.Shows(lines, rows) && At(rows, oldCols, available, srcLine, srcCol) && 2 <= newCols < oldCols
    requires text == Text(rows, |rows|, oldCols) && available < needed == |text|
    ensures lineLength == Width(text, available, newCols)
    ensures available + lineLength < |text| ==> At(rows, oldCols, available + lineLength, srcLine', srcCol')
  {
    if needed - available < newCols {
      lineLength, srcLine', srcCol' := needed - available, srcLine, srcCol;
    } else {
      lineLength, srcLine', srcCol' := FullRow(lines, oldCols, newCols, available, srcLine, srcCol, rows, text);
    }
  }

  method FullRow(lines: seq<BufferLine>, oldCols: nat, newCols: nat, ghost available: nat, srcLine: nat, srcCol: nat,
                 ghost rows: seq<Row>, ghost text: Row)
    returns (lineLength: nat, srcLine': nat, srcCol': nat)
    requires RL.Shows(lines, rows) && At(rows, oldCols, available, srcLine, srcCol) && 2 <= newCols < oldCols
    requires text == Text(rows, |rows|, oldCols) && available + newCols <= |text|
    ensures lineLength == Width(text, available, newCols)
    ensures At(rows, oldCols, available + lineLength, srcLine', srcCol')
  {
    srcLine', srcCol' := RowEnd(lines, oldCols, newCols, available, srcLine, srcCol, rows, text);
    var endsWithWide := EndsWide(lines, oldCols, newCols, available, srcLine', srcCol', rows, text);
    if endsWithWide {
      srcCol' := srcCol' - 1;
    }
    lineLength := if endsWithWide then newCols - 1 else newCols;
  }

  method RowEnd(lines: seq<BufferLine>, oldCols: nat, newCols: nat, ghost available: nat, srcLine: nat, srcCol: nat,
                ghost rows: seq<Row>, ghost text: Row)
    returns (srcLine': nat, srcCol': nat)
    requires RL.Shows(lines, rows) && At(rows, oldCols, available, srcLine, srcCol) && 0 < newCols < oldCols
    requires text == Text(rows, |rows|, oldCols) && available + newCols <= |text|
    ensures EndsAt(rows, oldCols, available + newCols, text, srcLine', srcCol')
  {
    srcLine', srcCol' := MoveOn(lines, oldCols, newCols, srcLine, srcCol, rows);
    RowEnds(rows, oldCols, newCols, available, text, srcLine, srcCol, Length(rows, srcLine, oldCols),
            available + newCols, srcLine', srcCol');
  }

  /** `newCols` cells on, or into the next row by what is over. */
  method MoveOn(lines: seq<BufferLine>, oldCols: nat, newCols: nat, srcLine: nat, srcCol: nat, ghost rows: seq<Row>)
    returns (srcLine': nat, srcCol': nat)
    requires RL.Shows(lines, rows) && Plain(rows, oldCols) && srcLine < |rows|
    ensures var n := Length(rows, srcLine, oldCols);
            if srcCol + newCols > n then srcLine' == srcLine + 1 && srcCol' == srcCol + newCols - n
            else srcLine' == srcLine && srcCol' == srcCol + newCols
  {
    srcLine', srcCol' := srcLine, srcCol + newCols;
    var oldTrimmedLength := LineLength(lines, srcLine', oldCols, rows);
    if srcCol' > oldTrimmedLength {
      srcCol' := srcCol' - oldTrimmedLength;
      srcLine' := srcLine' + 1;
    }
  }

  method LineLength(lines: seq<BufferLine>, i: nat, oldCols: nat, ghost rows: seq<Row>) returns (n: nat)
    requires RL.Shows(lines, rows) && Plain(rows, oldCols) && i < |rows|
    ensures n == Length(rows, i, oldCols)
  {
    assert |rows[i]| == oldCols && (i + 1 < |rows| ==> |rows[i + 1]| == oldCols);
    n := RL.WrappedLength(lines, i, oldCols, rows);
  }

  method EndsWide(lines: seq<BufferLine>, oldCols: nat, newCols: nat, ghost available: nat, line: nat, col: nat,
                  ghost rows: seq<Row>, ghost text: Row) returns (wide: bool)
    requires RL.Shows(lines, rows) && newCols > 0 && EndsAt(rows, oldCols, available + newCols, text, line, col)
    ensures Width(text, available, newCols) == if wide then newCols - 1 else newCols
    ensures At(rows, oldCols, available + Width(text, available, newCols), line, if wide then col - 1 else col)
  {
    assert lines[line].data[..] == rows[line];
    wide := lines[line].data[col - 1].width == 2;
  }
}
