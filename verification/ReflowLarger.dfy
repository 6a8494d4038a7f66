/** Rewrapping a buffer to wider rows (xterm.js module 4634): the cells are moved within the rows
    there are, rows that are left over are removed, and the markers are told. */
module ReflowLarger {
  import opened BL = BufferLine
  import CL = CircularList
  import opened RT = ReflowText
  import opened Layout = ReflowLayout

  ghost predicate Apart(lines: seq<BufferLine>) {
    forall i, j :: 0 <= i < j < |lines| ==> lines[i].data != lines[j].data
  }

  ghost function Cells(lines: seq<BufferLine>): set<object> {
    set i | 0 <= i < |lines| :: lines[i].data
  }

  ghost predicate Shows(lines: seq<BufferLine>, rows: seq<Row>)
    reads Cells(lines)
  {
    |lines| == |rows| && forall i :: 0 <= i < |lines| ==> lines[i].data[..] == rows[i]
  }

  ghost predicate Flags(lines: seq<BufferLine>, wrapped: seq<bool>)
    reads set i | 0 <= i < |lines| :: lines[i]
  {
    |lines| == |wrapped| && forall i :: 0 <= i < |lines| ==> lines[i].isWrapped == wrapped[i]
  }

  /** `getWrappedLineTrimmedLength(lines, i, cols)`. */
  method WrappedLength(lines: seq<BufferLine>, i: nat, cols: nat, ghost rows: seq<Row>) returns (n: nat)
    requires Shows(lines, rows) && i < |rows| && 0 < cols <= |rows[i]| && (i + 1 < |rows| ==> |rows[i + 1]| > 0)
    ensures n == Length(rows, i, cols)
  {
    assert lines[i].data[..] == rows[i];
    if i == |lines| - 1 {
      n := lines[i].GetTrimmedLength();
    } else {
      assert lines[i + 1].data[..] == rows[i + 1];
      var endsInNull := lines[i].data[cols - 1].content == 0 && lines[i].data[cols - 1].width == 1;
      var followingLineStartsWithWide := lines[i + 1].data[0].width == 2;
      n := if endsInNull && followingLineStartsWithWide then cols - 1 else cols;
    }
  }

  /** One wrapped group of rows. */
  method ReflowGroup(lines: seq<BufferLine>, oldCols: nat, newCols: nat, nullCell: Cell, ghost before: seq<Row>)
    returns (countToRemove: nat, ghost rows: seq<Row>, ghost widths: seq<nat>)
    requires Apart(lines) && Shows(lines, before) && Group(before, oldCols, newCols) && IsEmpty(nullCell)
    modifies Cells(lines)
    ensures Shows(lines, rows) && Rewrapped(before, oldCols, newCols, rows, widths)
    ensures LeftOver(rows, widths, countToRemove)
  {
    var destLine, destCol;
    ghost var k;
    destLine, destCol, k := CopyAll(lines, oldCols, newCols, nullCell, before);
    Finishes(before, oldCols, newCols, k, nullCell);
    rows, widths := k.rows[destLine := Replaced(k.rows[destLine], destCol, newCols, nullCell)], k.widths + [destCol];
    BlankEnd(lines, destLine, destCol, newCols, nullCell, k.rows);
    countToRemove := CountEmpty(lines, destLine, rows);
  }

  /** The copying loop. */
  method CopyAll(lines: seq<BufferLine>, oldCols: nat, newCols: nat, nullCell: Cell, ghost before: seq<Row>)
    returns (destLine: nat, destCol: nat, ghost k: Copying)
    requires Apart(lines) && Shows(lines, before) && Group(before, oldCols, newCols) && IsEmpty(nullCell)
    modifies Cells(lines)
    ensures AtHead(before, oldCols, newCols, k) && k.src == |before| && Shows(lines, k.rows)
    ensures destLine == |k.widths| && destCol == k.col
  {
    var srcLine, srcCol := 1, 0;
    destLine := 0;
    destCol := WrappedLength(lines, 0, oldCols, before);
    k := Start(before, oldCols);
    StartKeeps(before, oldCols, newCols);
    while srcLine < |lines|
      invariant AtHead(before, oldCols, newCols, k) && Shows(lines, k.rows)
      invariant destLine == |k.widths| && destCol == k.col && srcLine == k.src && srcCol == k.srcCol
      decreases |lines| - srcLine, if srcLine < |lines| then Length(before, srcLine, oldCols) - srcCol else 0
    {
      destLine, destCol, srcLine, srcCol, k :=
        CopyTurn(lines, oldCols, newCols, nullCell, destLine, destCol, srcLine, srcCol, before, k);
    }
  }

  method BlankEnd(lines: seq<BufferLine>, line: nat, col: nat, newCols: nat, nullCell: Cell, ghost rows: seq<Row>)
    requires Apart(lines) && Shows(lines, rows) && line < |lines|
    modifies Cells(lines)
    ensures Shows(lines, rows[line := Replaced(rows[line], col, newCols, nullCell)])
  {
    assert lines[line].data[..] == rows[line];
    lines[line].ReplaceCells(col, newCols, nullCell);
  }

  method CountEmpty(lines: seq<BufferLine>, destLine: nat, ghost rows: seq<Row>) returns (count: nat)
    requires Shows(lines, rows) && destLine < |lines|
    ensures count < |rows| && |rows| - count <= destLine + 1
    ensures forall i :: |rows| - count <= i <= destLine ==> Trimmed(rows[i]) == 0
    ensures |rows| - count > 1 ==> Trimmed(rows[|rows| - count - 1]) != 0
  {
    count := 0;
    var i := |lines| - 1;
    var more := true;
    while i > 0 && more
      invariant 0 <= i < |lines| && count == |lines| - 1 - i
      invariant forall j :: i < j <= destLine ==> Trimmed(rows[j]) == 0
      invariant !more ==> i <= destLine && Trimmed(rows[i]) != 0
      decreases i, more
    {
      assert lines[i].data[..] == rows[i];
      var trimmed := lines[i].GetTrimmedLength();
      if i > destLine || trimmed == 0 {
        count := count + 1;
        i := i - 1;
      } else {
        more := false;
      }
    }
  }

  /** One turn of the copying loop. */
  method CopyTurn(lines: seq<BufferLine>, oldCols: nat, newCols: nat, nullCell: Cell, destLine: nat, destCol: nat,
                  srcLine: nat, srcCol: nat, ghost before: seq<Row>, ghost k: Copying)
    returns (destLine': nat, destCol': nat, srcLine': nat, srcCol': nat, ghost k': Copying)
    requires Apart(lines) && Shows(lines, k.rows) && IsEmpty(nullCell)
    requires AtHead(before, oldCols, newCols, k) && srcLine < |lines|
    requires destLine == |k.widths| && destCol == k.col && srcLine == k.src && srcCol == k.srcCol
    modifies Cells(lines)
    ensures AtHead(before, oldCols, newCols, k') && Shows(lines, k'.rows)
    ensures destLine' == |k'.widths| && destCol' == k'.col && srcLine' == k'.src && srcCol' == k'.srcCol
    ensures srcLine' > srcLine || (srcLine' == srcLine && srcCol' > srcCol)
  {
    var srcTrimmed, cellsToCopy := Measure(lines, oldCols, newCols, destLine, destCol, srcLine, srcCol, before, k);
    ghost var k1;
    k1, k' := WholeTurn(before, oldCols, newCols, k, srcTrimmed, cellsToCopy, nullCell);
    destLine', destCol', srcLine', srcCol' :=
      Transfer(lines, newCols, nullCell, destLine, destCol, srcLine, srcCol, cellsToCopy, srcTrimmed, k, k1, k');
  }

  /** Copies the cells and moves the positions on. */
  method Transfer(lines: seq<BufferLine>, newCols: nat, nullCell: Cell, destLine: nat, destCol: nat,
                  srcLine: nat, srcCol: nat, n: nat, srcTrimmed: nat,
                  ghost k: Copying, ghost k1: Copying, ghost k2: Copying)
    returns (destLine': nat, destCol': nat, srcLine': nat, srcCol': nat)
    requires Apart(lines) && Shows(lines, k.rows) && Sized(k.rows, newCols)
    requires destLine == |k.widths| < |lines| && destCol == k.col && srcLine == k.src < |lines| && srcCol == k.srcCol
    requires destCol + n <= newCols && srcCol + n <= srcTrimmed <= newCols
    requires destLine == srcLine ==> destCol <= srcCol
    requires IsTurn(k, n, srcTrimmed, newCols, nullCell, k1, k2) && Settled(k1, newCols)
    modifies Cells(lines)
    ensures Shows(lines, k2.rows)
    ensures destLine' == |k2.widths| && destCol' == k2.col && srcLine' == k2.src && srcCol' == k2.srcCol
    ensures srcLine' == if srcCol + n == srcTrimmed then srcLine + 1 else srcLine
    ensures srcLine' == srcLine ==> srcCol' == srcCol + n
  {
    CopyRow(lines, destLine, srcLine, srcCol, destCol, n, k.rows);
    destLine', destCol', srcLine', srcCol' := destLine, destCol + n, srcLine, srcCol;
    if destCol' == newCols {
      destLine', destCol' := destLine + 1, 0;
    }
    TurnSettles(k, n, srcTrimmed, newCols, nullCell, k1, k2, destLine', destCol');
    srcCol' := srcCol + n;
    if srcCol' == srcTrimmed {
      srcLine', srcCol' := srcLine + 1, 0;
    }
    if destCol' == 0 && destLine' != 0 {
      destCol' := MoveWide(lines, destLine', newCols, nullCell, k1.rows);
    }
  }

  method Measure(lines: seq<BufferLine>, oldCols: nat, newCols: nat, destLine: nat, destCol: nat,
                 srcLine: nat, srcCol: nat, ghost before: seq<Row>, ghost k: Copying)
    returns (srcTrimmed: nat, cellsToCopy: nat)
    requires Shows(lines, k.rows) && AtHead(before, oldCols, newCols, k) && srcLine < |lines|
    requires destLine == |k.widths| && destCol == k.col && srcLine == k.src && srcCol == k.srcCol
    ensures srcTrimmed == Length(before, srcLine, oldCols) <= oldCols && srcCol <= srcTrimmed
    ensures cellsToCopy == Min(srcTrimmed - srcCol, newCols - destCol)
    ensures destLine == srcLine ==> destCol <= srcCol
  {
    LiveLength(before, oldCols, newCols, k);
    srcTrimmed := WrappedLength(lines, srcLine, oldCols, k.rows);
    var srcRemaining := srcTrimmed - srcCol;
    var destRemaining := newCols - destCol;
    cellsToCopy := if srcRemaining < destRemaining then srcRemaining else destRemaining;
    if destLine == srcLine {
      WritesBehind(before, oldCols, newCols, k);
    }
  }

  method CopyRow(lines: seq<BufferLine>, destLine: nat, srcLine: nat, srcCol: nat, destCol: nat, n: nat,
                 ghost rows: seq<Row>)
    requires Apart(lines) && Shows(lines, rows) && destLine < |lines| && srcLine < |lines|
    requires srcCol + n <= |rows[srcLine]| && destCol + n <= |rows[destLine]|
    requires destLine == srcLine ==> destCol <= srcCol
    modifies Cells(lines)
    ensures Shows(lines, rows[destLine := Copied(rows[destLine], rows[srcLine], srcCol, destCol, n)])
  {
    assert lines[srcLine].data[..] == rows[srcLine] && lines[destLine].data[..] == rows[destLine];
    lines[destLine].CopyCellsFrom(lines[srcLine], srcCol, destCol, n, false);
  }

  method SetCell(lines: seq<BufferLine>, line: nat, col: nat, cell: Cell, ghost rows: seq<Row>)
    requires Apart(lines) && Shows(lines, rows) && line < |lines| && col < |rows[line]|
    modifies Cells(lines)
    ensures Shows(lines, rows[line := rows[line][col := cell]])
  {
    assert lines[line].data[..] == rows[line];
    lines[line].data[col] := cell;
  }

  /** A wide cell in the last column of the row above goes to the front of this one. */
  method MoveWide(lines: seq<BufferLine>, destLine: nat, newCols: nat, nullCell: Cell, ghost rows: seq<Row>)
    returns (destCol: nat)
    requires Apart(lines) && Shows(lines, rows) && Sized(rows, newCols) && 0 < destLine < |lines|
    modifies Cells(lines)
    ensures Shows(lines, MovedWide(rows, destLine - 1, newCols, nullCell))
    ensures destCol == if rows[destLine - 1][newCols - 1].width == 2 then 1 else 0
  {
    ghost var d := destLine - 1;
    assert lines[d].data[..] == rows[d];
    destCol := 0;
    if lines[destLine - 1].data[newCols - 1].width == 2 {
      ghost var last := rows[d][newCols - 1];
      CopyRow(lines, destLine, destLine - 1, newCols - 1, 0, 1, rows);
      assert Copied(rows[d + 1], rows[d], newCols - 1, 0, 1) == rows[d + 1][0 := last];
      destCol := 1;
      SetCell(lines, destLine - 1, newCols - 1, nullCell, rows[d + 1 := rows[d + 1][0 := last]]);
    }
  }

  // ---------------------------------------------------------------- the whole buffer

  datatype Setting = Setting(oldCols: nat, newCols: nat, cursor: nat)

  /** A logical line, from row `first` on: its rows before and after, how its text lies afterwards
      (nothing for a line that is left as it is) and how many rows are left over. */
  datatype Piece = Piece(setting: Setting, first: nat, was: seq<Row>, now: seq<Row>, widths: seq<nat>, count: nat)

  /** A line of one row and the line with the cursor stay; any other is rewrapped. */
  ghost predicate Done(p: Piece) {
    p.count <= |p.now| == |p.was|
    && if |p.was| == 1 || p.first <= p.setting.cursor < End(p) then p.now == p.was && p.widths == [] && p.count == 0
       else Rewrapped(p.was, p.setting.oldCols, p.setting.newCols, p.now, p.widths)
            && LeftOver(p.now, p.widths, p.count)
  }

  ghost predicate AllDone(pieces: seq<Piece>) {
    forall p :: p in pieces ==> Done(p)
  }

  function End(p: Piece): nat { p.first + |p.was| }

  /** All rows after the first continue the row before, and the row after them does not. */
  ghost predicate IsLogicalLine(wrapped: seq<bool>, first: nat, end: nat) {
    first < end <= |wrapped|
    && (forall i :: first < i < end ==> wrapped[i])
    && (end < |wrapped| ==> !wrapped[end])
  }

  /** The pieces are the logical lines of the first `n` rows, one after the other. */
  ghost predicate Pieces(wrapped: seq<bool>, setting: Setting, pieces: seq<Piece>, n: nat) {
    if pieces == [] then n == 0
    else
      var p := pieces[|pieces| - 1];
      End(p) == n && p.count < |p.now| == |p.was| && p.setting == setting && IsLogicalLine(wrapped, p.first, n)
      && Pieces(wrapped, setting, pieces[..|pieces| - 1], p.first)
  }

  ghost function Was(pieces: seq<Piece>): seq<Row> {
    if pieces == [] then [] else Was(pieces[..|pieces| - 1]) + pieces[|pieces| - 1].was
  }

  ghost function Now(pieces: seq<Piece>): seq<Row> {
    if pieces == [] then [] else Now(pieces[..|pieces| - 1]) + pieces[|pieces| - 1].now
  }

  /** The removals that the left-over rows ask for. */
  ghost function Removals(pieces: seq<Piece>): seq<Removal> {
    if pieces == [] then []
    else
      var p := pieces[|pieces| - 1];
      Removals(pieces[..|pieces| - 1]) + if 0 < p.count <= End(p) then [Removal(End(p) - p.count, p.count)] else []
  }

  ghost predicate AllFit(rows: seq<Row>, oldCols: nat, newCols: nat) {
    0 < oldCols < newCols && forall i :: 0 <= i < |rows| ==> Fits(rows[i], oldCols, newCols)
  }

  /** The first `y` rows have been dealt with, as logical lines. */
  ghost predicate Walked(wrapped: seq<bool>, before: seq<Row>, setting: Setting, pieces: seq<Piece>, y: nat,
                         toRemove: seq<Removal>) {
    y <= |before| == |wrapped| && Pieces(wrapped, setting, pieces, y) && AllDone(pieces)
    && before[..y] == Was(pieces) && |Now(pieces)| == y && toRemove == Removals(pieces)
  }

  /** `reflowLargerGetLinesToRemove(lines, oldCols, newCols, cursor, nullCell)`. */
  method GetLinesToRemove(lines: seq<BufferLine>, oldCols: nat, newCols: nat, cursor: nat, nullCell: Cell,
                          ghost before: seq<Row>, ghost wrapped: seq<bool>)
    returns (toRemove: seq<Removal>, ghost pieces: seq<Piece>)
    requires Apart(lines) && Shows(lines, before) && IsEmpty(nullCell)
    requires AllFit(before, oldCols, newCols)
    requires Flags(lines, wrapped)
    modifies Cells(lines)
    ensures Walked(wrapped, before, Setting(oldCols, newCols, cursor), pieces, |lines|, toRemove)
    ensures before == Was(pieces) && Shows(lines, Now(pieces))
  {
    ghost var setting := Setting(oldCols, newCols, cursor);
    ghost var rows := before;
    toRemove, pieces := [], [];
    var y := 0;
    WalkStart(wrapped, before, setting);
    while y < |lines| - 1
      invariant Walked(wrapped, before, setting, pieces, y, toRemove)
      invariant rows == Now(pieces) + before[y..] && Shows(lines, rows) && Flags(lines, wrapped)
    {
      y, toRemove, pieces, rows :=
        WalkLine(lines, oldCols, newCols, cursor, nullCell, y, toRemove, before, wrapped, pieces, rows);
    }
    pieces := LastPiece(wrapped, before, setting, pieces, y, toRemove);
  }

  lemma WalkStart(wrapped: seq<bool>, before: seq<Row>, setting: Setting)
    requires |before| == |wrapped|
    ensures Walked(wrapped, before, setting, [], 0, []) && before == Now([]) + before[0..]
  {
  }

  method WalkLine(lines: seq<BufferLine>, oldCols: nat, newCols: nat, cursor: nat, nullCell: Cell, y: nat,
                  toRemove: seq<Removal>, ghost before: seq<Row>, ghost wrapped: seq<bool>, ghost pieces: seq<Piece>,
                  ghost rows: seq<Row>)
    returns (end: nat, toRemove': seq<Removal>, ghost pieces': seq<Piece>, ghost rows': seq<Row>)
    requires y + 1 < |lines| && Flags(lines, wrapped)
    requires Walked(wrapped, before, Setting(oldCols, newCols, cursor), pieces, y, toRemove)
    requires rows == Now(pieces) + before[y..]
    requires Apart(lines) && Shows(lines, rows) && IsEmpty(nullCell) && AllFit(before, oldCols, newCols)
    modifies Cells(lines)
    ensures y < end && Walked(wrapped, before, Setting(oldCols, newCols, cursor), pieces', end, toRemove')
    ensures rows' == Now(pieces') + before[end..] && Shows(lines, rows') && Flags(lines, wrapped)
  {
    var countToRemove;
    ghost var piece: Piece;
    end, countToRemove, piece :=
      LogicalLine(lines, oldCols, newCols, cursor, nullCell, y, before, Now(pieces), wrapped);
    toRemove' := if countToRemove > 0 then toRemove + [Removal(end - countToRemove, countToRemove)] else toRemove;
    AddPiece(wrapped, before, Setting(oldCols, newCols, cursor), pieces, piece, y, end, toRemove, toRemove');
    pieces' := pieces + [piece];
    rows' := Now(pieces) + piece.now + before[end..];
  }

  lemma AddPiece(wrapped: seq<bool>, before: seq<Row>, setting: Setting, pieces: seq<Piece>, piece: Piece,
                 y: nat, end: nat, toRemove: seq<Removal>, toRemove': seq<Removal>)
    requires Walked(wrapped, before, setting, pieces, y, toRemove)
    requires y <= end <= |before| && piece.first == y && piece.was == before[y..end] && |piece.now| == end - y
    requires IsLogicalLine(wrapped, y, end) && piece.setting == setting && Done(piece) && piece.count < |piece.now|
    requires toRemove' == if piece.count > 0 then toRemove + [Removal(end - piece.count, piece.count)] else toRemove
    ensures Walked(wrapped, before, setting, pieces + [piece], end, toRemove')
    ensures Now(pieces + [piece]) == Now(pieces) + piece.now
  {
    assert (pieces + [piece])[..|pieces|] == pieces;
    WasMore(pieces, piece);
    NowMore(pieces, piece);
    AddDone(pieces, piece);
    assert before[..end] == before[..y] + before[y..end];
  }

  lemma AddDone(pieces: seq<Piece>, piece: Piece)
    requires AllDone(pieces) && Done(piece)
    ensures AllDone(pieces + [piece])
  {
  }

  lemma WasMore(pieces: seq<Piece>, piece: Piece)
    ensures Was(pieces + [piece]) == Was(pieces) + piece.was
  {
    assert (pieces + [piece])[..|pieces|] == pieces;
  }

  lemma NowMore(pieces: seq<Piece>, piece: Piece)
    ensures Now(pieces + [piece]) == Now(pieces) + piece.now
  {
    assert (pieces + [piece])[..|pieces|] == pieces;
  }

  /** The last row, when it is a logical line of its own, stays. */
  lemma LastPiece(wrapped: seq<bool>, before: seq<Row>, setting: Setting, pieces: seq<Piece>, y: nat,
                  toRemove: seq<Removal>) returns (all: seq<Piece>)
    requires Walked(wrapped, before, setting, pieces, y, toRemove) && |before| - 1 <= y
    ensures Walked(wrapped, before, setting, all, |before|, toRemove)
    ensures Now(all) == Now(pieces) + before[y..] && before == Was(all)
  {
    all := pieces;
    if y < |before| {
      var piece := Piece(setting, y, before[y..], before[y..], [], 0);
      assert before[y..] == before[y..y + 1];
      AddPiece(wrapped, before, setting, pieces, piece, y, y + 1, toRemove, toRemove);
      all := pieces + [piece];
    }
    assert before[..|before|] == before;
    assert Now(pieces) + [] == Now(pieces);
  }

  /** The logical line that begins at row `y`. */
  method LogicalLine(lines: seq<BufferLine>, oldCols: nat, newCols: nat, cursor: nat, nullCell: Cell, y: nat,
                     ghost before: seq<Row>, ghost above: seq<Row>, ghost wrapped: seq<bool>)
    returns (end: nat, countToRemove: nat, ghost piece: Piece)
    requires y + 1 < |lines| == |before| && |above| == y
    requires Apart(lines) && Shows(lines, above + before[y..]) && IsEmpty(nullCell)
    requires AllFit(before, oldCols, newCols)
    requires Flags(lines, wrapped)
    modifies Cells(lines)
    ensures y < end <= |lines| && IsLogicalLine(wrapped, y, end)
    ensures piece.setting == Setting(oldCols, newCols, cursor) && piece.first == y && piece.was == before[y..end]
    ensures Done(piece) && piece.count == countToRemove < |piece.now| == end - y
    ensures Shows(lines, above + piece.now + before[end..]) && Flags(lines, wrapped)
  {
    end := y + 1;
    while end < |lines| && lines[end].isWrapped
      invariant y < end <= |lines| && forall j :: y < j < end ==> wrapped[j]
    {
      end := end + 1;
    }
    ghost var setting, was := Setting(oldCols, newCols, cursor), before[y..end];
    if end == y + 1 || y <= cursor < end {
      countToRemove, piece := 0, Piece(setting, y, was, was, [], 0);
      assert above + was + before[end..] == above + before[y..];
    } else {
      ghost var rows, widths;
      countToRemove, rows, widths := ReflowPiece(lines, oldCols, newCols, nullCell, y, end, before, above, was);
      piece := Piece(setting, y, was, rows, widths, countToRemove);
    }
  }

  method ReflowPiece(lines: seq<BufferLine>, oldCols: nat, newCols: nat, nullCell: Cell, y: nat, end: nat,
                     ghost before: seq<Row>, ghost above: seq<Row>, ghost was: seq<Row>)
    returns (countToRemove: nat, ghost rows: seq<Row>, ghost widths: seq<nat>)
    requires y < end <= |lines| == |before| && |above| == y && was == before[y..end]
    requires Apart(lines) && Shows(lines, above + before[y..]) && IsEmpty(nullCell)
    requires AllFit(before, oldCols, newCols)
    modifies Cells(lines)
    ensures Rewrapped(was, oldCols, newCols, rows, widths) && LeftOver(rows, widths, countToRemove)
    ensures |rows| == end - y && Shows(lines, above + rows + before[end..])
  {
    var wrappedLines := lines[y..end];
    SliceShows(lines, y, end, above, before, was);
    Outside(lines, y, end);
    assert forall i :: 0 <= i < y ==> lines[i].data[..] == above[i];
    assert forall i :: end <= i < |lines| ==> lines[i].data[..] == (above + before[y..])[i];
    countToRemove, rows, widths := ReflowGroup(wrappedLines, oldCols, newCols, nullCell, was);
    Reassembled(lines, y, end, above, before, rows);
  }

  lemma Outside(lines: seq<BufferLine>, y: nat, end: nat)
    requires y <= end <= |lines| && Apart(lines)
    ensures forall i :: 0 <= i < y || end <= i < |lines| ==> lines[i].data !in Cells(lines[y..end])
  {
  }

  lemma Reassembled(lines: seq<BufferLine>, y: nat, end: nat, above: seq<Row>, before: seq<Row>, rows: seq<Row>)
    requires y < end <= |lines| == |before| && |above| == y && |rows| == end - y
    requires Shows(lines[y..end], rows)
    requires forall i :: 0 <= i < y ==> lines[i].data[..] == above[i]
    requires forall i :: end <= i < |lines| ==> lines[i].data[..] == (above + before[y..])[i]
    ensures Shows(lines, above + rows + before[end..])
  {
    forall i | y <= i < end ensures lines[i].data[..] == (above + rows + before[end..])[i] {
      assert lines[y..end][i - y] == lines[i];
    }
    forall i | end <= i < |lines| ensures lines[i].data[..] == (above + rows + before[end..])[i] {
      assert (above + before[y..])[i] == before[i];
    }
  }

  lemma SliceShows(lines: seq<BufferLine>, y: nat, end: nat, above: seq<Row>, before: seq<Row>, was: seq<Row>)
    requires y < end <= |lines| == |before| && |above| == y && was == before[y..end]
    requires Shows(lines, above + before[y..])
    ensures Shows(lines[y..end], was)
  {
    forall i | 0 <= i < end - y ensures lines[y..end][i].data[..] == was[i] {
      assert lines[y + i].data[..] == (above + before[y..])[y + i];
    }
  }

  // ---------------------------------------------------------------- the list of lines

  /** The rows that stay. */
  ghost function Remaining(pieces: seq<Piece>): seq<Row> {
    if pieces == [] then []
    else
      var p := pieces[|pieces| - 1];
      Remaining(pieces[..|pieces| - 1]) + if p.count <= |p.now| then p.now[..|p.now| - p.count] else []
  }

  lemma {:induction false} RemovalsOrdered(wrapped: seq<bool>, setting: Setting, pieces: seq<Piece>, n: nat)
    requires Pieces(wrapped, setting, pieces, n)
    ensures Ordered(Removals(pieces), n) && |Now(pieces)| == n
    decreases |pieces|
  {
    if pieces != [] {
      var p, front := pieces[|pieces| - 1], pieces[..|pieces| - 1];
      RemovalsOrdered(wrapped, setting, front, p.first);
    }
  }

  /** Taking out the left-over rows leaves what remains of each logical line. */
  lemma {:induction false} KeptRemains(wrapped: seq<bool>, setting: Setting, pieces: seq<Piece>, n: nat, rows: seq<Row>)
    requires Pieces(wrapped, setting, pieces, n) && Now(pieces) <= rows
    ensures |Now(pieces)| == n && Select(rows, Kept(Removals(pieces), n)) == Remaining(pieces)
    decreases |pieces|
  {
    if pieces != [] {
      var p, front := pieces[|pieces| - 1], pieces[..|pieces| - 1];
      RemovalsOrdered(wrapped, setting, front, p.first);
      PrefixParts(rows, Now(front), p.now);
      KeptRemains(wrapped, setting, front, p.first, rows);
      PieceRemains(rows, Removals(front), p, n, Removals(pieces), Remaining(front), Remaining(pieces));
    }
  }

  lemma PieceRemains(rows: seq<Row>, above: seq<Removal>, p: Piece, n: nat, removals: seq<Removal>,
                     remaining: seq<Row>, remaining': seq<Row>)
    requires p.count < |p.now| == |p.was| && End(p) == n <= |rows| && rows[p.first..n] == p.now
    requires Ordered(above, p.first) && remaining == Select(rows, Kept(above, p.first))
    requires removals == above + if 0 < p.count <= n then [Removal(n - p.count, p.count)] else []
    requires remaining' == remaining + p.now[..|p.now| - p.count]
    ensures Select(rows, Kept(removals, n)) == remaining'
  {
    var stays := n - p.count;
    var more := if stays < n then [Removal(stays, n - stays)] else [];
    KeptPiece(rows, above, more, p.first, stays, n);
    assert rows[p.first..stays] == rows[p.first..n][..|p.now| - p.count];
  }

  lemma PrefixParts(rows: seq<Row>, a: seq<Row>, b: seq<Row>)
    requires a + b <= rows
    ensures a <= rows && |a| + |b| <= |rows| && rows[|a|..|a| + |b|] == b
  {
    assert rows[..|a| + |b|] == a + b;
    assert rows[|a|..|a| + |b|] == rows[..|a| + |b|][|a|..];
  }

  /** `Buffer._reflowLarger` (module 9092) without the cursor and the viewport. `lines`, `before` and
      `wrapped` are the rows, their cells and their flags. */
  method Reflow(list: CL.CircularList<BufferLine?>, oldCols: nat, newCols: nat, cursor: nat, nullCell: Cell,
                ghost lines: seq<BufferLine>, ghost before: seq<Row>, ghost wrapped: seq<bool>)
    returns (ghost pieces: seq<Piece>, ghost layout: seq<nat>, events: seq<CL.Event>)
    requires list.Valid() && list.Contents() == lines && Apart(lines) && Shows(lines, before) && IsEmpty(nullCell)
    requires AllFit(before, oldCols, newCols)
    requires Flags(lines, wrapped)
    modifies list, list.array_, Cells(lines)
    ensures list.Valid()
    ensures Pieces(wrapped, Setting(oldCols, newCols, cursor), pieces, |lines|) && AllDone(pieces)
    ensures before == Was(pieces)
    ensures (forall k :: 0 <= k < |layout| ==> layout[k] < |lines|) && list.Contents() == Select(lines, layout)
    ensures Shows(Select(lines, layout), Remaining(pieces))
    ensures Layout.Sound(lines, events) && Layout.Edited(lines, events) == Select(lines, layout)
  {
    var all := ReadLines(list, lines);
    var toRemove;
    toRemove, pieces := GetLinesToRemove(all, oldCols, newCols, cursor, nullCell, before, wrapped);
    RemovalsOrdered(wrapped, Setting(oldCols, newCols, cursor), pieces, |lines|);
    KeptRemains(wrapped, Setting(oldCols, newCols, cursor), pieces, |lines|, Now(pieces));
    layout := Kept(toRemove, |lines|);
    SelectShows(lines, Now(pieces), layout);
    events := TakeOut(list, lines, |all|, toRemove);
  }

  method TakeOut(list: CL.CircularList<BufferLine?>, ghost lines: seq<BufferLine>, n: nat, toRemove: seq<Removal>)
    returns (events: seq<CL.Event>)
    requires list.Valid() && list.Contents() == lines && |lines| == n && Ordered(toRemove, n)
    modifies list, list.array_
    ensures list.Valid() && list.Contents() == Select(lines, Kept(toRemove, n))
    ensures Layout.Sound(lines, events) && Layout.Edited(lines, events) == Select(lines, Kept(toRemove, n))
  {
    events := [];
    if |toRemove| > 0 {
      var newLayout, countRemoved;
      newLayout, countRemoved, events := CreateNewLayout(lines, n, toRemove);
      ApplyNewLayout(list, newLayout);
    } else {
      KeptRange(lines, toRemove, 0, n);
      assert lines[0..n] == lines;
    }
  }

  lemma SelectShows(lines: seq<BufferLine>, rows: seq<Row>, layout: seq<nat>)
    requires Shows(lines, rows) && forall k :: 0 <= k < |layout| ==> layout[k] < |lines|
    ensures Shows(Select(lines, layout), Select(rows, layout))
  {
  }

  method ReadLines(list: CL.CircularList<BufferLine?>, ghost lines: seq<BufferLine>) returns (all: seq<BufferLine>)
    requires list.Valid() && list.Contents() == lines
    ensures all == lines
  {
    all := [];
    for i := 0 to list.length
      invariant list.Valid() && list.Contents() == lines
      invariant all == lines[..i]
    {
      var line := list.Get(i);
      assert line == lines[i];
      all := all + [line];
    }
  }
}
