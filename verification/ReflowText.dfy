/** What rewrapping to wider rows keeps (xterm.js module 4634), on rows as sequences of cells: the
    text of a wrapped group of rows, and what holds between two copies of
    `reflowLargerGetLinesToRemove`. Wide characters are included: a row may end one cell early
    because the wide cell that would come next does not fit. */
module ReflowText {
  import opened BL = BufferLine

  type Row = seq<Cell>

  predicate IsEmpty(c: Cell) { c.content == 0 && c.width == 1 }

  /** Rows of `newCols` cells that were `oldCols` cells wide until they were lengthened. */
  ghost predicate Fits(row: Row, oldCols: nat, newCols: nat) {
    |row| == newCols && oldCols < newCols && Whole(row)
    && (forall i :: 0 <= i < |row| && row[i].content != 0 ==> 1 <= row[i].width <= 2)
    && (forall i :: oldCols <= i < |row| ==> IsEmpty(row[i]))
  }

  ghost predicate Group(rows: seq<Row>, oldCols: nat, newCols: nat) {
    |rows| > 0 && 0 < oldCols < newCols && Sized(rows, newCols)
    && forall i {:trigger Fits(rows[i], oldCols, newCols)} :: 0 <= i < |rows| ==> Fits(rows[i], oldCols, newCols)
  }

  ghost predicate Sized(rows: seq<Row>, newCols: nat) {
    newCols > 0 && forall i :: 0 <= i < |rows| ==> |rows[i]| == newCols
  }

  /** `getWrappedLineTrimmedLength(rows, i, cols)`: how much of row `i` is text. A row that ends in an
      empty cell before a wide one was broken because the wide one did not fit. */
  function Length(rows: seq<Row>, i: nat, cols: nat): nat
    requires i < |rows| && cols > 0 && |rows[i]| >= cols
    requires i + 1 < |rows| ==> |rows[i + 1]| > 0
  {
    if i == |rows| - 1 then Trimmed(rows[i])
    else if IsEmpty(rows[i][cols - 1]) && rows[i + 1][0].width == 2 then cols - 1
    else cols
  }

  function Part(row: Row, n: nat): Row { if n <= |row| then row[..n] else row }

  /** The text of the first `n` rows of a group. */
  ghost function Text(rows: seq<Row>, n: nat, cols: nat): Row
    requires n <= |rows| && cols > 0 && forall i :: 0 <= i < |rows| ==> |rows[i]| >= cols
  {
    if n == 0 then [] else Text(rows, n - 1, cols) + Part(rows[n - 1], Length(rows, n - 1, cols))
  }

  /** The first `widths[i]` cells of each row `i`. */
  ghost function Laid(rows: seq<Row>, widths: seq<nat>): Row
    requires |widths| <= |rows|
  {
    if widths == [] then []
    else var i := |widths| - 1; Laid(rows, widths[..i]) + Part(rows[i], widths[i])
  }

  ghost function Sum(widths: seq<nat>): nat {
    if widths == [] then 0 else Sum(widths[..|widths| - 1]) + widths[|widths| - 1]
  }

  // ---------------------------------------------------------------- lengths

  lemma {:induction false} TrimmedBound(row: Row, n: nat)
    requires n <= |row| && forall i :: n <= i < |row| ==> row[i].content == 0
    ensures Trimmed(row) == Trimmed(row[..n])
    decreases |row|
  {
    if n < |row| {
      TrimmedBound(row[..|row| - 1], n);
      assert row[..|row| - 1][..n] == row[..n];
    } else {
      assert row[..n] == row;
    }
  }

  /** Where the text of a row ends: after a cell that shows something, with its second half. */
  lemma {:induction false} TrimmedEnds(row: Row) returns (e: nat)
    ensures if Trimmed(row) == 0 && (forall i :: 0 <= i < |row| ==> row[i].content == 0) then e == 0
            else e < |row| && row[e].content != 0 && Trimmed(row) == e + row[e].width
                 && forall i :: e < i < |row| ==> row[i].content == 0
    decreases |row|
  {
    if row == [] {
      e := 0;
    } else {
      var last := |row| - 1;
      if row[last].content != 0 {
        e := last;
      } else {
        e := TrimmedEnds(row[..last]);
      }
    }
  }

  lemma LengthFits(rows: seq<Row>, i: nat, oldCols: nat, newCols: nat)
    requires Group(rows, oldCols, newCols) && i < |rows|
    ensures Length(rows, i, oldCols) <= oldCols
    ensures var n := Length(rows, i, oldCols); n > 0 ==> rows[i][n - 1].width != 2
  {
    var row := rows[i];
    assert Fits(row, oldCols, newCols);
    assert row[oldCols - 1].width == 2 ==> row[oldCols].width == 0;
    if i == |rows| - 1 {
      var e := TrimmedEnds(row);
    } else if oldCols > 1 && row[oldCols - 2].width == 2 {
      assert row[oldCols - 1].width == 0;
    }
  }

  lemma TextMore(rows: seq<Row>, i: nat, oldCols: nat, newCols: nat)
    requires Group(rows, oldCols, newCols) && i < |rows|
    ensures var n := Length(rows, i, oldCols);
            n <= oldCols && Text(rows, i + 1, oldCols) == Text(rows, i, oldCols) + rows[i][..n]
            && (n > 0 ==> rows[i][n - 1].width != 2)
  {
    LengthFits(rows, i, oldCols, newCols);
  }

  lemma {:induction false} TextEnd(rows: seq<Row>, n: nat, oldCols: nat, newCols: nat)
    requires Group(rows, oldCols, newCols) && n <= |rows|
    ensures var t := Text(rows, n, oldCols); t != [] ==> t[|t| - 1].width != 2
  {
    if n > 0 {
      var i := n - 1;
      TextMore(rows, i, oldCols, newCols);
      TextEnd(rows, i, oldCols, newCols);
      LastOf(Text(rows, i, oldCols), rows[i], Length(rows, i, oldCols), Text(rows, i + 1, oldCols));
    }
  }

  lemma LastOf(t: Row, row: Row, n: nat, u: Row)
    requires n <= |row| && u == t + row[..n]
    requires (t != [] ==> t[|t| - 1].width != 2) && (n > 0 ==> row[n - 1].width != 2)
    ensures u != [] ==> u[|u| - 1].width != 2
  {
  }

  // ---------------------------------------------------------------- between two copies

  /** The rows so far, the text widths of the rows that are full, the column to write next in the row
      after them, and the row and column to read next. */
  datatype Copying = Copying(rows: seq<Row>, widths: seq<nat>, col: nat, src: nat, srcCol: nat)

  /** Full rows are filled, or one cell short. */
  ghost predicate Widths(widths: seq<nat>, newCols: nat) {
    forall i :: 0 <= i < |widths| ==> widths[i] == newCols || widths[i] + 1 == newCols
  }

  ghost predicate FullRow(rows: seq<Row>, i: nat, width: nat, newCols: nat)
    requires Sized(rows, newCols) && i + 1 < |rows|
  {
    if width == newCols then rows[i][newCols - 1].width != 2
    else IsEmpty(rows[i][newCols - 1]) && rows[i + 1][0].width == 2
  }

  ghost predicate FullRows(rows: seq<Row>, widths: seq<nat>, newCols: nat)
    requires Sized(rows, newCols) && |widths| < |rows|
  {
    forall i {:trigger FullRow(rows, i, widths[i], newCols)} :: 0 <= i < |widths| ==>
      FullRow(rows, i, widths[i], newCols)
  }

  ghost predicate Unread(before: seq<Row>, k: Copying)
    requires |k.rows| == |before| && k.src <= |before|
  {
    var d := |k.widths|;
    (forall i :: k.src < i < |before| ==> k.rows[i] == before[i])
    && (k.src < |before| ==>
          d <= k.src
          && (d < k.src ==> k.rows[k.src] == before[k.src])
          && (d == k.src ==> k.col <= |k.rows[d]| && k.col <= |before[d]| && k.rows[d][k.col..] == before[d][k.col..]))
  }

  ghost function Taken(before: seq<Row>, oldCols: nat, src: nat, srcCol: nat): Row
    requires src <= |before| && oldCols > 0 && forall i :: 0 <= i < |before| ==> |before[i]| >= oldCols
  {
    Text(before, src, oldCols) + if src < |before| then Part(before[src], srcCol) else []
  }

  ghost predicate Shape(before: seq<Row>, oldCols: nat, newCols: nat, k: Copying) {
    Group(before, oldCols, newCols) && |k.rows| == |before| && Sized(k.rows, newCols)
    && |k.widths| < |before| && k.col <= newCols && k.src <= |before|
    && (if k.src < |before| then k.srcCol <= Length(before, k.src, oldCols) else k.srcCol == 0)
    && Widths(k.widths, newCols)
    && Sum(k.widths) + k.col == |Text(before, k.src, oldCols)| + k.srcCol
  }

  /** What has been written is what has been read. */
  ghost predicate Reads(before: seq<Row>, oldCols: nat, k: Copying)
    requires |k.widths| < |k.rows|
    requires k.src <= |before| && oldCols > 0 && forall i :: 0 <= i < |before| ==> |before[i]| >= oldCols
  {
    Laid(k.rows, k.widths) + Part(k.rows[|k.widths|], k.col) == Taken(before, oldCols, k.src, k.srcCol)
  }

  ghost predicate Breaks(k: Copying, newCols: nat)
    requires Sized(k.rows, newCols) && |k.widths| < |k.rows|
  {
    FullRows(k.rows, k.widths, newCols) && (k.widths != [] && k.widths[|k.widths| - 1] != newCols ==> k.col > 0)
  }

  ghost predicate Inv(before: seq<Row>, oldCols: nat, newCols: nat, k: Copying) {
    Shape(before, oldCols, newCols, k) && Unread(before, k) && Reads(before, oldCols, k) && Breaks(k, newCols)
  }

  /** Something is left in the row that is read, unless it is new. */
  ghost predicate ToRead(before: seq<Row>, oldCols: nat, k: Copying)
    requires oldCols > 0 && forall i :: 0 <= i < |before| ==> |before[i]| >= oldCols
  {
    k.src < |before| ==> k.srcCol == 0 || k.srcCol < Length(before, k.src, oldCols)
  }

  /** At the head of the loop: there is room in the row, and something left to read in the other. */
  ghost predicate AtHead(before: seq<Row>, oldCols: nat, newCols: nat, k: Copying) {
    Inv(before, oldCols, newCols, k) && k.col < newCols && ToRead(before, oldCols, k)
  }

  lemma {:induction false} SumPrefix(widths: seq<nat>, i: nat)
    requires i <= |widths|
    ensures Sum(widths[..i]) <= Sum(widths)
    decreases |widths|
  {
    if i == |widths| {
      assert widths[..i] == widths;
    } else {
      SumPrefix(widths[..|widths| - 1], i);
      assert widths[..|widths| - 1][..i] == widths[..i];
    }
  }

  /** Full new rows hold at least as much as as many old ones. */
  lemma {:induction false} Ahead(before: seq<Row>, oldCols: nat, newCols: nat, widths: seq<nat>)
    requires Group(before, oldCols, newCols) && |widths| <= |before|
    requires Widths(widths, newCols)
    ensures |Text(before, |widths|, oldCols)| <= Sum(widths)
  {
    if widths != [] {
      var i := |widths| - 1;
      Ahead(before, oldCols, newCols, widths[..i]);
      TextMore(before, i, oldCols, newCols);
    }
  }

  /** In the row that is both read and written, writing is not ahead of reading. */
  lemma WritesBehind(before: seq<Row>, oldCols: nat, newCols: nat, k: Copying)
    requires Inv(before, oldCols, newCols, k) && k.src < |before| && |k.widths| == k.src
    ensures k.col <= k.srcCol
    ensures k.col == k.srcCol ==> k.rows[k.src] == before[k.src]
  {
    var d := k.src;
    Ahead(before, oldCols, newCols, k.widths);
    if k.col == k.srcCol {
      LengthFits(before, d, oldCols, newCols);
      LaidLength(k.rows, k.widths, newCols);
      SameTails(Laid(k.rows, k.widths), k.rows[d], Text(before, d, oldCols), before[d], k.col);
    }
  }

  lemma SameTails(a: Row, row: Row, b: Row, row': Row, n: nat)
    requires |a| == |b| && n <= |row| && n <= |row'|
    requires a + row[..n] == b + row'[..n] && row[n..] == row'[n..]
    ensures row == row'
  {
    assert row[..n] == (a + row[..n])[|a|..] == (b + row'[..n])[|b|..] == row'[..n];
    assert row == row[..n] + row[n..] && row' == row'[..n] + row'[n..];
  }

  lemma {:induction false} LaidLength(rows: seq<Row>, widths: seq<nat>, newCols: nat)
    requires Sized(rows, newCols) && |widths| <= |rows| && Widths(widths, newCols)
    ensures |Laid(rows, widths)| == Sum(widths)
    decreases |widths|
  {
    if widths != [] {
      LaidLength(rows, widths[..|widths| - 1], newCols);
    }
  }

  lemma {:induction false} LaidSame(rows: seq<Row>, rows': seq<Row>, widths: seq<nat>)
    requires |widths| <= |rows| && |widths| <= |rows'|
    requires forall i :: 0 <= i < |widths| ==> Part(rows[i], widths[i]) == Part(rows'[i], widths[i])
    ensures Laid(rows, widths) == Laid(rows', widths)
    decreases |widths|
  {
    if widths != [] {
      LaidSame(rows, rows', widths[..|widths| - 1]);
    }
  }

  /** What the code measures on the rows as they are is what it would have measured at the start. */
  lemma LiveLength(before: seq<Row>, oldCols: nat, newCols: nat, k: Copying)
    requires AtHead(before, oldCols, newCols, k) && k.src < |before|
    ensures Length(k.rows, k.src, oldCols) == Length(before, k.src, oldCols) <= oldCols
  {
    LengthFits(before, k.src, oldCols, newCols);
    var s := k.src;
    if |k.widths| == s {
      WritesBehind(before, oldCols, newCols, k);
      if k.col < k.srcCol {
        forall i | k.col <= i < newCols ensures k.rows[s][i] == before[s][i] {
          assert k.rows[s][k.col..][i - k.col] == before[s][k.col..][i - k.col];
        }
        if s == |before| - 1 {
          var e := TrimmedEnds(before[s]);
          assert Fits(before[s], oldCols, newCols);
          SameTrimmed(before[s], k.rows[s], e);
        }
      }
    }
  }

  lemma SameTrimmed(row: Row, row': Row, e: nat)
    requires |row| == |row'| && e < |row| && row[e].content != 0
    requires forall i :: e <= i < |row| ==> row'[i] == row[i]
    requires forall i :: e < i < |row| ==> row[i].content == 0
    ensures Trimmed(row') == Trimmed(row)
  {
    TrimmedBound(row, e + 1);
    TrimmedBound(row', e + 1);
    assert row[..e + 1][..e] == row[..e] && row'[..e + 1][..e] == row'[..e];
  }

  // ---------------------------------------------------------------- one turn of the loop

  function Min(a: nat, b: nat): nat { if a < b then a else b }

  /** Cells go from the row being read to the row being written. */
  ghost function CopyStep(k: Copying, n: nat): Copying
    requires |k.widths| < |k.rows| && k.src < |k.rows|
    requires k.srcCol + n <= |k.rows[k.src]| && k.col + n <= |k.rows[|k.widths|]|
  {
    var d := |k.widths|;
    Copying(k.rows[d := Copied(k.rows[d], k.rows[k.src], k.srcCol, k.col, n)], k.widths, k.col + n, k.src, k.srcCol + n)
  }

  lemma CopyKeeps(before: seq<Row>, oldCols: nat, newCols: nat, k: Copying, n: nat)
    requires AtHead(before, oldCols, newCols, k) && k.src < |before|
    requires k.col + n <= newCols && k.srcCol + n <= Length(before, k.src, oldCols) <= oldCols
    ensures Inv(before, oldCols, newCols, CopyStep(k, n))
  {
    CopySlices(before, oldCols, newCols, k, n);
    CopyReads(before, oldCols, newCols, k, n);
    CopyUnread(before, k, n, newCols);
    CopyBreaks(k, n, newCols);
  }

  lemma CopyBreaks(k: Copying, n: nat, newCols: nat)
    requires Sized(k.rows, newCols) && |k.widths| < |k.rows| && k.src < |k.rows|
    requires k.col + n <= newCols && k.srcCol + n <= newCols && Breaks(k, newCols)
    ensures Sized(CopyStep(k, n).rows, newCols) && Breaks(CopyStep(k, n), newCols)
  {
    var k' := CopyStep(k, n);
    forall i | 0 <= i < |k.widths| ensures FullRow(k'.rows, i, k.widths[i], newCols) {
      assert FullRow(k.rows, i, k.widths[i], newCols);
      if i == |k.widths| - 1 && k.widths[i] != newCols {
        assert k'.rows[i + 1][0] == k.rows[i + 1][0];
      }
    }
  }

  lemma CopySlices(before: seq<Row>, oldCols: nat, newCols: nat, k: Copying, n: nat)
    requires Inv(before, oldCols, newCols, k) && k.src < |before|
    requires k.col + n <= newCols && k.srcCol + n <= newCols
    ensures k.rows[k.src][k.srcCol..k.srcCol + n] == before[k.src][k.srcCol..k.srcCol + n]
    ensures |k.widths| == k.src ==> k.rows[k.src][k.col + n..] == before[k.src][k.col + n..]
  {
    if |k.widths| == k.src {
      WritesBehind(before, oldCols, newCols, k);
      SlicesOf(k.rows[k.src], before[k.src], k.col, k.srcCol, n);
    }
  }

  /** Rows that agree from `from` on agree on the cells to read and on those after the ones written. */
  lemma SlicesOf(a: Row, b: Row, from: nat, at: nat, n: nat)
    requires from <= at && at + n <= |a| && at + n <= |b| && a[from..] == b[from..]
    ensures a[at..at + n] == b[at..at + n] && a[from + n..] == b[from + n..]
  {
    assert a[at..at + n] == a[from..][at - from..][..n];
    assert b[at..at + n] == b[from..][at - from..][..n];
    assert a[from + n..] == a[from..][n..] && b[from + n..] == b[from..][n..];
  }

  lemma CopyReads(before: seq<Row>, oldCols: nat, newCols: nat, k: Copying, n: nat)
    requires Shape(before, oldCols, newCols, k) && k.src < |before| && Reads(before, oldCols, k)
    requires k.col + n <= newCols && k.srcCol + n <= newCols
    requires k.rows[k.src][k.srcCol..k.srcCol + n] == before[k.src][k.srcCol..k.srcCol + n]
    ensures Reads(before, oldCols, CopyStep(k, n))
  {
    var d, s := |k.widths|, k.src;
    var k' := CopyStep(k, n);
    var copied := before[s][k.srcCol..k.srcCol + n];
    LaidSame(k.rows, k'.rows, k.widths);
    CopiedPart(k.rows[d], k.rows[s], k.srcCol, k.col, n, copied);
    PartMore(before[s], k.srcCol, n, copied);
    LaidMore(Laid(k.rows, k.widths), Part(k.rows[d], k.col), Text(before, s, oldCols), Part(before[s], k.srcCol),
             copied);
  }

  lemma CopiedPart(row: Row, src: Row, from: nat, to: nat, n: nat, copied: Row)
    requires from + n <= |src| && to + n <= |row| && copied == src[from..from + n]
    ensures Part(Copied(row, src, from, to, n), to + n) == Part(row, to) + copied
  {
  }

  lemma PartMore(row: Row, at: nat, n: nat, copied: Row)
    requires at + n <= |row| && copied == row[at..at + n]
    ensures Part(row, at + n) == Part(row, at) + copied
  {
  }

  lemma CopyUnread(before: seq<Row>, k: Copying, n: nat, newCols: nat)
    requires |k.rows| == |before| && |k.widths| < |before| && k.src < |before|
    requires Sized(k.rows, newCols) && Sized(before, newCols)
    requires k.srcCol + n <= newCols && k.col + n <= newCols
    requires Unread(before, k)
    requires |k.widths| == k.src ==> k.rows[k.src][k.col + n..] == before[k.src][k.col + n..]
    ensures Unread(before, CopyStep(k, n))
  {
    var d := |k.widths|;
    assert CopyStep(k, n).rows[d][k.col + n..] == k.rows[d][k.col + n..];
  }

  lemma LaidMore(a: Row, b: Row, c: Row, d: Row, e: Row)
    requires a + b == c + d
    ensures a + (b + e) == c + (d + e)
  {
    assert a + (b + e) == (a + b) + e == (c + d) + e;
  }

  /** The row that is read is done with. */
  lemma AdvanceKeeps(before: seq<Row>, oldCols: nat, newCols: nat, k: Copying, k': Copying)
    requires Inv(before, oldCols, newCols, k) && k.src < |before| && k.srcCol == Length(before, k.src, oldCols)
    requires k' == k.(src := k.src + 1, srcCol := 0)
    ensures Inv(before, oldCols, newCols, k')
  {
    ShapeNext(before, oldCols, newCols, k, k');
    UnreadNext(before, k, k');
    ReadsNext(before, oldCols, newCols, k, k');
  }

  lemma ShapeNext(before: seq<Row>, oldCols: nat, newCols: nat, k: Copying, k': Copying)
    requires Shape(before, oldCols, newCols, k) && k.src < |before| && k.srcCol == Length(before, k.src, oldCols)
    requires k' == k.(src := k.src + 1, srcCol := 0)
    ensures Shape(before, oldCols, newCols, k')
  {
    TextMore(before, k.src, oldCols, newCols);
  }

  lemma UnreadNext(before: seq<Row>, k: Copying, k': Copying)
    requires |k.rows| == |before| && k.src < |before| && Unread(before, k)
    requires k' == k.(src := k.src + 1, srcCol := 0)
    ensures Unread(before, k')
  {
  }

  lemma ReadsNext(before: seq<Row>, oldCols: nat, newCols: nat, k: Copying, k': Copying)
    requires Group(before, oldCols, newCols) && |k.widths| < |k.rows|
    requires k.src < |before| && k.srcCol == Length(before, k.src, oldCols)
    requires Reads(before, oldCols, k) && k' == k.(src := k.src + 1, srcCol := 0)
    ensures Reads(before, oldCols, k')
  {
    TextMore(before, k.src, oldCols, newCols);
    assert Part(before[k.src], k.srcCol) == before[k.src][..k.srcCol];
    var t := Text(before, k.src + 1, oldCols);
    assert t + [] == t;
  }

  /** The row that is written is full: there is another one to write to. */
  lemma RoomBelow(before: seq<Row>, oldCols: nat, newCols: nat, k: Copying)
    requires Inv(before, oldCols, newCols, k) && k.col == newCols
    ensures |k.widths| + 1 < |before|
    ensures k.src < |before| ==> |k.widths| < k.src
    ensures k.src == |before| ==> k.rows[|k.widths|][newCols - 1].width != 2
  {
    RowsBelow(before, oldCols, newCols, k);
    if k.src == |before| {
      WrittenEnd(before, oldCols, newCols, k);
    }
  }

  lemma RowsBelow(before: seq<Row>, oldCols: nat, newCols: nat, k: Copying)
    requires Inv(before, oldCols, newCols, k) && k.col == newCols
    ensures |k.widths| + 1 < |before| && (k.src < |before| ==> |k.widths| < k.src)
  {
    Ahead(before, oldCols, newCols, k.widths);
    TextMore(before, |k.widths|, oldCols, newCols);
  }

  /** When all has been read, the last cell written is the end of the text. */
  lemma WrittenEnd(before: seq<Row>, oldCols: nat, newCols: nat, k: Copying)
    requires Inv(before, oldCols, newCols, k) && k.src == |before|
    ensures Laid(k.rows, k.widths) + k.rows[|k.widths|][..k.col] == Text(before, |before|, oldCols)
    ensures k.col > 0 ==> k.rows[|k.widths|][k.col - 1].width != 2
  {
    var laid, row, text := Laid(k.rows, k.widths), k.rows[|k.widths|], Text(before, |before|, oldCols);
    assert text + [] == text;
    TextEnd(before, |before|, oldCols, newCols);
    if k.col > 0 {
      assert (laid + row[..k.col])[|laid| + k.col - 1] == row[k.col - 1];
    }
  }

  /** A wide cell in the last column of row `d` goes to the front of the next row. */
  ghost function MovedWide(rows: seq<Row>, d: nat, newCols: nat, fill: Cell): (r: seq<Row>)
    requires d + 1 < |rows| && Sized(rows, newCols)
    ensures |r| == |rows| && Sized(r, newCols)
  {
    var last := rows[d][newCols - 1];
    if last.width == 2 then rows[d + 1 := rows[d + 1][0 := last]][d := rows[d][newCols - 1 := fill]] else rows
  }

  /** On to the next row. */
  ghost function WrapStep(k: Copying, newCols: nat, fill: Cell): Copying
    requires |k.widths| + 1 < |k.rows| && Sized(k.rows, newCols)
  {
    var d := |k.widths|;
    var short := if k.rows[d][newCols - 1].width == 2 then 1 else 0;
    Copying(MovedWide(k.rows, d, newCols, fill), k.widths + [newCols - short], short, k.src, k.srcCol)
  }

  lemma WrapKeeps(before: seq<Row>, oldCols: nat, newCols: nat, k: Copying, fill: Cell)
    requires Inv(before, oldCols, newCols, k) && k.col == newCols && IsEmpty(fill)
    requires |k.widths| + 1 < |before|
    ensures Inv(before, oldCols, newCols, WrapStep(k, newCols, fill))
  {
    RoomBelow(before, oldCols, newCols, k);
    WrapUnread(before, oldCols, newCols, k, fill);
    WrapLaid(k, newCols, fill);
    WrapBreaks(k, newCols, fill);
    WrapCounts(k, newCols, fill);
  }

  lemma WrapCounts(k: Copying, newCols: nat, fill: Cell)
    requires Sized(k.rows, newCols) && k.col == newCols && |k.widths| + 1 < |k.rows| && Widths(k.widths, newCols)
    ensures var k' := WrapStep(k, newCols, fill);
            Sum(k'.widths) + k'.col == Sum(k.widths) + k.col && Widths(k'.widths, newCols)
  {
    var k' := WrapStep(k, newCols, fill);
    assert k'.widths[..|k.widths|] == k.widths;
  }

  lemma WrapLaid(k: Copying, newCols: nat, fill: Cell)
    requires Sized(k.rows, newCols) && k.col == newCols && |k.widths| + 1 < |k.rows|
    ensures var k' := WrapStep(k, newCols, fill);
            Laid(k'.rows, k'.widths) + Part(k'.rows[|k'.widths|], k'.col)
            == Laid(k.rows, k.widths) + Part(k.rows[|k.widths|], k.col)
  {
    var d, k' := |k.widths|, WrapStep(k, newCols, fill);
    assert k'.widths[..d] == k.widths;
    LaidSame(k.rows, k'.rows, k.widths);
    var laid, row := Laid(k.rows, k.widths), k.rows[d];
    assert Part(row, newCols) == row;
    if row[newCols - 1].width == 2 {
      assert k'.rows[d][..newCols - 1] == row[..newCols - 1];
      assert k'.rows[d + 1][..1] == [row[newCols - 1]];
      assert row == row[..newCols - 1] + [row[newCols - 1]];
      assert laid + (row[..newCols - 1] + [row[newCols - 1]]) == laid + row[..newCols - 1] + [row[newCols - 1]];
    } else {
      assert laid + row + [] == laid + row;
    }
  }

  lemma WrapBreaks(k: Copying, newCols: nat, fill: Cell)
    requires Sized(k.rows, newCols) && k.col == newCols && |k.widths| + 1 < |k.rows|
    requires newCols > 1 && Breaks(k, newCols) && IsEmpty(fill)
    ensures Sized(WrapStep(k, newCols, fill).rows, newCols) && Breaks(WrapStep(k, newCols, fill), newCols)
  {
    var d, k' := |k.widths|, WrapStep(k, newCols, fill);
    forall i | 0 <= i < |k'.widths|
      ensures FullRow(k'.rows, i, k'.widths[i], newCols)
    {
      if i < d {
        assert FullRow(k.rows, i, k.widths[i], newCols);
      }
    }
  }

  lemma WrapUnread(before: seq<Row>, oldCols: nat, newCols: nat, k: Copying, fill: Cell)
    requires Inv(before, oldCols, newCols, k) && k.col == newCols && |k.widths| + 1 < |before|
    requires k.src < |before| ==> |k.widths| < k.src
    ensures Unread(before, WrapStep(k, newCols, fill))
  {
    var k' := WrapStep(k, newCols, fill);
    if k.src == |k.widths| + 1 {
      assert k'.rows[k.src][k'.col..] == before[k.src][k'.col..];
    }
  }

  /** After the copy: past the row read, if that is all of it. */
  ghost function Advanced(k: Copying, length: nat): Copying {
    if k.srcCol == length then k.(src := k.src + 1, srcCol := 0) else k
  }

  lemma AdvancedKeeps(before: seq<Row>, oldCols: nat, newCols: nat, k: Copying, length: nat)
    requires Inv(before, oldCols, newCols, k) && k.src < |before| && length == Length(before, k.src, oldCols)
    ensures Inv(before, oldCols, newCols, Advanced(k, length)) && ToRead(before, oldCols, Advanced(k, length))
  {
    if k.srcCol == length {
      AdvanceKeeps(before, oldCols, newCols, k, Advanced(k, length));
    }
    AdvancedReads(before, oldCols, newCols, k, length);
  }

  lemma AdvancedReads(before: seq<Row>, oldCols: nat, newCols: nat, k: Copying, length: nat)
    requires Shape(before, oldCols, newCols, k) && k.src < |before| && length == Length(before, k.src, oldCols)
    ensures ToRead(before, oldCols, Advanced(k, length))
  {
  }

  /** The row written is full, and then there is another; or not, and then the row above is settled. */
  lemma WrappedKeeps(before: seq<Row>, oldCols: nat, newCols: nat, k: Copying, fill: Cell)
    requires Inv(before, oldCols, newCols, k) && ToRead(before, oldCols, k) && IsEmpty(fill)
    ensures k.col == newCols ==>
              |k.widths| + 1 < |before| && AtHead(before, oldCols, newCols, WrapStep(k, newCols, fill))
    ensures k.col < newCols ==> AtHead(before, oldCols, newCols, k)
    ensures k.col == 0 && k.widths != [] ==> k.rows[|k.widths| - 1][newCols - 1].width != 2
  {
    if k.col == newCols {
      RoomBelow(before, oldCols, newCols, k);
      WrapKeeps(before, oldCols, newCols, k, fill);
    } else if k.col == 0 && k.widths != [] {
      assert FullRow(k.rows, |k.widths| - 1, k.widths[|k.widths| - 1], newCols);
    }
  }

  /** The whole turn: what is written and read next. */
  lemma TurnKeeps(before: seq<Row>, oldCols: nat, newCols: nat, k: Copying, length: nat, n: nat, fill: Cell)
    returns (k': Copying, k'': Copying)
    requires AtHead(before, oldCols, newCols, k) && k.src < |before| && IsEmpty(fill)
    requires length == Length(before, k.src, oldCols) <= oldCols && k.srcCol <= length
    requires n == Min(length - k.srcCol, newCols - k.col)
    ensures k' == Advanced(CopyStep(k, n), length) && |k'.rows| == |before| && Sized(k'.rows, newCols)
    ensures k'.col == newCols ==> |k.widths| + 1 < |before|
    ensures k'' == if k'.col == newCols then WrapStep(k', newCols, fill) else k'
    ensures AtHead(before, oldCols, newCols, k'')
    ensures k'.col == 0 && k'.widths != [] ==> k'.rows[|k'.widths| - 1][newCols - 1].width != 2
  {
    CopyKeeps(before, oldCols, newCols, k, n);
    k' := CopyStep(k, n);
    AdvancedKeeps(before, oldCols, newCols, k', length);
    k' := Advanced(k', length);
    WrappedKeeps(before, oldCols, newCols, k', fill);
    k'' := if k'.col == newCols then WrapStep(k', newCols, fill) else k';
  }

  /** The same, position by position. */
  ghost predicate IsTurn(k: Copying, n: nat, length: nat, newCols: nat, fill: Cell, k': Copying, k'': Copying)
    requires newCols > 0 && |k.widths| < |k.rows| && k.src < |k.rows|
    requires k.srcCol + n <= |k.rows[k.src]| && k.col + n <= |k.rows[|k.widths|]|
  {
    var d := |k.widths|;
    k'.rows == k.rows[d := Copied(k.rows[d], k.rows[k.src], k.srcCol, k.col, n)] && Sized(k'.rows, newCols)
    && k'.col == k.col + n && |k'.widths| == d
    && (if k.srcCol + n == length then k''.src == k.src + 1 && k''.srcCol == 0
        else k''.src == k.src && k''.srcCol == k.srcCol + n)
    && if k.col + n == newCols then
         d + 1 < |k.rows| && k''.rows == MovedWide(k'.rows, d, newCols, fill) && |k''.widths| == d + 1
         && k''.col == if k'.rows[d][newCols - 1].width == 2 then 1 else 0
       else k''.rows == k'.rows && |k''.widths| == d && k''.col == k.col + n
  }

  lemma TurnIs(k: Copying, n: nat, length: nat, newCols: nat, fill: Cell, k': Copying, k'': Copying)
    requires newCols > 0 && |k.widths| < |k.rows| && k.src < |k.rows|
    requires k.srcCol + n <= |k.rows[k.src]| && k.col + n <= |k.rows[|k.widths|]|
    requires k' == Advanced(CopyStep(k, n), length) && Sized(k'.rows, newCols)
    requires k'.col == newCols ==> |k.widths| + 1 < |k.rows|
    requires k'' == if k'.col == newCols then WrapStep(k', newCols, fill) else k'
    ensures IsTurn(k, n, length, newCols, fill, k', k'')
  {
  }

  /** The row above an empty one does not end in a wide cell. */
  ghost predicate Settled(k: Copying, newCols: nat)
    requires Sized(k.rows, newCols) && |k.widths| <= |k.rows|
  {
    k.col == 0 && k.widths != [] ==> k.rows[|k.widths| - 1][newCols - 1].width != 2
  }

  lemma WholeTurn(before: seq<Row>, oldCols: nat, newCols: nat, k: Copying, length: nat, n: nat, fill: Cell)
    returns (k': Copying, k'': Copying)
    requires AtHead(before, oldCols, newCols, k) && k.src < |before| && IsEmpty(fill)
    requires length == Length(before, k.src, oldCols) <= oldCols && k.srcCol <= length
    requires n == Min(length - k.srcCol, newCols - k.col)
    ensures |k.rows| == |before| && Sized(k.rows, newCols) && |k.widths| < |k.rows|
    ensures k.col + n <= newCols && k.srcCol + n <= length <= newCols && (n > 0 || k.srcCol + n == length)
    ensures IsTurn(k, n, length, newCols, fill, k', k'') && Settled(k', newCols)
    ensures AtHead(before, oldCols, newCols, k'')
  {
    k', k'' := TurnKeeps(before, oldCols, newCols, k, length, n, fill);
    TurnIs(k, n, length, newCols, fill, k', k'');
  }

  /** In terms of the row and column to write next, before a wide cell is moved. */
  lemma TurnSettles(k: Copying, n: nat, length: nat, newCols: nat, fill: Cell, k': Copying, k'': Copying,
                    line: nat, col: nat)
    requires newCols > 0 && |k.widths| < |k.rows| && k.src < |k.rows|
    requires k.srcCol + n <= |k.rows[k.src]| && k.col + n <= |k.rows[|k.widths|]|
    requires IsTurn(k, n, length, newCols, fill, k', k'') && Settled(k', newCols)
    requires if k.col + n == newCols then line == |k.widths| + 1 && col == 0 else line == |k.widths| && col == k.col + n
    ensures |k''.widths| == line
    ensures if col == 0 && line != 0 then
              line < |k'.rows| && k''.rows == MovedWide(k'.rows, line - 1, newCols, fill)
              && k''.col == if k'.rows[line - 1][newCols - 1].width == 2 then 1 else 0
            else k''.rows == k'.rows && k''.col == col
  {
  }

  // ---------------------------------------------------------------- before and after

  ghost function Start(before: seq<Row>, oldCols: nat): Copying
    requires |before| > 0 && oldCols > 0 && forall i :: 0 <= i < |before| ==> |before[i]| >= oldCols
  {
    Copying(before, [], Length(before, 0, oldCols), 1, 0)
  }

  lemma StartKeeps(before: seq<Row>, oldCols: nat, newCols: nat)
    requires Group(before, oldCols, newCols)
    ensures AtHead(before, oldCols, newCols, Start(before, oldCols))
  {
    var k := Start(before, oldCols);
    TextMore(before, 0, oldCols, newCols);
    assert Text(before, 0, oldCols) == [];
    assert Text(before, 1, oldCols) == before[0][..k.col];
    if |before| > 1 {
      assert Part(before[1], 0) == [];
    }
  }

  /** `widths[i]` cells of row `i` are text: all of a full row, or all but the empty cell at its end
      when a wide one comes next; the last row of text is empty from there on. */
  ghost predicate LaidOut(rows: seq<Row>, widths: seq<nat>, newCols: nat) {
    Sized(rows, newCols) && 0 < |widths| <= |rows|
    && forall i {:trigger RowLaid(rows, widths, newCols, i)} :: 0 <= i < |widths| ==> RowLaid(rows, widths, newCols, i)
  }

  ghost predicate RowLaid(rows: seq<Row>, widths: seq<nat>, newCols: nat, i: nat)
    requires Sized(rows, newCols) && i < |widths| <= |rows|
  {
    if i < |widths| - 1 then
      (widths[i] == newCols || widths[i] + 1 == newCols) && FullRow(rows, i, widths[i], newCols)
    else
      widths[i] < newCols && EmptyFrom(rows[i], widths[i])
  }

  ghost predicate EmptyFrom(row: Row, n: nat) { forall i :: n <= i < |row| ==> IsEmpty(row[i]) }

  /** The rows of a group after all has been copied: the same text, laid out anew. */
  ghost predicate Rewrapped(before: seq<Row>, oldCols: nat, newCols: nat, rows: seq<Row>, widths: seq<nat>) {
    Group(before, oldCols, newCols) && |rows| == |before| && LaidOut(rows, widths, newCols)
    && Laid(rows, widths) == Text(before, |before|, oldCols)
  }

  lemma Finishes(before: seq<Row>, oldCols: nat, newCols: nat, k: Copying, fill: Cell)
    requires AtHead(before, oldCols, newCols, k) && k.src == |before| && IsEmpty(fill)
    ensures var d := |k.widths|;
            var rows := k.rows[d := Replaced(k.rows[d], k.col, newCols, fill)];
            Rewrapped(before, oldCols, newCols, rows, k.widths + [k.col])
  {
    WrittenEnd(before, oldCols, newCols, k);
    var d := |k.widths|;
    ReplacedEnd(k.rows[d], k.col, newCols, fill);
    var rows := k.rows[d := Replaced(k.rows[d], k.col, newCols, fill)];
    assert (k.widths + [k.col])[..d] == k.widths;
    LaidSame(k.rows, rows, k.widths);
    FinishBreaks(k, rows, newCols);
    FinishLaid(k.widths, k.col, rows, k.widths + [k.col], newCols);
  }

  lemma FinishLaid(full: seq<nat>, last: nat, rows: seq<Row>, widths: seq<nat>, newCols: nat)
    requires Sized(rows, newCols) && |widths| <= |rows| && widths == full + [last]
    requires Widths(full, newCols) && FullRows(rows, full, newCols)
    requires last < newCols && EmptyFrom(rows[|full|], last)
    ensures LaidOut(rows, widths, newCols)
  {
    forall i | 0 <= i < |widths| ensures RowLaid(rows, widths, newCols, i) {
      if i < |full| {
        assert FullRow(rows, i, full[i], newCols);
      }
    }
  }

  lemma ReplacedEnd(row: Row, col: nat, newCols: nat, fill: Cell)
    requires |row| == newCols && col < newCols && (col > 0 ==> row[col - 1].width != 2)
    ensures var r := Replaced(row, col, newCols, fill);
            r[..col] == row[..col] && forall i :: col <= i < newCols ==> r[i] == fill
  {
  }

  lemma FinishBreaks(k: Copying, rows: seq<Row>, newCols: nat)
    requires Sized(k.rows, newCols) && |k.widths| < |k.rows| && k.col < newCols && Breaks(k, newCols)
    requires |rows| == |k.rows| && Sized(rows, newCols)
    requires forall i :: 0 <= i < |k.widths| ==> rows[i] == k.rows[i]
    requires rows[|k.widths|][..k.col] == k.rows[|k.widths|][..k.col]
    ensures FullRows(rows, k.widths, newCols)
  {
    forall i | 0 <= i < |k.widths| ensures FullRow(rows, i, k.widths[i], newCols) {
      assert FullRow(k.rows, i, k.widths[i], newCols);
      if i == |k.widths| - 1 && k.widths[i] != newCols {
        assert rows[i + 1][0] == rows[i + 1][..k.col][0] == k.rows[i + 1][0];
      }
    }
  }

  // ---------------------------------------------------------------- what is left of the text

  /** The rows that are left over: all after the last one written, and empty ones before. */
  ghost predicate LeftOver(rows: seq<Row>, widths: seq<nat>, count: nat) {
    0 < |widths| <= |rows| && count < |rows|
    && var kept := |rows| - count;
       kept <= |widths|
       && (forall i :: kept <= i < |widths| ==> Trimmed(rows[i]) == 0)
       && (kept > 1 ==> Trimmed(rows[kept - 1]) != 0)
  }

  predicate Blank(row: Row) { forall i :: 0 <= i < |row| ==> row[i].content == 0 }

  /** What shows takes one column or two. */
  predicate Shown(row: Row) { forall i :: 0 <= i < |row| && row[i].content != 0 ==> 1 <= row[i].width <= 2 }

  lemma {:induction false} TextShown(rows: seq<Row>, n: nat, oldCols: nat, newCols: nat)
    requires Group(rows, oldCols, newCols) && n <= |rows|
    ensures Shown(Text(rows, n, oldCols)) && Whole(Text(rows, n, oldCols))
  {
    if n > 0 {
      var i := n - 1;
      TextShown(rows, i, oldCols, newCols);
      TextMore(rows, i, oldCols, newCols);
      TextEnd(rows, i, oldCols, newCols);
      FitsShown(rows, i, oldCols, newCols);
      PartAdded(Text(rows, i, oldCols), rows[i], Length(rows, i, oldCols), Text(rows, i + 1, oldCols));
    }
  }

  lemma FitsShown(rows: seq<Row>, i: nat, oldCols: nat, newCols: nat)
    requires Group(rows, oldCols, newCols) && i < |rows|
    ensures Shown(rows[i]) && Whole(rows[i]) && |rows[i]| == newCols
  {
    assert Fits(rows[i], oldCols, newCols);
  }

  lemma PartAdded(t: Row, row: Row, n: nat, u: Row)
    requires n <= |row| && Shown(t) && Whole(t) && Shown(row) && Whole(row) && u == t + row[..n]
    requires t != [] ==> t[|t| - 1].width != 2
    requires n > 0 ==> row[n - 1].width != 2
    ensures Shown(u) && Whole(u)
  {
  }

  lemma BlankRow(row: Row)
    requires Trimmed(row) == 0 && Shown(row)
    ensures Blank(row)
  {
    var e := TrimmedEnds(row);
  }

  /** Taking off rows of a group takes their part off the end of the text. */
  lemma {:induction false} LaidSplit(rows: seq<Row>, widths: seq<nat>, kept: nat) returns (tail: Row)
    requires |widths| <= |rows| && kept <= |widths| && Shown(Laid(rows, widths))
    requires forall i :: kept <= i < |widths| ==> Trimmed(rows[i]) == 0 && EmptyFrom(rows[i], widths[i])
    ensures Laid(rows, widths) == Laid(rows, widths[..kept]) + tail && Blank(tail)
    decreases |widths|
  {
    if kept == |widths| {
      tail := [];
      assert widths[..kept] == widths;
    } else {
      var n := |widths| - 1;
      var above, last := Laid(rows, widths[..n]), Part(rows[n], widths[n]);
      ShownParts(above, last);
      tail := LaidSplit(rows, widths[..n], kept);
      PrefixOf(widths, n, kept);
      PartBlank(rows[n], widths[n]);
      BlankMore(Laid(rows, widths[..kept]), tail, last, above);
      tail := tail + last;
    }
  }

  lemma BlankMore(a: Row, b: Row, c: Row, ab: Row)
    requires ab == a + b && Blank(b) && Blank(c)
    ensures ab + c == a + (b + c) && Blank(b + c)
  {
  }

  lemma ShownParts(a: Row, b: Row)
    requires Shown(a + b)
    ensures Shown(a) && Shown(b)
  {
    assert forall i :: 0 <= i < |b| ==> (a + b)[|a| + i] == b[i];
    assert forall i :: 0 <= i < |a| ==> (a + b)[i] == a[i];
  }

  lemma PartBlank(row: Row, n: nat)
    requires Trimmed(row) == 0 && EmptyFrom(row, n) && Shown(Part(row, n))
    ensures Blank(Part(row, n))
  {
    assert forall i :: 0 <= i < |row| && i < n ==> Part(row, n)[i] == row[i];
    BlankRow(row);
  }

  lemma RowsEmptyFrom(rows: seq<Row>, widths: seq<nat>, newCols: nat, i: nat)
    requires LaidOut(rows, widths, newCols) && i < |widths|
    ensures EmptyFrom(rows[i], widths[i]) && widths[i] <= newCols == |rows[i]|
  {
    assert RowLaid(rows, widths, newCols, i);
    if i < |widths| - 1 && widths[i] != newCols {
      assert rows[i][newCols - 1] == rows[i][widths[i]];
    }
  }

  ghost predicate ShowsAllOf(part: Row, text: Row) { part <= text && Blank(text[|part|..]) }

  /** The rows that stay hold the text, but for cells at its end that show nothing. */
  lemma NothingLost(before: seq<Row>, oldCols: nat, newCols: nat, rows: seq<Row>, widths: seq<nat>, count: nat)
    requires Rewrapped(before, oldCols, newCols, rows, widths) && LeftOver(rows, widths, count)
    ensures var kept := |rows| - count;
            ShowsAllOf(Laid(rows[..kept], widths[..kept]), Text(before, |before|, oldCols))
  {
    TextShown(before, |before|, oldCols, newCols);
    NothingLaidLost(rows, widths, newCols, |rows| - count);
  }

  lemma NothingLaidLost(rows: seq<Row>, widths: seq<nat>, newCols: nat, kept: nat)
    requires LaidOut(rows, widths, newCols) && Shown(Laid(rows, widths)) && kept <= |widths|
    requires forall i :: kept <= i < |widths| ==> Trimmed(rows[i]) == 0
    ensures ShowsAllOf(Laid(rows[..kept], widths[..kept]), Laid(rows, widths))
  {
    forall i | kept <= i < |widths| ensures EmptyFrom(rows[i], widths[i]) {
      RowsEmptyFrom(rows, widths, newCols, i);
    }
    var tail := LaidSplit(rows, widths, kept);
    LaidSame(rows, rows[..kept], widths[..kept]);
    assert Laid(rows, widths)[|Laid(rows, widths[..kept])|..] == tail;
  }

  /** How many cells go into the row that begins at `pos`: as many as there are columns, one fewer when
      the last of them would be the first half of a wide character, or the rest of the text. */
  ghost function Width(text: Row, pos: nat, newCols: nat): nat
    requires pos <= |text| && newCols > 0
  {
    if |text| - pos < newCols then |text| - pos
    else if text[pos + newCols - 1].width == 2 then newCols - 1
    else newCols
  }

  /** A break after `w` cells from `pos` would part a wide character from its second half. */
  ghost predicate Parts(text: Row, pos: nat, w: nat) { 0 < pos + w <= |text| && text[pos + w - 1].width == 2 }

  /** The row from `pos` on takes as many cells as a row can without parting a character. */
  ghost predicate IsLongest(text: Row, pos: nat, newCols: nat, w: nat) {
    && pos + w <= |text| && w <= newCols && !Parts(text, pos, w)
    && forall v :: w < v <= newCols ==> Parts(text, pos, v) || pos + v > |text|
  }

  lemma WidthIsLongest(text: Row, pos: nat, newCols: nat)
    requires pos <= |text| && newCols > 0 && Whole(text) && !Parts(text, pos, 0)
    ensures IsLongest(text, pos, newCols, Width(text, pos, newCols))
  {
  }

  /** A row that is full of text and ends in an empty cell before a wide one: read again, it looks as
      if the wide one had not fitted. */
  ghost predicate Gap(rows: seq<Row>, widths: seq<nat>, newCols: nat, i: nat)
    requires Sized(rows, newCols) && i + 1 < |rows| && i < |widths|
  {
    widths[i] == newCols && IsEmpty(rows[i][newCols - 1]) && rows[i + 1][0].width == 2
  }

  /** What `getWrappedLineTrimmedLength` reads off the first `kept` rows. */
  ghost function ReadAgain(rows: seq<Row>, kept: nat, newCols: nat): Row
    requires Sized(rows, newCols) && kept <= |rows|
  {
    Text(rows[..kept], kept, newCols)
  }

  lemma {:induction false} LaidBegins(rows: seq<Row>, widths: seq<nat>, i: nat)
    requires i <= |widths| <= |rows|
    ensures Laid(rows, widths[..i]) <= Laid(rows, widths)
    decreases |widths|
  {
    var n := |widths| - 1;
    if i <= n {
      LaidBegins(rows, widths[..n], i);
      PrefixOf(widths, n, i);
    } else {
      assert widths[..i] == widths;
    }
  }

  lemma LaidNext(rows: seq<Row>, widths: seq<nat>, i: nat)
    requires i < |widths| <= |rows|
    ensures Laid(rows, widths[..i + 1]) == Laid(rows, widths[..i]) + Part(rows[i], widths[i])
  {
    PrefixOf(widths, i + 1, i);
  }

  lemma LaidAt(rows: seq<Row>, widths: seq<nat>, i: nat, j: nat)
    requires |widths| <= |rows| && i < |widths| && j < widths[i] <= |rows[i]|
    ensures var p := |Laid(rows, widths[..i])| + j;
            p < |Laid(rows, widths)| && Laid(rows, widths)[p] == rows[i][j]
            && (j + 1 == widths[i] && i + 1 == |widths| ==> p + 1 == |Laid(rows, widths)|)
            && (j + 1 == widths[i] ==> p + 1 == |Laid(rows, widths[..i + 1])|)
  {
    LaidBegins(rows, widths, i + 1);
    LaidNext(rows, widths, i);
    if i + 1 == |widths| {
      assert widths[..i + 1] == widths;
    }
  }

  lemma PrefixOf(s: seq<nat>, n: nat, i: nat)
    requires i <= n <= |s|
    ensures s[..n][..i] == s[..i]
  {
  }

  /** The text of a row does not end within a wide character. */
  lemma LastRow(rows: seq<Row>, widths: seq<nat>, newCols: nat, i: nat)
    requires LaidOut(rows, widths, newCols) && Shown(Laid(rows, widths)) && Whole(Laid(rows, widths)) && i < |widths|
    ensures Trimmed(rows[i]) <= widths[i] <= newCols && Blank(rows[i][Trimmed(rows[i])..])
  {
    RowsEmptyFrom(rows, widths, newCols, i);
    if widths[i] > 0 {
      WideAtEnd(rows, widths, newCols, i);
    }
    LastShown(rows, widths, i, rows[i], widths[i], Laid(rows, widths));
  }

  lemma LastShown(rows: seq<Row>, widths: seq<nat>, i: nat, row: Row, w: nat, laid: Row)
    requires |widths| <= |rows| && laid == Laid(rows, widths) && Shown(laid) && i < |widths|
    requires row == rows[i] && w == widths[i] <= |row| && EmptyFrom(row, w) && (w > 0 ==> row[w - 1].width != 2)
    ensures Trimmed(row) <= w && Blank(row[Trimmed(row)..])
  {
    forall e | 0 <= e < w && row[e].content != 0 ensures 1 <= row[e].width <= 2 {
      ShownInText(rows, widths, i, e, laid);
    }
    EndsWithin(row, w);
  }

  lemma EndsWithin(row: Row, w: nat)
    requires w <= |row| && EmptyFrom(row, w) && (w > 0 ==> row[w - 1].width != 2)
    requires forall e :: 0 <= e < w && row[e].content != 0 ==> 1 <= row[e].width <= 2
    ensures Trimmed(row) <= w && Blank(row[Trimmed(row)..])
  {
    var e := TrimmedEnds(row);
    EndsThere(row, e, w, Trimmed(row));
  }

  /** A row that is empty from `w` on and shows something last at `e`, or nothing at all. */
  lemma EndsThere(row: Row, e: nat, w: nat, end: nat)
    requires EmptyFrom(row, w) && w <= |row|
    requires if e < |row| && row[e].content != 0
             then end == e + row[e].width && 1 <= row[e].width <= 2 && (e + 1 == w ==> row[e].width != 2)
                  && forall i :: e < i < |row| ==> row[i].content == 0
             else end == 0 && forall i :: 0 <= i < |row| ==> row[i].content == 0
    ensures end <= w && Blank(row[end..])
  {
  }

  lemma ShownInText(rows: seq<Row>, widths: seq<nat>, i: nat, e: nat, laid: Row)
    requires |widths| <= |rows| && laid == Laid(rows, widths) && Shown(laid)
    requires i < |widths| && e < widths[i] <= |rows[i]| && rows[i][e].content != 0
    ensures 1 <= rows[i][e].width <= 2
  {
    LaidAt(rows, widths, i, e);
  }

  lemma WideAtEnd(rows: seq<Row>, widths: seq<nat>, newCols: nat, i: nat)
    requires LaidOut(rows, widths, newCols) && Whole(Laid(rows, widths)) && i < |widths| && 0 < widths[i] <= newCols
    ensures rows[i][widths[i] - 1].width != 2
  {
    if i < |widths| - 1 {
      assert RowLaid(rows, widths, newCols, i);
      if widths[i] != newCols {
        NextNotEmpty(rows, widths, newCols, i + 1);
        WideAtRowEnd(rows, widths, newCols, i, Laid(rows, widths));
      }
    } else {
      LaidAt(rows, widths, i, widths[i] - 1);
    }
  }

  lemma NextNotEmpty(rows: seq<Row>, widths: seq<nat>, newCols: nat, i: nat)
    requires LaidOut(rows, widths, newCols) && i < |widths| && rows[i][0].width == 2
    ensures 0 < widths[i] <= newCols
  {
    RowsEmptyFrom(rows, widths, newCols, i);
  }

  lemma WideAtRowEnd(rows: seq<Row>, widths: seq<nat>, newCols: nat, i: nat, laid: Row)
    requires Sized(rows, newCols) && |widths| <= |rows| && laid == Laid(rows, widths) && Whole(laid)
    requires i + 1 < |widths| && 0 < widths[i] < newCols && rows[i + 1][0].width == 2 && 0 < widths[i + 1] <= newCols
    ensures rows[i][widths[i] - 1].width != 2
  {
    LaidAt(rows, widths, i, widths[i] - 1);
    LaidAt(rows, widths, i + 1, 0);
  }

  /** A row is read again as it was laid unless there is a gap after it. */
  lemma RowReads(rows: seq<Row>, widths: seq<nat>, newCols: nat, kept: nat, i: nat)
    requires LaidOut(rows, widths, newCols) && i + 1 < kept <= |widths|
    ensures Length(rows[..kept], i, newCols) == if Gap(rows, widths, newCols, i) then newCols - 1 else widths[i]
    ensures widths[i] <= newCols
  {
    assert RowLaid(rows, widths, newCols, i);
  }

  /** As long as there is no gap, the text is read again as it was laid. */
  lemma {:induction false} ReadsRows(rows: seq<Row>, widths: seq<nat>, newCols: nat, kept: nat, n: nat)
    requires LaidOut(rows, widths, newCols) && n < kept <= |widths|
    requires forall i :: 0 <= i < n ==> !Gap(rows, widths, newCols, i)
    ensures Text(rows[..kept], n, newCols) == Laid(rows, widths[..n])
  {
    if n > 0 {
      var i := n - 1;
      ReadsRows(rows, widths, newCols, kept, i);
      assert widths[..n][..i] == widths[..i];
      assert !Gap(rows, widths, newCols, i);
      RowReads(rows, widths, newCols, kept, i);
    }
  }

  /** Reading the rows that stay gives the text, but for cells at its end that show nothing, exactly
      when there is no gap among them. */
  lemma ReadsBackRows(before: seq<Row>, oldCols: nat, newCols: nat, rows: seq<Row>, widths: seq<nat>, count: nat)
    requires Rewrapped(before, oldCols, newCols, rows, widths) && LeftOver(rows, widths, count)
    ensures var kept := |rows| - count;
            (forall i :: 0 <= i < kept - 1 ==> !Gap(rows, widths, newCols, i))
            <==> ShowsAllOf(ReadAgain(rows, kept, newCols), Text(before, |before|, oldCols))
  {
    TextShown(before, |before|, oldCols, newCols);
    LaidReadsBack(rows, widths, newCols, |rows| - count);
  }

  lemma LaidReadsBack(rows: seq<Row>, widths: seq<nat>, newCols: nat, kept: nat)
    requires LaidOut(rows, widths, newCols) && Shown(Laid(rows, widths)) && Whole(Laid(rows, widths)) && newCols > 1
    requires 0 < kept <= |widths| && forall i :: kept <= i < |widths| ==> Trimmed(rows[i]) == 0
    requires kept > 1 ==> Trimmed(rows[kept - 1]) != 0
    ensures (forall i :: 0 <= i < kept - 1 ==> !Gap(rows, widths, newCols, i))
            <==> ShowsAllOf(ReadAgain(rows, kept, newCols), Laid(rows, widths))
  {
    if forall i :: 0 <= i < kept - 1 ==> !Gap(rows, widths, newCols, i) {
      ReadsAll(rows, widths, newCols, kept);
    } else {
      var i := FirstGap(rows, widths, newCols, kept - 1);
      GapDiffers(rows, widths, newCols, kept, i);
    }
  }

  lemma GapDiffers(rows: seq<Row>, widths: seq<nat>, newCols: nat, kept: nat, i: nat)
    requires LaidOut(rows, widths, newCols) && i + 1 < kept <= |widths| && Gap(rows, widths, newCols, i)
    requires newCols > 1 && Trimmed(rows[kept - 1]) != 0 && forall k :: 0 <= k < i ==> !Gap(rows, widths, newCols, k)
    ensures !(ReadAgain(rows, kept, newCols) <= Laid(rows, widths))
  {
    var p := |Laid(rows, widths[..i])| + newCols - 1;
    AgainAtGap(rows, widths, newCols, kept, i, p);
    LaidAtGap(rows, widths, newCols, i, p);
    NotPrefix(ReadAgain(rows, kept, newCols), Laid(rows, widths), p);
  }

  lemma LaidAtGap(rows: seq<Row>, widths: seq<nat>, newCols: nat, i: nat, p: nat)
    requires Sized(rows, newCols) && |widths| <= |rows| && i + 1 < |rows| && i < |widths|
    requires Gap(rows, widths, newCols, i)
    requires p == |Laid(rows, widths[..i])| + newCols - 1
    ensures p < |Laid(rows, widths)| && Laid(rows, widths)[p].width == 1
  {
    LaidAt(rows, widths, i, newCols - 1);
  }

  lemma NotPrefix(a: Row, b: Row, p: nat)
    requires p < |a| && p < |b| && a[p].width != b[p].width
    ensures !(a <= b)
  {
  }

  lemma {:induction false} FirstGap(rows: seq<Row>, widths: seq<nat>, newCols: nat, n: nat) returns (i: nat)
    requires Sized(rows, newCols) && n < |rows| && n < |widths|
    requires !(forall k :: 0 <= k < n ==> !Gap(rows, widths, newCols, k))
    ensures i < n && Gap(rows, widths, newCols, i) && forall k :: 0 <= k < i ==> !Gap(rows, widths, newCols, k)
  {
    if forall k :: 0 <= k < n - 1 ==> !Gap(rows, widths, newCols, k) {
      i := n - 1;
    } else {
      i := FirstGap(rows, widths, newCols, n - 1);
    }
  }

  lemma ReadsAll(rows: seq<Row>, widths: seq<nat>, newCols: nat, kept: nat)
    requires LaidOut(rows, widths, newCols) && Shown(Laid(rows, widths)) && Whole(Laid(rows, widths))
    requires 0 < kept <= |widths| && forall i :: kept <= i < |widths| ==> Trimmed(rows[i]) == 0
    requires forall i :: 0 <= i < kept - 1 ==> !Gap(rows, widths, newCols, i)
    ensures ShowsAllOf(ReadAgain(rows, kept, newCols), Laid(rows, widths))
  {
    var last, laid, again := kept - 1, Laid(rows[..kept], widths[..kept]), ReadAgain(rows, kept, newCols);
    AgainIs(rows, widths, newCols, kept, again);
    LastRow(rows, widths, newCols, last);
    NothingLaidLost(rows, widths, newCols, kept);
    LaidUpTo(rows, widths, kept);
    ReadsTail(Laid(rows, widths), Laid(rows, widths[..last]), rows[last], Trimmed(rows[last]), widths[last],
              laid, again);
  }

  lemma AgainIs(rows: seq<Row>, widths: seq<nat>, newCols: nat, kept: nat, again: Row)
    requires LaidOut(rows, widths, newCols) && 0 < kept <= |widths| && again == ReadAgain(rows, kept, newCols)
    requires forall i :: 0 <= i < kept - 1 ==> !Gap(rows, widths, newCols, i)
    ensures again == Laid(rows, widths[..kept - 1]) + Part(rows[kept - 1], Trimmed(rows[kept - 1]))
  {
    ReadsRows(rows, widths, newCols, kept, kept - 1);
    LastRead(rows, kept, newCols);
  }

  lemma LastRead(rows: seq<Row>, kept: nat, newCols: nat)
    requires Sized(rows, newCols) && 0 < kept <= |rows|
    ensures ReadAgain(rows, kept, newCols)
            == Text(rows[..kept], kept - 1, newCols) + Part(rows[kept - 1], Trimmed(rows[kept - 1]))
  {
  }

  lemma ReadsTail(text: Row, a: Row, row: Row, n: nat, w: nat, laid: Row, again: Row)
    requires n <= w <= |row| && Blank(row[n..]) && laid == a + Part(row, w) && again == a + Part(row, n)
    requires ShowsAllOf(laid, text)
    ensures ShowsAllOf(again, text)
  {
    BlankTail(text, a, row, n, w);
  }

  lemma LaidUpTo(rows: seq<Row>, widths: seq<nat>, kept: nat)
    requires 0 < kept <= |widths| <= |rows|
    ensures Laid(rows[..kept], widths[..kept])
            == Laid(rows, widths[..kept - 1]) + Part(rows[kept - 1], widths[kept - 1])
  {
    LaidSame(rows, rows[..kept], widths[..kept]);
    assert widths[..kept][..kept - 1] == widths[..kept - 1];
  }

  lemma BlankTail(text: Row, a: Row, row: Row, n: nat, w: nat)
    requires n <= w <= |row| && Blank(row[n..])
    requires ShowsAllOf(a + row[..w], text)
    ensures ShowsAllOf(a + row[..n], text)
  {
    var t := |a| + n;
    assert a + row[..n] == (a + row[..w])[..t];
    forall i | t <= i < |text| ensures text[i].content == 0 {
      if i < |a| + w {
        assert text[i] == (a + row[..w])[i] == row[n..][i - t];
      } else {
        assert text[i] == text[|a + row[..w]|..][i - |a| - w];
      }
    }
    assert forall k :: 0 <= k < |text| - t ==> text[t..][k] == text[t + k];
  }

  /** At a gap, the wide cell is read where the empty one was laid. */
  lemma AgainAtGap(rows: seq<Row>, widths: seq<nat>, newCols: nat, kept: nat, i: nat, p: nat)
    requires LaidOut(rows, widths, newCols) && i + 1 < kept <= |widths| && Gap(rows, widths, newCols, i)
    requires kept > 1 ==> Trimmed(rows[kept - 1]) != 0
    requires newCols > 1 && forall k :: 0 <= k < i ==> !Gap(rows, widths, newCols, k)
    requires p == |Laid(rows, widths[..i])| + newCols - 1
    ensures var again := ReadAgain(rows, kept, newCols); p < |again| && again[p].width == 2
  {
    var part := rows[..kept];
    ReadsRows(rows, widths, newCols, kept, i);
    RowReads(rows, widths, newCols, kept, i);
    NextReads(rows, widths, newCols, kept, i + 1);
    GapRead(part, newCols, i, p);
  }

  lemma GapRead(rows: seq<Row>, cols: nat, i: nat, p: nat)
    requires Sized(rows, cols) && i + 2 <= |rows| && Length(rows, i, cols) == cols - 1 && Length(rows, i + 1, cols) > 0
    requires p == |Text(rows, i, cols)| + cols - 1
    ensures p < |Text(rows, |rows|, cols)| && Text(rows, |rows|, cols)[p] == rows[i + 1][0]
  {
    NextCell(rows, i, cols);
    TextPrefix(rows, i + 2, |rows|, cols);
    PrefixCell(Text(rows, i + 2, cols), Text(rows, |rows|, cols), p, rows[i + 1][0]);
  }

  lemma NextReads(rows: seq<Row>, widths: seq<nat>, newCols: nat, kept: nat, i: nat)
    requires LaidOut(rows, widths, newCols) && i < kept <= |widths| && newCols > 1
    requires kept > 1 ==> Trimmed(rows[kept - 1]) != 0
    requires i > 0
    ensures Length(rows[..kept], i, newCols) > 0
  {
    if i + 1 < kept {
      RowReads(rows, widths, newCols, kept, i);
      assert RowLaid(rows, widths, newCols, i);
    }
  }

  lemma PrefixCell(a: Row, b: Row, p: nat, c: Cell)
    requires a <= b && p < |a| && a[p] == c
    ensures p < |b| && b[p] == c
  {
  }

  /** After a row that is read one cell short comes the first cell of the next. */
  lemma NextCell(rows: seq<Row>, i: nat, cols: nat)
    requires Sized(rows, cols) && i + 2 <= |rows| && Length(rows, i, cols) == cols - 1 && Length(rows, i + 1, cols) > 0
    ensures var p := |Text(rows, i, cols)| + cols - 1;
            p < |Text(rows, i + 2, cols)| && Text(rows, i + 2, cols)[p] == rows[i + 1][0]
  {
    var t := Text(rows, i, cols);
    var u := Text(rows, i + 1, cols);
    assert u == t + rows[i][..cols - 1];
    assert Text(rows, i + 2, cols) == u + Part(rows[i + 1], Length(rows, i + 1, cols));
  }

  lemma {:induction false} TextPrefix(rows: seq<Row>, m: nat, n: nat, cols: nat)
    requires m <= n <= |rows| && cols > 0 && forall i :: 0 <= i < |rows| ==> |rows[i]| >= cols
    ensures Text(rows, m, cols) <= Text(rows, n, cols)
  {
    if m < n {
      TextPrefix(rows, m, n - 1, cols);
      PrefixMore(Text(rows, m, cols), Text(rows, n - 1, cols), Part(rows[n - 1], Length(rows, n - 1, cols)));
    }
  }

  lemma PrefixMore(a: Row, b: Row, more: Row)
    requires a <= b
    ensures a <= b + more
  {
  }
}
