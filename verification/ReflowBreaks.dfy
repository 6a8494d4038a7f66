/** Where the rows of a group break when it becomes wider, and when it reads as the same text
    afterwards (xterm.js module 4634). Both are matters of the text alone. */
module ReflowBreaks {
  import BL = BufferLine
  import opened ReflowText

  /** Where row `i` begins when a text is broken into rows of `newCols` columns from the front, a wide
      character that would be cut going to the next row. */
  ghost function RowStart(text: Row, newCols: nat, i: nat): (p: nat)
    requires newCols > 0
    ensures p <= |text|
  {
    if i == 0 then 0
    else var p := RowStart(text, newCols, i - 1); p + Width(text, p, newCols)
  }

  lemma {:induction false} StartsAscend(text: Row, newCols: nat, i: nat, j: nat)
    requires newCols > 0 && i <= j
    ensures RowStart(text, newCols, i) <= RowStart(text, newCols, j)
  {
    if i < j {
      StartsAscend(text, newCols, i, j - 1);
    }
  }

  /** The rows that the text was laid out in begin and end there. */
  lemma {:induction false} LaidBreaks(rows: seq<Row>, widths: seq<nat>, newCols: nat, text: Row, i: nat)
    requires LaidOut(rows, widths, newCols) && text == Laid(rows, widths) && i < |widths|
    ensures |Laid(rows, widths[..i])| == RowStart(text, newCols, i)
    ensures widths[i] == Width(text, RowStart(text, newCols, i), newCols)
  {
    var p := |Laid(rows, widths[..i])|;
    if i > 0 {
      LaidBreaks(rows, widths, newCols, text, i - 1);
      StartsNext(rows, widths, newCols, text, i - 1, RowStart(text, newCols, i - 1));
    }
    BreaksAt(rows, widths, newCols, text, i, p);
  }

  lemma StartsNext(rows: seq<Row>, widths: seq<nat>, newCols: nat, text: Row, i: nat, start: nat)
    requires LaidOut(rows, widths, newCols) && i < |widths| && start == RowStart(text, newCols, i)
    requires |Laid(rows, widths[..i])| == start && widths[i] == Width(text, start, newCols)
    ensures |Laid(rows, widths[..i + 1])| == RowStart(text, newCols, i + 1)
  {
    RowsEmptyFrom(rows, widths, newCols, i);
    LaidNext(rows, widths, i);
  }

  lemma BreaksAt(rows: seq<Row>, widths: seq<nat>, newCols: nat, text: Row, i: nat, p: nat)
    requires LaidOut(rows, widths, newCols) && text == Laid(rows, widths) && i < |widths|
    requires p == |Laid(rows, widths[..i])|
    ensures p <= |text| && widths[i] == Width(text, p, newCols)
  {
    RowsEmptyFrom(rows, widths, newCols, i);
    if i < |widths| - 1 {
      FullBreaks(rows, widths, newCols, text, i, p);
    } else {
      LaidNext(rows, widths, i);
      assert RowLaid(rows, widths, newCols, i) && widths[..i + 1] == widths;
    }
  }

  lemma FullBreaks(rows: seq<Row>, widths: seq<nat>, newCols: nat, text: Row, i: nat, p: nat)
    requires LaidOut(rows, widths, newCols) && text == Laid(rows, widths) && i < |widths| - 1
    requires p == |Laid(rows, widths[..i])|
    ensures p <= |text| && widths[i] == Width(text, p, newCols)
  {
    assert RowLaid(rows, widths, newCols, i);
    if widths[i] == newCols {
      LaidAt(rows, widths, i, newCols - 1);
    } else {
      LaidNext(rows, widths, i);
      NextNotEmpty(rows, widths, newCols, i + 1);
      LaidAt(rows, widths, i + 1, 0);
    }
  }

  /** Growing breaks the text of a group greedily, whatever rows it came in. */
  lemma BreaksGreedily(before: seq<Row>, oldCols: nat, newCols: nat, rows: seq<Row>, widths: seq<nat>, i: nat)
    requires Rewrapped(before, oldCols, newCols, rows, widths) && i < |widths|
    ensures var text := Text(before, |before|, oldCols);
            && |Laid(rows, widths[..i])| == RowStart(text, newCols, i)
            && widths[i] == Width(text, RowStart(text, newCols, i), newCols)
  {
    LaidBreaks(rows, widths, newCols, Laid(rows, widths), i);
  }

  lemma {:induction false} StartsWhole(text: Row, newCols: nat, i: nat)
    requires newCols > 0 && BL.Whole(text)
    ensures !Parts(text, RowStart(text, newCols, i), 0)
  {
    if i > 0 {
      StartsWhole(text, newCols, i - 1);
      WidthIsLongest(text, RowStart(text, newCols, i - 1), newCols);
      assert !Parts(text, RowStart(text, newCols, i - 1), Width(text, RowStart(text, newCols, i - 1), newCols));
    }
  }

  /** Every row that growing makes takes as much of the text as fits without parting a wide character. */
  lemma RowsAreLongest(before: seq<Row>, oldCols: nat, newCols: nat, rows: seq<Row>, widths: seq<nat>, i: nat)
    requires Rewrapped(before, oldCols, newCols, rows, widths) && i < |widths|
    ensures IsLongest(Text(before, |before|, oldCols), |Laid(rows, widths[..i])|, newCols, widths[i])
  {
    var text := Text(before, |before|, oldCols);
    BreaksGreedily(before, oldCols, newCols, rows, widths, i);
    TextShown(before, |before|, oldCols, newCols);
    StartsWhole(text, newCols, i);
    WidthIsLongest(text, RowStart(text, newCols, i), newCols);
  }

  // ---------------------------------------------------------------- when the text reads back

  predicate EmptyBeforeWide(text: Row, p: nat) {
    0 < p < |text| && IsEmpty(text[p - 1]) && text[p].width == 2
  }

  /** A row that is full, with an empty cell at its end and a wide one after it, and something to show
      in the rest of the text. */
  ghost predicate GapAfter(text: Row, newCols: nat, i: nat)
    requires newCols > 0
  {
    var p := RowStart(text, newCols, i) + newCols;
    EmptyBeforeWide(text, p) && !Blank(text[p..])
  }

  /** Whether such a row breaks the text somewhere. */
  ghost predicate HasGap(text: Row, newCols: nat)
    requires newCols > 0
  {
    exists i: nat :: GapAfter(text, newCols, i)
  }

  /** A gap is seen in the rows where it is in the text. */
  lemma GapInRows(rows: seq<Row>, widths: seq<nat>, newCols: nat, text: Row, i: nat, p: nat)
    requires LaidOut(rows, widths, newCols) && text == Laid(rows, widths) && i + 1 < |widths| && newCols > 1
    requires p == RowStart(text, newCols, i) + newCols
    ensures Gap(rows, widths, newCols, i) <==> EmptyBeforeWide(text, p)
    ensures Gap(rows, widths, newCols, i) ==> RowStart(text, newCols, i + 1) == p
  {
    if widths[i] == newCols {
      FullRowAt(rows, widths, newCols, text, i, p);
    } else {
      LaidBreaks(rows, widths, newCols, text, i);
    }
  }

  /** A full row ends just before `p`, and what comes next in the text comes first in the next row. */
  lemma FullRowAt(rows: seq<Row>, widths: seq<nat>, newCols: nat, text: Row, i: nat, p: nat)
    requires LaidOut(rows, widths, newCols) && text == Laid(rows, widths) && i + 1 < |widths| && newCols > 1
    requires widths[i] == newCols && p == RowStart(text, newCols, i) + newCols
    ensures p == RowStart(text, newCols, i + 1) <= |text| && text[p - 1] == rows[i][newCols - 1]
    ensures p < |text| ==> text[p] == rows[i + 1][0]
    ensures rows[i + 1][0].width == 2 ==> p < |text|
  {
    LaidBreaks(rows, widths, newCols, text, i);
    RowStartNext(text, newCols, i, RowStart(text, newCols, i), widths[i], p);
    LastAt(rows, widths, newCols, text, i, p);
    LaidBreaks(rows, widths, newCols, text, i + 1);
    NextAt(rows, widths, newCols, text, i + 1, p);
  }

  lemma RowStartNext(text: Row, newCols: nat, i: nat, p: nat, w: nat, q: nat)
    requires newCols > 0 && p == RowStart(text, newCols, i) && w == Width(text, p, newCols) && q == p + w
    ensures RowStart(text, newCols, i + 1) == q
  {
  }

  lemma LastAt(rows: seq<Row>, widths: seq<nat>, newCols: nat, text: Row, i: nat, p: nat)
    requires LaidOut(rows, widths, newCols) && text == Laid(rows, widths) && i < |widths|
    requires widths[i] == newCols && p == |Laid(rows, widths[..i])| + newCols
    ensures 0 < p <= |text| && text[p - 1] == rows[i][newCols - 1]
  {
    LaidAt(rows, widths, i, newCols - 1);
  }

  lemma NextAt(rows: seq<Row>, widths: seq<nat>, newCols: nat, text: Row, i: nat, p: nat)
    requires LaidOut(rows, widths, newCols) && text == Laid(rows, widths) && i < |widths| && newCols > 1
    requires p == |Laid(rows, widths[..i])| <= |text| && widths[i] == Width(text, p, newCols)
    ensures p < |text| ==> text[p] == rows[i][0]
    ensures rows[i][0].width == 2 ==> p < |text|
  {
    RowsEmptyFrom(rows, widths, newCols, i);
    if widths[i] > 0 {
      LaidAt(rows, widths, i, 0);
    }
    if rows[i][0].width == 2 {
      NextNotEmpty(rows, widths, newCols, i);
    }
  }

  /** Past the last row there is none. */
  lemma NoGapBeyond(rows: seq<Row>, widths: seq<nat>, newCols: nat, text: Row, i: nat)
    requires LaidOut(rows, widths, newCols) && text == Laid(rows, widths) && i + 1 >= |widths|
    ensures RowStart(text, newCols, i) + newCols > |text|
  {
    var d := |widths| - 1;
    LaidBreaks(rows, widths, newCols, text, d);
    assert RowLaid(rows, widths, newCols, d);
    StartsAscend(text, newCols, d, i);
  }

  /** The rows that stay are those up to the last that shows something. */
  lemma KeptWhileShown(rows: seq<Row>, widths: seq<nat>, newCols: nat, text: Row, kept: nat, i: nat, p: nat)
    requires LaidOut(rows, widths, newCols) && text == Laid(rows, widths) && Shown(text)
    requires 0 < kept <= |widths| && forall k :: kept <= k < |widths| ==> BL.Trimmed(rows[k]) == 0
    requires kept > 1 ==> BL.Trimmed(rows[kept - 1]) != 0
    requires i < |widths| && i > 0 && p == RowStart(text, newCols, i)
    ensures i < kept <==> !Blank(text[p..])
  {
    if i < kept {
      StartsAscend(text, newCols, i, kept - 1);
      var e := ShownAt(rows, widths, newCols, text, kept - 1, rows[kept - 1], widths[kept - 1]);
      ShownFrom(text, p, e);
    } else {
      StartsAscend(text, newCols, kept, i);
      BlankFrom(rows, widths, newCols, text, kept);
      BlankLater(text, RowStart(text, newCols, kept), p);
    }
  }

  lemma ShownFrom(text: Row, p: nat, e: nat)
    requires p <= e < |text| && text[e].content != 0
    ensures !Blank(text[p..])
  {
    assert text[p..][e - p] == text[e];
  }

  lemma BlankLater(text: Row, q: nat, p: nat)
    requires q <= p <= |text| && Blank(text[q..])
    ensures Blank(text[p..])
  {
    assert forall k :: 0 <= k < |text| - p ==> text[p..][k] == text[q..][k + p - q];
  }

  /** A row that shows something, and nothing from `w` on. */
  lemma ShownCell(row: Row, w: nat) returns (j: nat)
    requires EmptyFrom(row, w) && BL.Trimmed(row) != 0
    ensures j < |row| && j < w && row[j].content != 0
  {
    j := TrimmedEnds(row);
  }

  lemma ShownAt(rows: seq<Row>, widths: seq<nat>, newCols: nat, text: Row, i: nat, row: Row, w: nat) returns (e: nat)
    requires LaidOut(rows, widths, newCols) && text == Laid(rows, widths)
    requires i < |widths| && row == rows[i] && w == widths[i] && BL.Trimmed(row) != 0
    ensures RowStart(text, newCols, i) <= e < |text| && text[e].content != 0
  {
    RowsEmptyFrom(rows, widths, newCols, i);
    var j := ShownCell(row, w);
    LaidBreaks(rows, widths, newCols, text, i);
    LaidAt(rows, widths, i, j);
    e := RowStart(text, newCols, i) + j;
  }

  lemma BlankFrom(rows: seq<Row>, widths: seq<nat>, newCols: nat, text: Row, kept: nat)
    requires LaidOut(rows, widths, newCols) && text == Laid(rows, widths) && Shown(text) && kept < |widths|
    requires forall k :: kept <= k < |widths| ==> BL.Trimmed(rows[k]) == 0
    ensures Blank(text[RowStart(text, newCols, kept)..])
  {
    NothingLaidLost(rows, widths, newCols, kept);
    LaidSame(rows, rows[..kept], widths[..kept]);
    LaidBreaks(rows, widths, newCols, text, kept);
  }

  /** Reading the rows that stay gives the text, but for cells at its end that show nothing, exactly
      when the text has no gap. */
  lemma ReadsBack(before: seq<Row>, oldCols: nat, newCols: nat, rows: seq<Row>, widths: seq<nat>, count: nat)
    requires Rewrapped(before, oldCols, newCols, rows, widths) && LeftOver(rows, widths, count)
    ensures var text := Text(before, |before|, oldCols);
            ShowsAllOf(ReadAgain(rows, |rows| - count, newCols), text) <==> !HasGap(text, newCols)
  {
    ReadsBackRows(before, oldCols, newCols, rows, widths, count);
    TextShown(before, |before|, oldCols, newCols);
    GapsMatch(rows, widths, newCols, Text(before, |before|, oldCols), |rows| - count);
  }

  lemma GapsMatch(rows: seq<Row>, widths: seq<nat>, newCols: nat, text: Row, kept: nat)
    requires LaidOut(rows, widths, newCols) && text == Laid(rows, widths) && Shown(text) && newCols > 1
    requires 0 < kept <= |widths| && forall k :: kept <= k < |widths| ==> BL.Trimmed(rows[k]) == 0
    requires kept > 1 ==> BL.Trimmed(rows[kept - 1]) != 0
    ensures (forall i :: 0 <= i < kept - 1 ==> !Gap(rows, widths, newCols, i)) <==> !HasGap(text, newCols)
  {
    forall i: nat
      ensures GapAfter(text, newCols, i) <==> i < kept - 1 && Gap(rows, widths, newCols, i)
    {
      GapMatches(rows, widths, newCols, text, kept, i);
    }
  }

  lemma GapMatches(rows: seq<Row>, widths: seq<nat>, newCols: nat, text: Row, kept: nat, i: nat)
    requires LaidOut(rows, widths, newCols) && text == Laid(rows, widths) && Shown(text) && newCols > 1
    requires 0 < kept <= |widths| && forall k :: kept <= k < |widths| ==> BL.Trimmed(rows[k]) == 0
    requires kept > 1 ==> BL.Trimmed(rows[kept - 1]) != 0
    ensures GapAfter(text, newCols, i) <==> i < kept - 1 && Gap(rows, widths, newCols, i)
  {
    if i + 1 < |widths| {
      GapMatchesWithin(rows, widths, newCols, text, kept, i, RowStart(text, newCols, i) + newCols);
    } else {
      NoGapBeyond(rows, widths, newCols, text, i);
    }
  }

  lemma GapMatchesWithin(rows: seq<Row>, widths: seq<nat>, newCols: nat, text: Row, kept: nat, i: nat, p: nat)
    requires LaidOut(rows, widths, newCols) && text == Laid(rows, widths) && Shown(text) && newCols > 1
    requires 0 < kept <= |widths| && forall k :: kept <= k < |widths| ==> BL.Trimmed(rows[k]) == 0
    requires kept > 1 ==> BL.Trimmed(rows[kept - 1]) != 0
    requires i + 1 < |widths| && p == RowStart(text, newCols, i) + newCols
    ensures GapAfter(text, newCols, i) <==> i < kept - 1 && Gap(rows, widths, newCols, i)
  {
    GapInRows(rows, widths, newCols, text, i, p);
    if Gap(rows, widths, newCols, i) {
      KeptWhileShown(rows, widths, newCols, text, kept, i + 1, p);
    }
  }

  /** Four columns made five: `abcd`, then an empty cell, a wide character and `e`. The empty cell goes
      up to the first row and the wide one stays at the start of the second. */
  function One(content: nat): BL.Cell { BL.Cell(content, 1, 0) }
  function WideCells(): Row { [BL.Cell(19968, 2, 0), BL.Cell(0, 0, 0)] }
  function FullRowCells(): Row { [One(97), One(98), One(99), One(100), One(0)] }
  function WrappedBefore(): seq<Row> { [FullRowCells(), [One(0)] + WideCells() + [One(101), One(0)]] }
  function WrappedAfter(): seq<Row> { [FullRowCells(), WideCells() + [One(101), One(0), One(0)]] }

  /** The text has the empty cell, and what is read back has not. */
  lemma GapLosesACell()
    ensures Rewrapped(WrappedBefore(), 4, 5, WrappedAfter(), [5, 3]) && LeftOver(WrappedAfter(), [5, 3], 0)
    ensures Text(WrappedBefore(), 2, 4) == FullRowCells() + WideCells() + [One(101)]
    ensures ReadAgain(WrappedAfter(), 2, 5) == FullRowCells()[..4] + WideCells() + [One(101)]
    ensures !ShowsAllOf(ReadAgain(WrappedAfter(), 2, 5), Text(WrappedBefore(), 2, 4))
    ensures HasGap(Text(WrappedBefore(), 2, 4), 5)
  {
    GapTexts();
    GapLaid();
    ReadsBackRows(WrappedBefore(), 4, 5, WrappedAfter(), [5, 3], 0);
    ReadsBack(WrappedBefore(), 4, 5, WrappedAfter(), [5, 3], 0);
    assert Gap(WrappedAfter(), [5, 3], 5, 0);
  }

  lemma GapTexts()
    ensures Group(WrappedBefore(), 4, 5) && Sized(WrappedAfter(), 5)
    ensures Text(WrappedBefore(), 2, 4) == FullRowCells() + WideCells() + [One(101)]
    ensures ReadAgain(WrappedAfter(), 2, 5) == FullRowCells()[..4] + WideCells() + [One(101)]
  {
    var before, after := WrappedBefore(), WrappedAfter();
    assert after[..2] == after;
    TrimmedAt(before[1], 4);
    TrimmedAt(after[1], 3);
    assert Text(before, 1, 4) == Part(before[0], 4) && Text(after, 1, 5) == Part(after[0], 4);
  }

  lemma GapLaid()
    ensures LaidOut(WrappedAfter(), [5, 3], 5)
    ensures Laid(WrappedAfter(), [5, 3]) == FullRowCells() + WideCells() + [One(101)]
    ensures LeftOver(WrappedAfter(), [5, 3], 0)
  {
    var after := WrappedAfter();
    assert [5, 3][..1] == [5] && [5][..0] == [];
    assert Laid(after, [5]) == Part(after[0], 5);
    TrimmedAt(after[1], 3);
  }

  /** The text of a row of single cells ends at the last one that shows something. */
  lemma {:induction false} TrimmedAt(row: Row, n: nat)
    requires 0 < n <= |row| && row[n - 1].content != 0 && row[n - 1].width == 1
    requires forall i :: n <= i < |row| ==> row[i].content == 0
    ensures BL.Trimmed(row) == n
    decreases |row|
  {
    if n < |row| {
      TrimmedAt(row[..|row| - 1], n);
    }
  }
}
