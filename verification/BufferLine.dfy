/** Rows of cells and the edits that shift or blank them (xterm.js module 8437). A wide character
    takes a cell of width 2 and the cell of width 0 after it; an edit that separates the two blanks
    what is left of the character. */
module BufferLine {

  /** `content` is what the cell shows: the 22 bits of code point and combined flag; 0 is nothing. */
  datatype Cell = Cell(content: nat, width: nat, attr: int)

  /** `setCellFromCodepoint(index, 0, 1, fill)`: nothing, one column wide, with the colours of `fill`. */
  function Blank(fill: Cell): Cell { Cell(0, 1, fill.attr) }

  /** Every wide cell is followed by its second half in the same row. */
  ghost predicate Whole(cells: seq<Cell>) {
    forall i :: 0 <= i < |cells| && cells[i].width == 2 ==> i + 1 < |cells| && cells[i + 1].width == 0
  }

  function Repeat(fill: Cell, n: nat): (r: seq<Cell>)
    ensures |r| == n && forall i :: 0 <= i < n ==> r[i] == fill
  {
    seq(n, i => fill)
  }

  // ---------------------------------------------------------------- the edits on sequences

  /** A wide cell at `i` becomes blank. */
  function Cut(cells: seq<Cell>, i: int, fill: Cell): (r: seq<Cell>)
    ensures |r| == |cells|
  {
    if 0 <= i < |cells| && cells[i].width == 2 then cells[i := Blank(fill)] else cells
  }

  /** `n` cells of `fill` come in at `pos`; what is pushed over the right edge is lost. */
  function Shifted(cells: seq<Cell>, pos: nat, n: nat, fill: Cell): (r: seq<Cell>)
    requires pos <= |cells|
    ensures |r| == |cells|
  {
    (cells[..pos] + Repeat(fill, n) + cells[pos..])[..|cells|]
  }

  /** `n` cells at `pos` go; cells of `fill` come in at the right edge. */
  function Closed(cells: seq<Cell>, pos: nat, n: nat, fill: Cell): (r: seq<Cell>)
    requires pos <= |cells|
    ensures |r| == |cells|
  {
    if n < |cells| - pos then cells[..pos] + cells[pos + n..] + Repeat(fill, n)
    else cells[..pos] + Repeat(fill, |cells| - pos)
  }

  /** Cells `start` to `end - 1` become `fill`. */
  function Filled(cells: seq<Cell>, start: nat, end: nat, fill: Cell): (r: seq<Cell>)
    ensures |r| == |cells|
  {
    if start >= end || start >= |cells| then cells
    else
      var stop := if end < |cells| then end else |cells|;
      cells[..start] + Repeat(fill, stop - start) + cells[stop..]
  }

  function Inserted(cells: seq<Cell>, pos: nat, n: nat, fill: Cell): (r: seq<Cell>)
    requires pos < |cells|
    ensures |r| == |cells|
  {
    Cut(Shifted(Cut(cells, pos - 1, fill), pos, n, fill), |cells| - 1, fill)
  }

  /** The second half of a wide character whose first half has gone is blanked too. */
  function Deleted(cells: seq<Cell>, pos: nat, n: nat, fill: Cell): (r: seq<Cell>)
    requires pos < |cells|
    ensures |r| == |cells|
  {
    var closed := Cut(Closed(cells, pos, n, fill), pos - 1, fill);
    if closed[pos].width == 0 && closed[pos].content == 0 then closed[pos := Blank(fill)] else closed
  }

  function Replaced(cells: seq<Cell>, start: nat, end: nat, fill: Cell): (r: seq<Cell>)
    ensures |r| == |cells|
  {
    var left := Cut(cells, start - 1, fill);
    var both := if 0 < end < |cells| && left[end - 1].width == 2 then left[end := Blank(fill)] else left;
    Filled(both, start, end, fill)
  }

  /** `getTrimmedLength()`: up to and including the last cell that shows something. */
  function Trimmed(cells: seq<Cell>): nat {
    if cells == [] then 0
    else
      var e := |cells| - 1;
      if cells[e].content != 0 then e + cells[e].width else Trimmed(cells[..e])
  }

  /** `n` cells of `src` from `from` on in place of those from `to` on. */
  function Copied(cells: seq<Cell>, src: seq<Cell>, from: nat, to: nat, n: nat): (r: seq<Cell>)
    requires from + n <= |src| && to + n <= |cells|
    ensures |r| == |cells|
  {
    cells[..to] + src[from..from + n] + cells[to + n..]
  }

  // ---------------------------------------------------------------- cell by cell

  /** A cell that stays becomes blank where it is wide and its second half goes. */
  function Unpaired(c: Cell, fill: Cell): Cell { if c.width == 2 then Cell(0, 1, fill.attr) else c }

  /** After an insertion: the cells before `pos`, a wide one next to it blanked; `n` of the fill; the cells
      from `pos` on, `n` further right. One that is wide in the last column is blanked. */
  lemma InsertedAt(cells: seq<Cell>, pos: nat, n: nat, fill: Cell, i: nat)
    requires pos < |cells| && i < |cells|
    ensures var c := if i < pos then cells[i] else if i < pos + n then fill else cells[i - n];
            Inserted(cells, pos, n, fill)[i] == if i + 1 == pos || i + 1 == |cells| then Unpaired(c, fill) else c
  {
    var left := Cut(cells, pos - 1, fill);
    assert i >= pos + n ==> left[i - n] == cells[i - n];
  }

  /** After a deletion: the cells before `pos`, a wide one next to it blanked; those from `pos + n` on, `n`
      further left, the first of them blanked where it is a second half that shows nothing; and the fill. */
  lemma DeletedAt(cells: seq<Cell>, pos: nat, n: nat, fill: Cell, i: nat)
    requires pos < |cells| && i < |cells|
    ensures var c := if i < pos then cells[i] else if i + n < |cells| then cells[i + n] else fill;
            Deleted(cells, pos, n, fill)[i]
            == if i + 1 == pos then Unpaired(c, fill)
               else if i == pos && c.width == 0 && c.content == 0 then Blank(fill)
               else c
  {
    var closed := Closed(cells, pos, n, fill);
    assert closed[i] == if i < pos then cells[i] else if i + n < |cells| then cells[i + n] else fill;
    assert closed[pos] == if pos + n < |cells| then cells[pos + n] else fill;
  }

  /** After a replacement: the fill from `start` to before `end`; a wide cell before `start` blanked, and the
      cell at `end` where the one before it is wide; all others as they were. */
  lemma ReplacedAt(cells: seq<Cell>, start: nat, end: nat, fill: Cell, i: nat)
    requires i < |cells|
    ensures Replaced(cells, start, end, fill)[i]
            == if start <= i < end then fill
               else if i + 1 == start then
                 if cells[i].width == 2 || (i == end > 0 && cells[i - 1].width == 2) then Blank(fill) else cells[i]
               else if i == end && end != start && end > 0 && cells[end - 1].width == 2 then Blank(fill)
               else cells[i]
  {
    var left := Cut(cells, start - 1, fill);
    var both := if 0 < end < |cells| && left[end - 1].width == 2 then left[end := Blank(fill)] else left;
    assert i < start || i >= end ==> Filled(both, start, end, fill)[i] == both[i];
  }

  // ---------------------------------------------------------------- what they keep

  /** A fill one column wide, as the null cell is. */
  lemma InsertedWhole(cells: seq<Cell>, pos: nat, n: nat, fill: Cell)
    requires Whole(cells) && pos < |cells| && fill.width == 1
    ensures Whole(Inserted(cells, pos, n, fill))
  {
    var left := Cut(cells, pos - 1, fill);
    var shifted := Shifted(left, pos, n, fill);
    forall i | 0 <= i < |cells| - 1 && shifted[i].width == 2
      ensures shifted[i + 1].width == 0
    {
      if i < pos {
        assert left[i].width == 2;
      } else {
        assert left[i - n].width == 2;
      }
    }
  }

  lemma DeletedWhole(cells: seq<Cell>, pos: nat, n: nat, fill: Cell)
    requires Whole(cells) && pos < |cells| && fill.width == 1
    ensures Whole(Deleted(cells, pos, n, fill))
  {
    var closed := Closed(cells, pos, n, fill);
    forall i | 0 <= i < |cells| && closed[i].width == 2 && i != pos - 1
      ensures i + 1 < |cells| && closed[i + 1].width == 0
    {
      if i < pos {
        assert cells[i].width == 2;
      } else {
        assert cells[i + n].width == 2;
      }
    }
  }

  /** A range whose end comes before its start replaces nothing, but the repair at its end then takes
      the second half of a wide character and leaves the first. */
  ghost predicate CutsBackwards(cells: seq<Cell>, start: nat, end: nat) {
    0 < end < start && end < |cells| && cells[end - 1].width == 2
  }

  lemma ReplacedWhole(cells: seq<Cell>, start: nat, end: nat, fill: Cell)
    requires Whole(cells) && fill.width == 1
    ensures Whole(Replaced(cells, start, end, fill)) <==> !CutsBackwards(cells, start, end)
  {
    if start <= end {
      ReplacedForwards(cells, start, end, fill);
    } else {
      CutWhole(cells, start - 1, fill);
      var replaced := Replaced(cells, start, end, fill);
      if CutsBackwards(cells, start, end) {
        assert replaced[end - 1].width == 2 && replaced[end].width == 1;
      } else {
        assert replaced == Cut(cells, start - 1, fill);
      }
    }
  }

  /** A wide character and one cell, and a replacement from 2 back to 1. */
  lemma CutsBackwardsAtInput(wide: Cell, half: Cell, last: Cell, fill: Cell)
    requires wide.width == 2 && half.width == 0 && last.width == 1
    ensures Whole([wide, half, last]) && Replaced([wide, half, last], 2, 1, fill) == [wide, Blank(fill), last]
    ensures !Whole(Replaced([wide, half, last], 2, 1, fill))
  {
    var cells := [wide, half, last];
    var replaced := Replaced(cells, 2, 1, fill);
    assert replaced[0].width == 2 && replaced[1].width == 1;
  }

  lemma CutWhole(cells: seq<Cell>, i: int, fill: Cell)
    requires Whole(cells)
    ensures Whole(Cut(cells, i, fill))
  {
    var cut := Cut(cells, i, fill);
    assert forall k | 0 <= k < |cells| && cut[k].width == 2 :: cells[k].width == 2;
  }

  lemma ReplacedForwards(cells: seq<Cell>, start: nat, end: nat, fill: Cell)
    requires Whole(cells) && fill.width == 1 && start <= end
    ensures Whole(Replaced(cells, start, end, fill))
  {
    var left := Cut(cells, start - 1, fill);
    CutWhole(cells, start - 1, fill);
    var both := if 0 < end < |cells| && left[end - 1].width == 2 then left[end := Blank(fill)] else left;
    var filled := Filled(both, start, end, fill);
    forall i | 0 <= i < |cells| && filled[i].width == 2
      ensures i + 1 < |cells| && filled[i + 1].width == 0
    {
      assert i < start || end < i || (i == end && both == left);
      assert left[i] == both[i] == filled[i];
      assert i + 1 != start;
      assert filled[i + 1] == both[i + 1] == left[i + 1];
    }
  }

  datatype Edit = Insert(pos: nat, n: nat, fill: Cell) | Delete(pos: nat, n: nat, fill: Cell)
                | Replace(start: nat, end: nat, fill: Cell)

  /** One edit of a row; a column past the end counts from the start again. */
  function Edited(cells: seq<Cell>, e: Edit): (r: seq<Cell>)
    requires cells != []
    ensures |r| == |cells|
  {
    match e
    case Insert(pos, n, fill) => Inserted(cells, pos % |cells|, n, fill)
    case Delete(pos, n, fill) => Deleted(cells, pos % |cells|, n, fill)
    case Replace(start, end, fill) => Replaced(cells, start, end, fill)
  }

  function EditedAll(cells: seq<Cell>, edits: seq<Edit>): (r: seq<Cell>)
    requires cells != []
    ensures |r| == |cells|
  {
    if edits == [] then cells else Edited(EditedAll(cells, edits[..|edits| - 1]), edits[|edits| - 1])
  }

  /** A fill one column wide, and no replacement backwards into a wide character of the row as it is. */
  ghost predicate Sound(cells: seq<Cell>, e: Edit) {
    e.fill.width == 1 && (e.Replace? ==> !CutsBackwards(cells, e.start, e.end))
  }

  /** No run of edits leaves half a wide character: each first half keeps its second half. */
  lemma {:induction false} RunsKeepWhole(cells: seq<Cell>, edits: seq<Edit>)
    requires cells != [] && Whole(cells)
    requires forall i :: 0 <= i < |edits| ==> Sound(EditedAll(cells, edits[..i]), edits[i])
    ensures Whole(EditedAll(cells, edits))
  {
    if edits != [] {
      var n := |edits| - 1;
      var front := edits[..n];
      forall i | 0 <= i < n
        ensures Sound(EditedAll(cells, front[..i]), front[i])
      {
        assert front[..i] == edits[..i];
      }
      RunsKeepWhole(cells, front);
      LastEditWhole(cells, edits, edits[n], EditedAll(cells, front));
    }
  }

  lemma LastEditWhole(cells: seq<Cell>, edits: seq<Edit>, last: Edit, before: seq<Cell>)
    requires cells != [] && edits != [] && last == edits[|edits| - 1]
    requires before == EditedAll(cells, edits[..|edits| - 1]) && before != [] && Whole(before) && Sound(before, last)
    ensures Whole(EditedAll(cells, edits))
  {
    EditedWhole(before, last);
  }

  lemma EditedWhole(cells: seq<Cell>, e: Edit)
    requires cells != [] && Whole(cells) && Sound(cells, e)
    ensures Whole(Edited(cells, e))
  {
    match e
    case Insert(pos, n, fill) => InsertedWhole(cells, pos % |cells|, n, fill);
    case Delete(pos, n, fill) => DeletedWhole(cells, pos % |cells|, n, fill);
    case Replace(start, end, fill) => ReplacedWhole(cells, start, end, fill);
  }

  // ---------------------------------------------------------------- the row

  class BufferLine {
    const data: array<Cell>
    var isWrapped: bool

    ghost function Cells(): seq<Cell>
      reads data
    {
      data[..]
    }

    constructor (cols: nat, fill: Cell, isWrapped: bool)
      ensures fresh(data) && Cells() == Repeat(fill, cols) && this.isWrapped == isWrapped
    {
      data := new Cell[cols](_ => fill);
      this.isWrapped := isWrapped;
    }

    /** `setCell(t, fill)` for `t` from `start` to `end - 1`. */
    method FillRange(start: nat, end: nat, fill: Cell)
      requires start <= end <= data.Length
      modifies data
      ensures Cells() == Filled(old(Cells()), start, end, fill)
      ensures forall k :: 0 <= k < data.Length ==> data[k] == if start <= k < end then fill else old(data[k])
    {
      for t := start to end
        invariant forall k :: 0 <= k < data.Length ==> data[k] == if start <= k < t then fill else old(data[k])
      {
        data[t] := fill;
      }
      assert forall k | 0 <= k < data.Length :: data[..][k] == Filled(old(data[..]), start, end, fill)[k];
    }

    /** The cells from `at` on go `n` to the right, last one first. */
    method MoveRight(at: nat, n: nat)
      requires at + n <= data.Length
      modifies data
      ensures data[..at] == old(data[..at]) && data[at + n..] == old(data[at..data.Length - n])
    {
      ghost var before, part := data[..], data[at..data.Length - n];
      CopyBackward(this, at, at + n, data.Length - at - n, part);
      PlacedIs(before, part, data[..], at + n);
    }

    /** The cells after the first `n` from `at` on go `n` to the left, first one first. */
    method MoveLeft(at: nat, n: nat)
      requires at + n <= data.Length
      modifies data
      ensures Cells()[..data.Length - n] == old(Cells())[..at] + old(Cells())[at + n..]
    {
      ghost var before, part := data[..], data[at + n..];
      CopyForward(this, at + n, at, data.Length - at - n, part);
      PlacedIs(before, part, data[..], at);
    }

    /** `setCellFromCodepoint(i, 0, 1, fill)` where a wide cell is; there is none outside the row. */
    method CutAt(i: int, fill: Cell)
      modifies data
      ensures Cells() == Cut(old(Cells()), i, fill)
    {
      if 0 <= i < data.Length && data[i].width == 2 {
        data[i] := Blank(fill);
      }
    }

    method GetTrimmedLength() returns (n: nat)
      ensures n == Trimmed(Cells())
    {
      assert data[..data.Length] == data[..];
      for e := data.Length downto 0
        invariant Trimmed(Cells()) == Trimmed(data[..e])
      {
        assert data[..e + 1][..e] == data[..e];
        if data[e].content != 0 {
          return e + data[e].width;
        }
      }
      return 0;
    }

    /** `copyCellsFrom(src, from, to, n, inReverse)`. Within one row the cells are still copied as they
        were when the direction is the one that the caller has to choose. */
    method CopyCellsFrom(src: BufferLine, from: nat, to: nat, n: nat, inReverse: bool)
      requires from + n <= src.data.Length && to + n <= data.Length
      requires src.data == data ==> if inReverse then from <= to else to <= from
      modifies data
      ensures Cells() == Copied(old(Cells()), old(src.Cells()), from, to, n)
    {
      ghost var part := src.data[from..from + n];
      if inReverse {
        CopyBackward(src, from, to, n, part);
      } else {
        CopyForward(src, from, to, n, part);
      }
      PlacedIs(old(data[..]), part, data[..], to);
    }

    method CopyOne(src: BufferLine, from: nat, to: nat)
      requires from < src.data.Length && to < data.Length
      modifies data
      ensures data[..] == old(data[..])[to := old(src.data[..])[from]]
      ensures src.data != data ==> src.data[..] == old(src.data[..])
    {
      data[to] := src.data[from];
    }

    method CopyForward(src: BufferLine, from: nat, to: nat, n: nat, ghost part: seq<Cell>)
      requires from + n <= src.data.Length && to + n <= data.Length && part == src.data[from..from + n]
      requires src.data == data ==> to <= from
      modifies data
      ensures IsPlaced(old(data[..]), part, data[..], to, 0, n)
    {
      ghost var before := data[..];
      for r := 0 to n
        invariant IsPlaced(before, part, data[..], to, 0, r)
        invariant forall k :: r <= k < n ==> src.data[from + k] == part[k]
      {
        ghost var r0 := data[..];
        CopyOne(src, from + r, to + r);
        PlacedAfter(before, part, r0, data[..], to, 0, r);
      }
    }

    method CopyBackward(src: BufferLine, from: nat, to: nat, n: nat, ghost part: seq<Cell>)
      requires from + n <= src.data.Length && to + n <= data.Length && part == src.data[from..from + n]
      requires src.data == data ==> from <= to
      modifies data
      ensures IsPlaced(old(data[..]), part, data[..], to, 0, n)
    {
      ghost var before := data[..];
      for r := n downto 0
        invariant IsPlaced(before, part, data[..], to, r, n)
        invariant forall k :: 0 <= k < r ==> src.data[from + k] == part[k]
      {
        ghost var r0 := data[..];
        CopyOne(src, from + r, to + r);
        PlacedBefore(before, part, r0, data[..], to, r + 1, n);
      }
    }

    method InsertCells(pos: nat, n: nat, fill: Cell)
      requires data.Length > 0
      modifies data
      ensures Cells() == Inserted(old(Cells()), pos % data.Length, n, fill)
    {
      InsertAt(pos % data.Length, n, fill);
    }

    method InsertAt(at: nat, n: nat, fill: Cell)
      requires at < data.Length
      modifies data
      ensures Cells() == Inserted(old(Cells()), at, n, fill)
    {
      CutAt(at - 1, fill);
      ShiftIn(at, n, fill);
      CutAt(data.Length - 1, fill);
    }

    method ShiftIn(at: nat, n: nat, fill: Cell)
      requires at < data.Length
      modifies data
      ensures Cells() == Shifted(old(Cells()), at, n, fill)
    {
      ghost var left := data[..];
      if n < data.Length - at {
        MoveRight(at, n);
        ShiftedIs(left, data[..], at, n, fill);
        FillRange(at, at + n, fill);
      } else {
        ShiftedOut(left, at, n, fill);
        FillRange(at, data.Length, fill);
      }
    }

    method DeleteCells(pos: nat, n: nat, fill: Cell)
      requires data.Length > 0
      modifies data
      ensures Cells() == Deleted(old(Cells()), pos % data.Length, n, fill)
    {
      ghost var before := data[..];
      var at := pos % data.Length;
      if n < data.Length - at {
        MoveLeft(at, n);
        FillRange(data.Length - n, data.Length, fill);
      } else {
        FillRange(at, data.Length, fill);
      }
      ClosedIs(before, data[..], at, n, fill);
      CutAt(at - 1, fill);
      BlankHalf(at, fill);
    }

    /** A second half without the first. */
    method BlankHalf(at: nat, fill: Cell)
      requires at < data.Length
      modifies data
      ensures Cells() == if old(data[at].width == 0 && data[at].content == 0) then old(Cells())[at := Blank(fill)]
                         else old(Cells())
    {
      if data[at].width == 0 && data[at].content == 0 {
        data[at] := Blank(fill);
      }
    }

    /** `replaceCells` without protection. */
    method ReplaceCells(start: nat, end: nat, fill: Cell)
      modifies data
      ensures Cells() == Replaced(old(Cells()), start, end, fill)
    {
      CutAt(start - 1, fill);
      if 0 < end < data.Length && data[end - 1].width == 2 {
        data[end] := Blank(fill);
      }
      if start < end && start < data.Length {
        FillRange(start, if end < data.Length then end else data.Length, fill);
      }
    }
  }

  /** Cells `lo` to `hi - 1` of `part` are in place from `to` on. */
  ghost predicate IsPlaced(cells: seq<Cell>, part: seq<Cell>, r: seq<Cell>, to: nat, lo: nat, hi: nat)
    requires lo <= hi <= |part| && to + |part| <= |cells|
  {
    |r| == |cells| && forall k :: 0 <= k < |r| ==> r[k] == if to + lo <= k < to + hi then part[k - to] else cells[k]
  }

  lemma PlacedAfter(cells: seq<Cell>, part: seq<Cell>, r: seq<Cell>, r': seq<Cell>, to: nat, lo: nat, hi: nat)
    requires lo <= hi < |part| && to + |part| <= |cells| && IsPlaced(cells, part, r, to, lo, hi)
    requires r' == r[to + hi := part[hi]]
    ensures IsPlaced(cells, part, r', to, lo, hi + 1)
  {
  }

  lemma PlacedBefore(cells: seq<Cell>, part: seq<Cell>, r: seq<Cell>, r': seq<Cell>, to: nat, lo: nat, hi: nat)
    requires 0 < lo <= hi <= |part| && to + |part| <= |cells| && IsPlaced(cells, part, r, to, lo, hi)
    requires r' == r[to + lo - 1 := part[lo - 1]]
    ensures IsPlaced(cells, part, r', to, lo - 1, hi)
  {
  }

  lemma PlacedIs(cells: seq<Cell>, part: seq<Cell>, r: seq<Cell>, to: nat)
    requires to + |part| <= |cells| && IsPlaced(cells, part, r, to, 0, |part|)
    ensures r == cells[..to] + part + cells[to + |part|..]
  {
  }

  lemma ShiftedIs(left: seq<Cell>, moved: seq<Cell>, at: nat, n: nat, fill: Cell)
    requires at + n <= |left| == |moved|
    requires moved[at + n..] == left[at..|left| - n] && moved[..at] == left[..at]
    ensures Filled(moved, at, at + n, fill) == Shifted(left, at, n, fill)
  {
    assert n > 0 ==> Filled(moved, at, at + n, fill) == left[..at] + Repeat(fill, n) + left[at..|left| - n];
    assert Shifted(left, at, n, fill) == left[..at] + Repeat(fill, n) + left[at..|left| - n];
  }

  lemma ShiftedOut(left: seq<Cell>, at: nat, n: nat, fill: Cell)
    requires at <= |left| <= at + n
    ensures Filled(left, at, |left|, fill) == Shifted(left, at, n, fill)
  {
    assert Repeat(fill, n)[..|left| - at] == Repeat(fill, |left| - at);
  }

  lemma ClosedIs(before: seq<Cell>, cells: seq<Cell>, at: nat, n: nat, fill: Cell)
    requires at <= |before| == |cells|
    requires n < |cells| - at ==> cells[..|cells| - n] == before[..at] + before[at + n..]
    requires n >= |cells| - at ==> cells[..at] == before[..at]
    requires forall k :: at <= k < |cells| && |cells| <= k + n ==> cells[k] == fill
    ensures cells == Closed(before, at, n, fill)
  {
    var closed := Closed(before, at, n, fill);
    forall k | 0 <= k < |cells|
      ensures cells[k] == closed[k]
    {
      if n < |cells| - at {
        if k < |cells| - n {
          assert cells[k] == cells[..|cells| - n][k];
        } else {
          assert closed[k] == Repeat(fill, n)[k - (|cells| - n)];
        }
      } else if k < at {
        assert cells[k] == cells[..at][k];
      } else {
        assert closed[k] == Repeat(fill, |cells| - at)[k - at];
      }
    }
  }
}
