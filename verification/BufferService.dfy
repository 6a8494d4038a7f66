/** Scrolling (xterm.js module 744): new lines enter the scroll region of the screen, lines that
    leave the top of the screen become scrollback, and the view stays put for a user who has
    scrolled back. */
module BufferService {
  import opened CL = CircularList

  // ---------------------------------------------------------------- what scrolling means

  /** Scrollback, screen, the line of the buffer that the view starts at, and whether the user has
      scrolled back. */
  datatype View<T> = View(history: seq<T>, screen: seq<T>, ydisp: nat, userScrolling: bool)

  function Lines<T>(v: View<T>): seq<T> { v.history + v.screen }

  /** The view starts in the scrollback exactly while the user is scrolling. */
  predicate Ok<T>(v: View<T>, max: nat) {
    && v.screen != []
    && |v.history| + |v.screen| <= max
    && v.ydisp <= |v.history|
    && (v.userScrolling <==> v.ydisp < |v.history|)
  }

  /** Rows `top` to `bottom` move up by one and `line` comes in below them. */
  function RegionUp<T>(screen: seq<T>, top: nat, bottom: nat, line: T): (r: seq<T>)
    requires top <= bottom < |screen|
    ensures |r| == |screen|
  {
    screen[..top] + screen[top + 1..bottom + 1] + [line] + screen[bottom + 1..]
  }

  /** Whether a scroll pushes the oldest line out. */
  predicate Drops<T>(v: View<T>, max: nat, top: nat) { top == 0 && |v.history| + |v.screen| == max }

  function Scrolled<T>(v: View<T>, max: nat, top: nat, bottom: nat, line: T): (r: View<T>)
    requires Ok(v, max) && top <= bottom < |v.screen|
    ensures Ok(r, max) && |r.screen| == |v.screen|
  {
    var history := if top == 0 then Newest(v.history + [v.screen[0]], max - |v.screen|) else v.history;
    View(history,
         RegionUp(v.screen, top, bottom, line),
         if !v.userScrolling then |history|
         else if Drops(v, max, top) && v.ydisp > 0 then v.ydisp - 1
         else v.ydisp,
         v.userScrolling)
  }

  function Bounded(x: int, max: nat): nat { if x < 0 then 0 else if x > max then max else x }

  function LinesScrolled<T>(v: View<T>, max: nat, amount: int): (r: View<T>)
    requires Ok(v, max)
    ensures Ok(r, max)
  {
    var ydisp := Bounded(v.ydisp + amount, |v.history|);
    v.(ydisp := ydisp, userScrolling := ydisp < |v.history|)
  }

  // ---------------------------------------------------------------- runs

  datatype Op<T> = Scroll(top: nat, bottom: nat, line: T) | ScrollLines(amount: int)

  predicate Fits<T>(op: Op<T>, rows: nat) { op.Scroll? ==> op.top <= op.bottom < rows }

  function Apply<T>(v: View<T>, max: nat, op: Op<T>): (r: View<T>)
    requires Ok(v, max) && Fits(op, |v.screen|)
    ensures Ok(r, max) && |r.screen| == |v.screen|
  {
    match op
    case Scroll(top, bottom, line) => Scrolled(v, max, top, bottom, line)
    case ScrollLines(amount) => LinesScrolled(v, max, amount)
  }

  /** Every run keeps the buffer in order: a full screen, the view within the buffer, and the view
      at the bottom unless the user is scrolling. */
  function Run<T>(v: View<T>, max: nat, ops: seq<Op<T>>): (r: View<T>)
    requires Ok(v, max) && forall i :: 0 <= i < |ops| ==> Fits(ops[i], |v.screen|)
    ensures Ok(r, max) && |r.screen| == |v.screen|
  {
    if ops == [] then v else Apply(Run(v, max, ops[..|ops| - 1]), max, ops[|ops| - 1])
  }

  /** How many lines a run of output pushes out of the buffer. */
  function Dropped<T>(v: View<T>, max: nat, ops: seq<Op<T>>): nat
    requires Ok(v, max) && forall i :: 0 <= i < |ops| ==> Fits(ops[i], |v.screen|)
  {
    if ops == [] then 0
    else
      var front := ops[..|ops| - 1];
      var op := ops[|ops| - 1];
      Dropped(v, max, front) + if op.Scroll? && Drops(Run(v, max, front), max, op.top) then 1 else 0
  }

  /** While the user has scrolled back, one line of output leaves the line at the top of the view
      where it is, unless it is the oldest line and is pushed out. */
  lemma ViewStaysOnce<T>(v: View<T>, max: nat, top: nat, bottom: nat, line: T)
    requires Ok(v, max) && v.userScrolling && top <= bottom < |v.screen|
    ensures var r := Scrolled(v, max, top, bottom, line);
            && r.userScrolling
            && (if Drops(v, max, top)
                then v.ydisp > 0 ==> r.ydisp == v.ydisp - 1 && Lines(r)[r.ydisp] == Lines(v)[v.ydisp]
                else r.ydisp == v.ydisp && Lines(r)[r.ydisp] == Lines(v)[v.ydisp])
            && (v.ydisp == 0 ==> r.ydisp == 0)
  {
  }

  /** In every run, from any moment `n` on at which the user has scrolled back: until the user scrolls
      again, whatever is output, the line at the top of the view stays there until it is itself pushed
      out; from then on the view shows the oldest line. */
  lemma {:induction false} ViewStays<T>(v: View<T>, max: nat, ops: seq<Op<T>>, n: nat)
    requires Ok(v, max) && forall i :: 0 <= i < |ops| ==> Fits(ops[i], |v.screen|)
    requires n <= |ops| && Run(v, max, ops[..n]).userScrolling && forall i :: n <= i < |ops| ==> ops[i].Scroll?
    ensures var u, r := Run(v, max, ops[..n]), Run(v, max, ops);
            var dropped := Dropped(v, max, ops) - Dropped(v, max, ops[..n]);
            && dropped >= 0 && r.userScrolling
            && (dropped <= u.ydisp ==> r.ydisp == u.ydisp - dropped && Lines(r)[r.ydisp] == Lines(u)[u.ydisp])
            && (dropped > u.ydisp ==> r.ydisp == 0)
    decreases |ops|
  {
    if n == |ops| {
      assert ops[..n] == ops;
    } else {
      var front, op := ops[..|ops| - 1], ops[|ops| - 1];
      assert front[..n] == ops[..n];
      ViewStays(v, max, front, n);
      ViewStaysOnce(Run(v, max, front), max, op.top, op.bottom, op.line);
    }
  }

  /** Scrollback is only added to at its near end and forgotten at its far end, and only lines that
      leave the top of the screen enter it. */
  lemma HistoryGrows<T>(v: View<T>, max: nat, top: nat, bottom: nat, line: T)
    requires Ok(v, max) && top <= bottom < |v.screen|
    ensures var r := Scrolled(v, max, top, bottom, line);
            v.history + (if top == 0 then [v.screen[0]] else [])
            == (if Drops(v, max, top) then [Lines(v)[0]] else []) + r.history
  {
    var whole := v.history + [v.screen[0]];
    if Drops(v, max, top) {
      assert whole == [whole[0]] + whole[1..];
    }
  }

  /** The rows of the scroll region move up by one, the new line comes in at its bottom, and no other row
      of the screen changes. */
  lemma RegionScrolls<T>(v: View<T>, max: nat, top: nat, bottom: nat, line: T, i: nat)
    requires Ok(v, max) && top <= bottom < |v.screen| && i < |v.screen|
    ensures Scrolled(v, max, top, bottom, line).screen[i]
            == if top <= i < bottom then v.screen[i + 1] else if i == bottom then line else v.screen[i]
  {
  }

  /** Scrolling the view by `amount` lines shows what is that much further down, as far as there is
      anything: not past the oldest line, nor past the screen. The buffer stays as it is. */
  lemma ScrolledViewShows<T>(v: View<T>, max: nat, amount: int)
    requires Ok(v, max)
    ensures var r := LinesScrolled(v, max, amount);
            && r.history == v.history && r.screen == v.screen
            && (0 <= v.ydisp + amount <= |v.history| ==> Lines(r)[r.ydisp..] == Lines(v)[v.ydisp + amount..])
            && (v.ydisp + amount < 0 ==> Lines(r)[r.ydisp..] == Lines(v))
            && (v.ydisp + amount >= |v.history| ==> Lines(r)[r.ydisp..] == v.screen && !r.userScrolling)
            && (v.ydisp + amount < |v.history| ==> r.userScrolling || v.history == [])
  {
    SplitLines(v);
  }

  lemma NewestAppend<T>(a: seq<T>, b: seq<T>, max: nat, ab: seq<T>)
    requires |b| <= max && ab == a + b
    ensures Newest(ab, max) == Newest(a, max - |b|) + b
  {
  }

  lemma WholeScrolled<T>(v: View<T>, max: nat, bottom: nat, line: T, lines: seq<T>, row: nat, r: View<T>)
    requires Ok(v, max) && bottom < |v.screen| && lines == Lines(v) && row == |v.history| + bottom + 1
    requires r == Scrolled(v, max, 0, bottom, line)
    ensures Newest(With(lines, row, [line]), max) == Lines(r)
    ensures |r.history| == |v.history| + (if Drops(v, max, 0) then 0 else 1)
  {
    var history, screen := v.history + [v.screen[0]], RegionUp(v.screen, 0, bottom, line);
    var inserted := With(lines, row, [line]);
    InsertedLine(v.history, v.screen, bottom, line, lines, row, inserted, history, screen);
    NewestAppend(history, screen, max, inserted);
    assert r.screen == screen && r.history == Newest(history, max - |screen|);
  }

  lemma InsertedLine<T>(history: seq<T>, screen: seq<T>, bottom: nat, line: T, all: seq<T>, row: nat,
                        inserted: seq<T>, history': seq<T>, screen': seq<T>)
    requires bottom < |screen| && all == history + screen && row == |history| + bottom + 1
    requires inserted == With(all, row, [line])
    requires history' == history + [screen[0]] && screen' == RegionUp(screen, 0, bottom, line)
    ensures inserted == history' + screen'
  {
    assert all[..row] == history' + screen[1..bottom + 1];
    assert all[row..] == screen[bottom + 1..];
  }

  lemma SplitLines<T>(v: View<T>)
    ensures Lines(v)[..|v.history|] == v.history && Lines(v)[|v.history|..] == v.screen
  {
  }

  lemma RegionScrolled<T>(v: View<T>, max: nat, top: nat, bottom: nat, line: T, row: nat, n: nat,
                          after: seq<T>, r: View<T>)
    requires Ok(v, max) && 0 < top <= bottom < |v.screen| && row == |v.history| + top && n == bottom - top
    requires IsMovedUp(Lines(v), row, n, line, after) && r == Scrolled(v, max, top, bottom, line)
    ensures after == Lines(r)
  {
    MovedUpByOne(v.history, v.screen, Lines(v), top, bottom, row, n, line, after);
  }

  /** `n` elements after `row` go one place down the list, and `line` comes in behind them. */
  ghost predicate IsMovedUp<T>(lines: seq<T>, row: nat, n: nat, line: T, after: seq<T>) {
    row > 0 && row + n < |lines| && after == (if n > 0 then Moved(lines, row + 1, n, -1) else lines)[row + n := line]
  }

  lemma MovedUpByOne<T>(history: seq<T>, screen: seq<T>, lines: seq<T>, top: nat, bottom: nat, row: nat, n: nat,
                        line: T, moved: seq<T>)
    requires top <= bottom < |screen| && n == bottom - top && row == |history| + top && lines == history + screen
    requires IsMovedUp(lines, row, n, line, moved)
    ensures moved == history + RegionUp(screen, top, bottom, line)
  {
    MovedUpParts(lines, row, n, line, moved);
    SliceOfBoth(history, screen, lines, top + 1, bottom + 1);
    SliceOfBoth(history, screen, lines, bottom + 1, |screen|);
    FrontOfBoth(history, screen, lines, top);
    PartsUp(history, screen, top, bottom, line, lines[..row], lines[row + 1..row + 1 + n], lines[row + 1 + n..]);
  }

  lemma PartsUp<T>(history: seq<T>, screen: seq<T>, top: nat, bottom: nat, line: T, a: seq<T>, b: seq<T>, d: seq<T>)
    requires top <= bottom < |screen|
    requires a == history + screen[..top] && b == screen[top + 1..bottom + 1] && d == screen[bottom + 1..]
    ensures a + b + [line] + d == history + RegionUp(screen, top, bottom, line)
  {
    Regroup(history, screen[..top], b, [line], d);
  }

  lemma FrontOfBoth<T>(a: seq<T>, b: seq<T>, ab: seq<T>, to: nat)
    requires ab == a + b && to <= |b|
    ensures ab[..|a| + to] == a + b[..to]
  {
  }

  lemma Regroup<T>(h: seq<T>, a: seq<T>, b: seq<T>, c: seq<T>, d: seq<T>)
    ensures h + a + b + c + d == h + (a + b + c + d)
  {
  }

  lemma MovedUpParts<T>(lines: seq<T>, row: nat, n: nat, line: T, moved: seq<T>)
    requires IsMovedUp(lines, row, n, line, moved)
    ensures moved == lines[..row] + lines[row + 1..row + 1 + n] + [line] + lines[row + 1 + n..]
  {
  }

  lemma SliceOfBoth<T>(a: seq<T>, b: seq<T>, ab: seq<T>, from: nat, to: nat)
    requires ab == a + b && from <= to <= |b|
    ensures ab[|a| + from..|a| + to] == b[from..to]
  {
  }

  // ---------------------------------------------------------------- the service

  class BufferService<T(0)> {
    const rows: nat
    const lines: CircularList<T>
    var ybase: nat
    var ydisp: nat
    var scrollTop: nat
    var scrollBottom: nat
    var isUserScrolling: bool

    ghost predicate Valid()
      reads this, lines, lines.array_
    {
      && lines.Valid()
      && lines.length == ybase + rows
      && scrollTop <= scrollBottom < rows
      && Ok(Meaning(), lines.MaxLength())
    }

    ghost function Meaning(): View<T>
      requires lines.Valid() && lines.length == ybase + rows
      reads this, lines, lines.array_
    {
      View(lines.Contents()[..ybase], lines.Contents()[ybase..], ydisp, isUserScrolling)
    }

    /** `Valid` with its meaning given. */
    ghost predicate Shows(v: View<T>)
      reads this, lines, lines.array_
    {
      && lines.Valid() && Ok(v, lines.MaxLength())
      && lines.Contents() == Lines(v)
      && rows == |v.screen| && scrollTop <= scrollBottom < rows
      && ybase == |v.history| && ydisp == v.ydisp && isUserScrolling == v.userScrolling
    }

    /** A buffer with a screen of `rows` lines and no scrollback yet. */
    constructor (rows: nat, maxLength: nat, blank: T)
      requires 0 < rows <= maxLength
      ensures Valid() && fresh(lines) && fresh(lines.array_)
      ensures lines.MaxLength() == maxLength && ybase == 0 && ydisp == 0 && !isUserScrolling
      ensures scrollTop == 0 && scrollBottom == rows - 1
    {
      this.rows := rows;
      var list := new CircularList<T>(maxLength);
      for i := 0 to rows
        invariant list.Valid() && list.MaxLength() == maxLength && list.length == i
        invariant fresh(list) && fresh(list.array_)
      {
        list.Push(blank);
      }
      lines := list;
      ybase, ydisp, scrollTop, scrollBottom, isUserScrolling := 0, 0, 0, rows - 1, false;
    }

    /** `scroll(eraseAttr)`; `line` is the blank line that comes in. */
    method Scroll(line: T)
      requires Valid()
      modifies this`ybase, this`ydisp, lines, lines.array_
      ensures Valid() && lines.MaxLength() == old(lines.MaxLength())
      ensures Meaning() == Scrolled(old(Meaning()), lines.MaxLength(), scrollTop, scrollBottom, line)
    {
      ghost var v := Meaning();
      ghost var r := Scrolled(v, lines.MaxLength(), scrollTop, scrollBottom, line);
      assert Shows(v);
      if scrollTop == 0 {
        ScrollWhole(line, v, r);
      } else {
        ScrollRegion(line, v, r);
      }
      if !isUserScrolling {
        ydisp := ybase;
      }
      assert Shows(r);
      ShowsMeaning(r);
    }

    lemma ShowsMeaning(r: View<T>)
      requires Shows(r)
      ensures Valid() && Meaning() == r
    {
      SplitLines(r);
    }

    method ScrollWhole(line: T, ghost v: View<T>, ghost r: View<T>)
      requires scrollTop == 0 && Shows(v)
      requires r == Scrolled(v, lines.MaxLength(), scrollTop, scrollBottom, line)
      modifies this`ybase, this`ydisp, lines, lines.array_
      ensures lines.Valid() && lines.MaxLength() == old(lines.MaxLength())
      ensures lines.Contents() == Lines(r)
      ensures ybase == |r.history| && (isUserScrolling ==> ydisp == r.ydisp)
    {
      WholeScrolled(v, lines.MaxLength(), scrollBottom, line, lines.Contents(), ybase + scrollBottom + 1, r);
      var full := lines.length == lines.MaxLength();
      assert |r.history| == if full then ybase else ybase + 1;
      Insert(ybase + scrollBottom, line, Lines(r));
      if !full {
        ybase := ybase + 1;
        if !isUserScrolling {
          ydisp := ydisp + 1;
        }
      } else if isUserScrolling {
        ydisp := if ydisp - 1 > 0 then ydisp - 1 else 0;
      }
    }

    method ScrollRegion(line: T, ghost v: View<T>, ghost r: View<T>)
      requires scrollTop > 0 && Shows(v)
      requires r == Scrolled(v, lines.MaxLength(), scrollTop, scrollBottom, line)
      modifies lines.array_
      ensures lines.Valid()
      ensures lines.Contents() == Lines(r)
    {
      var topRow := ybase + scrollTop;
      var bottomRow := ybase + scrollBottom;
      var count := bottomRow - topRow + 1;
      MoveUp(topRow, count - 1, line);
      RegionScrolled(v, lines.MaxLength(), scrollTop, scrollBottom, line, topRow, count - 1, lines.Contents(), r);
    }

    method MoveUp(row: nat, n: nat, line: T)
      requires lines.Valid() && 0 < row && row + n < lines.length
      modifies lines.array_
      ensures lines.Valid() && IsMovedUp(old(lines.Contents()), row, n, line, lines.Contents())
    {
      var _ := lines.ShiftElements(row + 1, n, -1);
      lines.Set(row + n, line);
    }

    /** A line comes in below `row`; a full buffer drops its oldest. */
    method Insert(row: nat, line: T, ghost after: seq<T>)
      requires lines.Valid() && row < lines.length
      requires after == Newest(With(lines.Contents(), row + 1, [line]), lines.MaxLength())
      modifies lines, lines.array_
      ensures lines.Valid() && lines.MaxLength() == old(lines.MaxLength()) && lines.array_ == old(lines.array_)
      ensures lines.Contents() == after
    {
      ghost var all := lines.Contents();
      if row == lines.length - 1 {
        assert With(all, row + 1, [line]) == all + [line];
        if lines.length == lines.MaxLength() {
          var _ := lines.Recycle();
          lines.Set(lines.length - 1, line);
          assert lines.Contents() == all[1..] + [line] == (all + [line])[1..];
        } else {
          lines.Push(line);
        }
      } else {
        assert Removed(all, row + 1, 0) == all;
        lines.Splice(row + 1, 0, [line]);
      }
    }

    /** `scrollLines(amount)`. */
    method ScrollLines(amount: int)
      requires Valid()
      modifies this`ydisp, this`isUserScrolling
      ensures Valid()
      ensures Meaning() == LinesScrolled(old(Meaning()), lines.MaxLength(), amount)
    {
      if amount < 0 {
        if ydisp == 0 {
          return;
        }
        isUserScrolling := true;
      } else if amount + ydisp >= ybase {
        isUserScrolling := false;
      }
      var wanted := if ydisp + amount < ybase then ydisp + amount else ybase;
      ydisp := if wanted > 0 then wanted else 0;
    }
  }
}
