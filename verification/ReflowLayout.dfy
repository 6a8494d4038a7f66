/** Taking rows out of the list of lines (xterm.js module 4634): which are kept, what the markers are
    told, and the list afterwards. */
module ReflowLayout {
  import opened CL = CircularList
  import M = Markers

  /** `count` rows from `start` on; two numbers, one after the other, in the source's array. */
  datatype Removal = Removal(start: nat, count: nat)

  ghost predicate Ordered(toRemove: seq<Removal>, n: nat) {
    (forall k :: 0 <= k < |toRemove| ==> toRemove[k].count > 0 && toRemove[k].start + toRemove[k].count <= n)
    && (forall a, b :: 0 <= a < b < |toRemove| ==> toRemove[a].start + toRemove[a].count <= toRemove[b].start)
  }

  ghost predicate Takes(r: Removal, i: nat) { r.start <= i < r.start + r.count }

  ghost predicate IsRemoved(toRemove: seq<Removal>, i: nat) {
    exists k :: 0 <= k < |toRemove| && Takes(toRemove[k], i)
  }

  /** The rows below `n` that stay, in order. */
  ghost function Kept(toRemove: seq<Removal>, n: nat): (r: seq<nat>)
    ensures |r| <= n && forall k :: 0 <= k < |r| ==> r[k] < n
  {
    if n == 0 then [] else Kept(toRemove, n - 1) + if IsRemoved(toRemove, n - 1) then [] else [n - 1]
  }

  ghost function Select<T>(lines: seq<T>, layout: seq<nat>): seq<T>
    requires forall k :: 0 <= k < |layout| ==> layout[k] < |lines|
  {
    seq(|layout|, k requires 0 <= k < |layout| => lines[layout[k]])
  }

  /** The deletions that listeners hear of, carried out one after the other. */
  ghost function Edited<T>(lines: seq<T>, events: seq<Event>): seq<T> {
    if events == [] then lines
    else
      var lines', e := Edited(lines, events[..|events| - 1]), events[|events| - 1];
      if e.Deleted? && e.index + e.amount <= |lines'| then Removed(lines', e.index, e.amount) else lines'
  }

  ghost predicate Sound<T>(lines: seq<T>, events: seq<Event>) {
    events != [] ==>
      var before, e := events[..|events| - 1], events[|events| - 1];
      Sound(lines, before) && e.Deleted? && 0 < e.amount && e.index + e.amount <= |Edited(lines, before)|
  }

  /** A marker that hears the deletions follows its line through them. */
  lemma {:induction false} FollowsEdited<T>(m: M.Mark, target: T, lines: seq<T>, events: seq<Event>)
    requires M.Follows(m, target, lines) && M.Distinct(lines) && Sound(lines, events)
    ensures M.Follows(M.HearAll(m, events), target, Edited(lines, events)) && M.Distinct(Edited(lines, events))
  {
    if events != [] {
      var before, e := events[..|events| - 1], events[|events| - 1];
      FollowsEdited(m, target, lines, before);
      M.FollowsDelete(M.HearAll(m, before), target, Edited(lines, before), e.index, e.amount);
    }
  }

  // ---------------------------------------------------------------- the new layout

  lemma SelectMore<T>(rows: seq<T>, kept: seq<nat>, i: nat)
    requires i < |rows| && forall k :: 0 <= k < |kept| ==> kept[k] < |rows|
    ensures Select(rows, kept + [i]) == Select(rows, kept) + [rows[i]]
  {
  }

  lemma SliceMore<T>(rows: seq<T>, a: nat, b: nat, before: seq<T>)
    requires a < b <= |rows|
    ensures before + rows[a..b] == before + rows[a..b - 1] + [rows[b - 1]]
  {
  }

  lemma {:induction false} KeptRange<T>(rows: seq<T>, toRemove: seq<Removal>, a: nat, b: nat)
    requires a <= b <= |rows| && forall i :: a <= i < b ==> !IsRemoved(toRemove, i)
    ensures Select(rows, Kept(toRemove, b)) == Select(rows, Kept(toRemove, a)) + rows[a..b]
  {
    if a < b {
      KeptRange(rows, toRemove, a, b - 1);
      SelectMore(rows, Kept(toRemove, b - 1), b - 1);
      SliceMore(rows, a, b, Select(rows, Kept(toRemove, a)));
    }
  }

  /** Removals from `n` on say nothing about the rows below `n`. */
  lemma {:induction false} KeptBelow(toRemove: seq<Removal>, more: seq<Removal>, n: nat)
    requires forall k :: 0 <= k < |more| ==> n <= more[k].start
    ensures Kept(toRemove + more, n) == Kept(toRemove, n)
  {
    if n > 0 {
      KeptBelow(toRemove, more, n - 1);
      var all := toRemove + more;
      if IsRemoved(toRemove, n - 1) {
        var k :| 0 <= k < |toRemove| && Takes(toRemove[k], n - 1);
        assert Takes(all[k], n - 1);
      }
      if IsRemoved(all, n - 1) {
        var k :| 0 <= k < |all| && Takes(all[k], n - 1);
        assert Takes(toRemove[k], n - 1);
      }
    }
  }

  lemma {:induction false} KeptBlock(toRemove: seq<Removal>, k: nat, c: nat)
    requires k < |toRemove| && c <= toRemove[k].count
    ensures Kept(toRemove, toRemove[k].start + c) == Kept(toRemove, toRemove[k].start)
  {
    if c > 0 {
      KeptBlock(toRemove, k, c - 1);
      assert Takes(toRemove[k], toRemove[k].start + c - 1);
    }
  }

  /** One more block of rows, of which those from `stays` on go. */
  lemma KeptPiece<T>(rows: seq<T>, above: seq<Removal>, more: seq<Removal>, first: nat, stays: nat, n: nat)
    requires first <= stays <= n <= |rows| && Ordered(above, first)
    requires more == if stays < n then [Removal(stays, n - stays)] else []
    ensures Select(rows, Kept(above + more, n)) == Select(rows, Kept(above, first)) + rows[first..stays]
  {
    var all := above + more;
    KeptBelow(above, more, first);
    forall i | first <= i < stays ensures !IsRemoved(all, i) {
      assert forall k :: 0 <= k < |above| ==> !Takes(above[k], i);
    }
    KeptRange(rows, all, first, stays);
    if stays < n {
      KeptBlock(all, |above|, n - stays);
    }
  }

  /** How far `reflowLargerCreateNewLayout` has come at row `i`: `next` removals have been met. */
  ghost predicate Scanned(toRemove: seq<Removal>, n: nat, i: nat, next: nat, removed: nat, layout: seq<nat>) {
    Ordered(toRemove, n) && i <= n && next <= |toRemove|
    && (forall k :: 0 <= k < next ==> toRemove[k].start + toRemove[k].count <= i)
    && (forall k :: next <= k < |toRemove| ==> i <= toRemove[k].start)
    && layout == Kept(toRemove, i) && |layout| + removed == i
  }

  lemma KeepsRow(toRemove: seq<Removal>, n: nat, i: nat, next: nat, removed: nat, layout: seq<nat>)
    requires Scanned(toRemove, n, i, next, removed, layout) && i < n
    requires next < |toRemove| ==> toRemove[next].start != i
    ensures Scanned(toRemove, n, i + 1, next, removed, layout + [i])
  {
  }

  lemma RemovesRows(toRemove: seq<Removal>, n: nat, i: nat, next: nat, removed: nat, layout: seq<nat>)
    requires Scanned(toRemove, n, i, next, removed, layout) && next < |toRemove| && toRemove[next].start == i
    ensures var c := toRemove[next].count;
            Scanned(toRemove, n, i + c, next + 1, removed + c, layout)
  {
    KeptBlock(toRemove, next, toRemove[next].count);
  }

  /** The events so far turn the rows into those kept so far and those not looked at yet. */
  ghost predicate Told<T>(lines: seq<T>, i: nat, layout: seq<nat>, events: seq<Event>)
    requires i <= |lines| && forall k :: 0 <= k < |layout| ==> layout[k] < |lines|
  {
    Sound(lines, events) && Edited(lines, events) == Select(lines, layout) + lines[i..]
  }

  lemma ToldKept<T>(lines: seq<T>, i: nat, layout: seq<nat>, events: seq<Event>)
    requires i < |lines| && forall k :: 0 <= k < |layout| ==> layout[k] < |lines|
    requires Told(lines, i, layout, events)
    ensures Told(lines, i + 1, layout + [i], events)
  {
    assert Select(lines, layout + [i]) == Select(lines, layout) + [lines[i]];
    assert lines[i..] == [lines[i]] + lines[i + 1..];
  }

  lemma ToldRemoved<T>(lines: seq<T>, i: nat, layout: seq<nat>, events: seq<Event>, c: nat)
    requires 0 < c && i + c <= |lines| && forall k :: 0 <= k < |layout| ==> layout[k] < |lines|
    requires Told(lines, i, layout, events)
    ensures Told(lines, i + c, layout, events + [Deleted(|layout|, c)])
  {
    var e := Deleted(|layout|, c);
    assert (events + [e])[..|events|] == events;
    var kept, rest := Select(lines, layout), lines[i..];
    assert rest[c..] == lines[i + c..];
    assert Removed(kept + rest, |layout|, c) == kept + rest[c..];
  }

  lemma ToldNothing<T>(lines: seq<T>, events: seq<Event>)
    requires events == []
    ensures Told(lines, 0, [], events)
  {
    assert Select(lines, []) + lines[0..] == lines;
  }

  lemma ToldAll<T>(lines: seq<T>, layout: seq<nat>, events: seq<Event>)
    requires forall k :: 0 <= k < |layout| ==> layout[k] < |lines|
    requires Told(lines, |lines|, layout, events)
    ensures Sound(lines, events) && Edited(lines, events) == Select(lines, layout)
  {
    assert Select(lines, layout) + lines[|lines|..] == Select(lines, layout);
  }

  /** `reflowLargerCreateNewLayout(lines, toRemove)`, for a list of `|lines|` rows: the rows to keep,
      and what listeners are told. */
  method CreateNewLayout<T>(ghost lines: seq<T>, n: nat, toRemove: seq<Removal>)
    returns (layout: seq<nat>, countRemoved: nat, events: seq<Event>)
    requires |lines| == n && Ordered(toRemove, n)
    ensures layout == Kept(toRemove, n) && |layout| + countRemoved == n
    ensures Sound(lines, events) && Edited(lines, events) == Select(lines, layout)
  {
    layout, events, countRemoved := [], [], 0;
    var nextToRemove: nat, i: nat := 0, 0;
    ToldNothing(lines, events);
    while i < n
      invariant Scanned(toRemove, n, i, nextToRemove, countRemoved, layout)
      invariant Told(lines, i, layout, events)
    {
      if nextToRemove < |toRemove| && toRemove[nextToRemove].start == i {
        events := events + [Deleted(i - countRemoved, toRemove[nextToRemove].count)];
        i, nextToRemove, countRemoved :=
          SkipRemoved(lines, toRemove, i, nextToRemove, countRemoved, layout, events[..|events| - 1], events);
      } else {
        KeepsRow(toRemove, n, i, nextToRemove, countRemoved, layout);
        ToldKept(lines, i, layout, events);
        layout := layout + [i];
        i := i + 1;
      }
    }
    ToldAll(lines, layout, events);
  }

  /** Rows that go are counted and passed over. */
  method SkipRemoved<T>(ghost lines: seq<T>, toRemove: seq<Removal>, i: nat, next: nat, removed: nat,
                        ghost layout: seq<nat>, ghost before: seq<Event>, ghost events: seq<Event>)
    returns (i': nat, next': nat, removed': nat)
    requires next < |toRemove| && toRemove[next].start == i && Scanned(toRemove, |lines|, i, next, removed, layout)
    requires i < |lines| && Told(lines, i, layout, before)
    requires events == before + [Deleted(i - removed, toRemove[next].count)]
    ensures i < i' && Scanned(toRemove, |lines|, i', next', removed', layout) && Told(lines, i', layout, events)
  {
    var count := toRemove[next].count;
    RemovesRows(toRemove, |lines|, i, next, removed, layout);
    ToldRemoved(lines, i, layout, before, count);
    i', next', removed' := i + count, next + 1, removed + count;
  }

  /** `reflowLargerApplyNewLayout(lines, layout)`. */
  method ApplyNewLayout<T(0)>(list: CircularList<T>, layout: seq<nat>)
    requires list.Valid() && |layout| <= list.length && forall k :: 0 <= k < |layout| ==> layout[k] < list.length
    modifies list, list.array_
    ensures list.Valid() && list.array_ == old(list.array_) && list.events == old(list.events)
    ensures list.Contents() == Select(old(list.Contents()), layout)
  {
    ghost var before := list.Contents();
    var newLayoutLines := [];
    for s := 0 to |layout|
      invariant list.Valid() && unchanged(list) && unchanged(list.array_)
      invariant |newLayoutLines| == s && forall k :: 0 <= k < s ==> newLayoutLines[k] == before[layout[k]]
    {
      var line := list.Get(layout[s]);
      newLayoutLines := newLayoutLines + [line];
    }
    for t := 0 to |layout|
      invariant list.Valid() && list.length == old(list.length) && list.array_ == old(list.array_)
      invariant list.events == old(list.events)
      invariant forall k :: 0 <= k < t ==> list.Contents()[k] == newLayoutLines[k]
    {
      list.Set(t, newLayoutLines[t]);
    }
    list.SetLength(|layout|);
    assert list.Contents() == Select(before, layout);
  }
}
