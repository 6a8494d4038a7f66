/** Markers on the lines of a buffer (xterm.js modules 4863 and 9092): a marker remembers a line by
    its index and listens to what the list of lines says has been trimmed, inserted and deleted. */
module Markers {
  import opened CL = CircularList

  /** What a marker knows. */
  datatype Mark = Mark(line: int, disposed: bool)

  const DISPOSED := Mark(-1, true)

  /** The three listeners that `addMarker` registers. Disposing of a marker removes them. */
  function Heard(m: Mark, e: Event): Mark {
    if m.disposed then m
    else match e
      case Trimmed(n) => if m.line - n < 0 then DISPOSED else m.(line := m.line - n)
      case Inserted(index, n) => if m.line >= index then m.(line := m.line + n) else m
      case Deleted(index, n) =>
        if index <= m.line < index + n then DISPOSED
        else if m.line > index then m.(line := m.line - n)
        else m
  }

  function HearAll(m: Mark, events: seq<Event>): Mark {
    if events == [] then m else Heard(HearAll(m, events[..|events| - 1]), events[|events| - 1])
  }

  lemma {:induction false} HearConcat(m: Mark, a: seq<Event>, b: seq<Event>)
    ensures HearAll(m, a + b) == HearAll(HearAll(m, a), b)
  {
    if b == [] {
      assert a + b == a;
    } else {
      HearConcat(m, a, b[..|b| - 1]);
      assert (a + b)[..|a + b| - 1] == a + b[..|b| - 1];
    }
  }

  lemma HearOne(m: Mark, e: Event)
    ensures HearAll(m, [e]) == Heard(m, e)
  {
    assert [e][..0] == [];
  }

  // ---------------------------------------------------------------- following a line

  predicate Distinct<T(==)>(s: seq<T>) { forall i, j :: 0 <= i < j < |s| ==> s[i] != s[j] }

  /** A live marker is at the line it was put on; a disposed one's line is gone. */
  predicate Follows<T(==)>(m: Mark, target: T, lines: seq<T>) {
    if m.disposed then target !in lines else 0 <= m.line < |lines| && lines[m.line] == target
  }

  lemma FollowsTrim<T>(m: Mark, target: T, lines: seq<T>, n: nat)
    requires Follows(m, target, lines) && Distinct(lines) && n <= |lines|
    ensures Follows(Heard(m, Trimmed(n)), target, lines[n..])
  {
  }

  lemma FollowsDelete<T>(m: Mark, target: T, lines: seq<T>, index: nat, n: nat)
    requires Follows(m, target, lines) && Distinct(lines) && 0 < n && index + n <= |lines|
    ensures Follows(Heard(m, Deleted(index, n)), target, Removed(lines, index, n))
    ensures Distinct(Removed(lines, index, n))
  {
  }

  lemma FollowsInsert<T>(m: Mark, target: T, lines: seq<T>, index: nat, items: seq<T>)
    requires Follows(m, target, lines) && Distinct(lines) && index <= |lines|
    requires Distinct(items) && target !in items && forall i :: 0 <= i < |items| ==> items[i] !in lines
    ensures Follows(Heard(m, Inserted(index, |items|)), target, With(lines, index, items))
    ensures Distinct(With(lines, index, items))
  {
    DistinctWith(lines, index, items);
  }

  lemma FollowsAppend<T>(m: Mark, target: T, lines: seq<T>, line: T)
    requires Follows(m, target, lines) && Distinct(lines) && line !in lines && target != line
    ensures Follows(m, target, lines + [line]) && Distinct(lines + [line])
  {
  }

  /** `push`: what is trimmed is told, what is appended need not be. */
  lemma FollowsPush<T>(m: Mark, target: T, lines: seq<T>, line: T, max: nat)
    requires Follows(m, target, lines) && Distinct(lines) && line !in lines && target != line
    requires |lines| <= max && max > 0
    ensures Follows(HearAll(m, if |lines| == max then [Trimmed(1)] else []), target, Newest(lines + [line], max))
    ensures Distinct(Newest(lines + [line], max))
  {
    FollowsAppend(m, target, lines, line);
    if |lines| == max {
      HearOne(m, Trimmed(1));
      FollowsTrim(m, target, lines + [line], 1);
    }
  }

  /** `splice`, wherever the list itself is right. */
  lemma FollowsSplice<T>(m: Mark, target: T, lines: seq<T>, index: nat, deleted: nat, items: seq<T>, max: nat)
    requires Follows(m, target, lines) && Distinct(lines) && index + deleted <= |lines| <= max
    requires Distinct(items) && target !in items && forall i :: 0 <= i < |items| ==> items[i] !in lines
    ensures var rest := Removed(lines, index, deleted);
            var events := SpliceEvents(index, deleted, |items|, Overflow(|rest|, |items|, max));
            Follows(HearAll(m, events), target, Newest(With(rest, index, items), max))
  {
    var rest := Removed(lines, index, deleted);
    var overflow := Overflow(|rest|, |items|, max);
    HearsSplice(m, target, lines, rest, With(rest, index, items), index, deleted, items, overflow);
    assert Newest(With(rest, index, items), max) == With(rest, index, items)[overflow..];
  }

  lemma HearsSplice<T>(m: Mark, target: T, lines: seq<T>, rest: seq<T>, inserted: seq<T>, index: nat, deleted: nat,
                       items: seq<T>, overflow: nat)
    requires Follows(m, target, lines) && Distinct(lines) && index + deleted <= |lines|
    requires Distinct(items) && target !in items && forall i :: 0 <= i < |items| ==> items[i] !in lines
    requires rest == Removed(lines, index, deleted) && inserted == With(rest, index, items) && overflow <= |inserted|
    ensures Follows(HearAll(m, SpliceEvents(index, deleted, |items|, overflow)), target, inserted[overflow..])
  {
    var first := if deleted > 0 then [Deleted(index, deleted)] else [];
    var second := if |items| > 0 then [Inserted(index, |items|)] else [];
    var third := if overflow > 0 then [Trimmed(overflow)] else [];
    HearThree(m, first, second, third);
    var m1 := HearAll(m, first);
    var m2 := HearAll(m1, second);
    HearsDeletion(m, target, lines, index, deleted, first, rest);
    assert forall x | x in rest :: x in lines;
    HearsInsertion(m1, target, rest, index, items, second, inserted);
    HearsTrim(m2, target, inserted, overflow, third);
  }

  lemma HearThree(m: Mark, a: seq<Event>, b: seq<Event>, c: seq<Event>)
    ensures HearAll(m, a + b + c) == HearAll(HearAll(HearAll(m, a), b), c)
  {
    HearConcat(m, a, b);
    HearConcat(m, a + b, c);
  }

  lemma HearsDeletion<T>(m: Mark, target: T, lines: seq<T>, index: nat, n: nat, events: seq<Event>, rest: seq<T>)
    requires Follows(m, target, lines) && Distinct(lines) && index + n <= |lines|
    requires events == (if n > 0 then [Deleted(index, n)] else []) && rest == Removed(lines, index, n)
    ensures Follows(HearAll(m, events), target, rest) && Distinct(rest)
  {
    if n > 0 {
      HearOne(m, Deleted(index, n));
      FollowsDelete(m, target, lines, index, n);
    } else {
      assert rest == lines;
    }
  }

  lemma HearsInsertion<T>(m: Mark, target: T, lines: seq<T>, index: nat, items: seq<T>, events: seq<Event>,
                          inserted: seq<T>)
    requires Follows(m, target, lines) && Distinct(lines) && index <= |lines|
    requires Distinct(items) && target !in items && forall i :: 0 <= i < |items| ==> items[i] !in lines
    requires events == (if |items| > 0 then [Inserted(index, |items|)] else []) && inserted == With(lines, index, items)
    ensures Follows(HearAll(m, events), target, inserted) && Distinct(inserted)
  {
    FollowsInsert(m, target, lines, index, items);
    if |items| > 0 {
      HearOne(m, Inserted(index, |items|));
    } else {
      assert inserted == lines;
    }
  }

  lemma HearsTrim<T>(m: Mark, target: T, lines: seq<T>, n: nat, events: seq<Event>)
    requires Follows(m, target, lines) && Distinct(lines) && n <= |lines|
    requires events == if n > 0 then [Trimmed(n)] else []
    ensures Follows(HearAll(m, events), target, lines[n..])
  {
    if n > 0 {
      HearOne(m, Trimmed(n));
      FollowsTrim(m, target, lines, n);
    }
  }

  /** `pop` tells nobody: a marker still follows its line exactly when that is not the last one. */
  lemma FollowsPop<T>(m: Mark, target: T, lines: seq<T>)
    requires Follows(m, target, lines) && Distinct(lines) && lines != []
    ensures Follows(m, target, lines[..|lines| - 1]) <==> target != lines[|lines| - 1]
  {
    if target == lines[|lines| - 1] && !m.disposed {
      assert m.line == |lines| - 1;
    }
  }

  // ---------------------------------------------------------------- markers of a buffer

  class Marker {
    var line: int
    var isDisposed: bool
    /** The line it was put on. */
    ghost const target: nat

    ghost function View(): Mark
      reads this
    {
      Mark(line, isDisposed)
    }

    constructor (line: int, ghost target: nat)
      ensures View() == Mark(line, false) && this.target == target
    {
      this.line, this.isDisposed, this.target := line, false, target;
    }

    /** The listener for `e`, while there is one. */
    method Hear(e: Event)
      modifies this
      ensures View() == Heard(old(View()), e)
    {
      if isDisposed {
        return;
      }
      match e
      case Trimmed(n) =>
        line := line - n;
        if line < 0 {
          Dispose();
        }
      case Inserted(index, n) =>
        if line >= index {
          line := line + n;
        }
      case Deleted(index, n) =>
        if index <= line < index + n {
          Dispose();
        }
        if line > index {
          line := line - n;
        }
    }

    method Dispose()
      modifies this
      ensures isDisposed && line == if old(isDisposed) then old(line) else -1
    {
      if !isDisposed {
        isDisposed := true;
        line := -1;
      }
    }
  }

  /** The lines of a buffer, as identities, and the markers on them. */
  class Buffer {
    const lines: CircularList<nat>
    var markers: seq<Marker>
    /** Every marker there ever was. */
    ghost var all: set<Marker>

    ghost predicate Valid()
      reads this, lines, lines.array_, all
    {
      && lines.Valid()
      && Distinct(lines.Contents())
      && (forall m :: m in all ==> Follows(m.View(), m.target, lines.Contents()))
      && Listed()
    }

    /** The list holds the live markers. */
    ghost predicate Listed()
      reads this, all
    {
      && (forall m :: m in markers ==> m in all && !m.isDisposed)
      && (forall m :: m in all && !m.isDisposed ==> m in markers)
      && Distinct(markers)
    }

    /** An identity that no line or marker has had. */
    ghost predicate IsNew(line: nat)
      requires lines.Valid()
      reads this, lines, lines.array_, all
    {
      line !in lines.Contents() && forall m :: m in all ==> m.target != line
    }

    constructor (maxLength: nat)
      requires maxLength > 0
      ensures Valid() && fresh(lines) && fresh(lines.array_)
      ensures lines.Contents() == [] && lines.MaxLength() == maxLength && all == {}
    {
      lines := new CircularList(maxLength);
      markers := [];
      all := {};
    }

    /** `addMarker(line)`. */
    method AddMarker(line: nat) returns (m: Marker)
      requires Valid() && line < lines.length
      modifies this
      ensures Valid() && fresh(m) && all == old(all) + {m}
      ensures m.View() == Mark(line, false) && m.target == lines.Contents()[line]
    {
      m := new Marker(line, lines.Contents()[line]);
      markers := markers + [m];
      all := all + {m};
    }

    /** Everything fired since the list had fired `before` events reaches every live marker. */
    method Fire(before: nat)
      requires Listed() && before <= |lines.events|
      modifies this`markers, all
      ensures Listed()
      ensures forall m :: m in all ==> m.View() == HearAll(old(m.View()), lines.events[before..])
    {
      assert lines.events[before..before] == [];
      var e := before;
      while e < |lines.events|
        invariant before <= e <= |lines.events|
        invariant Listed()
        invariant forall m :: m in all ==> m.View() == HearAll(old(m.View()), lines.events[before..e])
      {
        ghost var heard := lines.events[before..e + 1];
        assert heard[..|heard| - 1] == lines.events[before..e];
        FireOne(lines.events[e]);
        e := e + 1;
      }
      assert lines.events[before..e] == lines.events[before..];
    }

    /** One event; the listeners are those there were when it was fired. */
    method FireOne(event: Event)
      requires Listed()
      modifies this`markers, all
      ensures Listed()
      ensures forall m :: m in all ==> m.View() == Heard(old(m.View()), event)
    {
      var listeners := markers;
      var live := [];
      for k := 0 to |listeners|
        invariant listeners == old(markers) && all == old(all)
        invariant forall i :: 0 <= i < k ==> listeners[i].View() == Heard(old(listeners[i].View()), event)
        invariant forall m :: m in all && m !in listeners[..k] ==> m.View() == old(m.View())
        invariant forall m :: m in live <==> m in listeners[..k] && !m.isDisposed
        invariant Distinct(live)
      {
        listeners[k].Hear(event);
        if !listeners[k].isDisposed {
          live := live + [listeners[k]];
        }
      }
      markers := live;
      assert listeners[..|listeners|] == listeners;
    }

    method Push(line: nat)
      requires Valid() && IsNew(line)
      modifies this, lines, lines.array_, all
      ensures Valid() && lines.MaxLength() == old(lines.MaxLength()) && all == old(all)
      ensures lines.Contents() == Newest(old(lines.Contents()) + [line], lines.MaxLength())
    {
      ghost var before := lines.Contents();
      var fired := |lines.events|;
      lines.Push(line);
      Fire(fired);
      forall m | m in all
        ensures Follows(m.View(), m.target, lines.Contents())
      {
        FollowsPush(old(m.View()), m.target, before, line, lines.MaxLength());
      }
    }

    /** `recycle` and the overwriting of the line it returns, which makes it a new line. */
    lemma RecycledIs(before: seq<nat>, line: nat, max: nat, after: seq<nat>)
      requires |before| == max > 0 && after == (before[1..] + [before[0]])[max - 1 := line]
      ensures Newest(before + [line], max) == before[1..] + [line] == after
    {
    }

    method Recycle(line: nat)
      requires Valid() && IsNew(line) && lines.length == lines.MaxLength()
      modifies this, lines, lines.array_, all
      ensures Valid() && lines.MaxLength() == old(lines.MaxLength()) && all == old(all)
      ensures lines.Contents() == old(lines.Contents())[1..] + [line]
    {
      ghost var before := lines.Contents();
      var fired := |lines.events|;
      var _ := lines.Recycle();
      lines.Set(lines.length - 1, line);
      Fire(fired);
      ghost var after, max := lines.Contents(), lines.MaxLength();
      RecycledIs(before, line, max, after);
      forall m | m in all
        ensures Follows(m.View(), m.target, after)
      {
        FollowsPush(old(m.View()), m.target, before, line, max);
      }
    }

    method Splice(index: nat, deleteCount: nat, items: seq<nat>)
      requires Valid() && index + deleteCount <= lines.length
      requires Distinct(items) && forall i :: 0 <= i < |items| ==> IsNew(items[i])
      requires SpliceKeeps(lines.length - deleteCount, index, |items|, lines.MaxLength())
      modifies this, lines, lines.array_, all
      ensures Valid() && lines.MaxLength() == old(lines.MaxLength()) && all == old(all)
      ensures lines.Contents()
              == Newest(With(Removed(old(lines.Contents()), index, deleteCount), index, items), lines.MaxLength())
    {
      ghost var before := lines.Contents();
      var fired := |lines.events|;
      lines.Splice(index, deleteCount, items);
      Fire(fired);
      forall m | m in all
        ensures Follows(m.View(), m.target, lines.Contents())
      {
        FollowsSplice(old(m.View()), m.target, before, index, deleteCount, items, lines.MaxLength());
      }
      SpliceDistinct(before, index, deleteCount, items, lines.MaxLength());
    }

    method TrimStart(count: nat)
      requires Valid()
      modifies this, lines, all
      ensures Valid() && lines.MaxLength() == old(lines.MaxLength()) && all == old(all)
      ensures var n := if count > old(lines.length) then old(lines.length) else count;
              lines.Contents() == old(lines.Contents())[n..]
    {
      ghost var before := lines.Contents();
      ghost var n := if count > lines.length then lines.length else count;
      var fired := |lines.events|;
      lines.TrimStart(count);
      Fire(fired);
      HearOneForAll(Trimmed(n));
      forall m | m in all
        ensures Follows(m.View(), m.target, lines.Contents())
      {
        FollowsTrim(old(m.View()), m.target, before, n);
      }
    }
  }

  lemma HearOneForAll(e: Event)
    ensures forall m :: HearAll(m, [e]) == Heard(m, e)
  {
    forall m
      ensures HearAll(m, [e]) == Heard(m, e)
    {
      HearOne(m, e);
    }
  }

  lemma SpliceDistinct<T>(lines: seq<T>, index: nat, deleted: nat, items: seq<T>, max: nat)
    requires Distinct(lines) && index + deleted <= |lines| <= max
    requires Distinct(items) && forall i :: 0 <= i < |items| ==> items[i] !in lines
    ensures Distinct(Newest(With(Removed(lines, index, deleted), index, items), max))
  {
    var rest := Removed(lines, index, deleted);
    assert Distinct(rest);
    assert forall k | 0 <= k < |rest| :: rest[k] in lines;
    DistinctWith(rest, index, items);
  }

  lemma DistinctWith<T>(rest: seq<T>, index: nat, items: seq<T>)
    requires Distinct(rest) && Distinct(items) && index <= |rest|
    requires forall i :: 0 <= i < |items| ==> items[i] !in rest
    ensures Distinct(With(rest, index, items))
  {
    var w := With(rest, index, items);
    forall i, j | 0 <= i < j < |w|
      ensures w[i] != w[j]
    {
      if index <= i < index + |items| {
        assert w[i] == items[i - index];
      } else if index <= j < index + |items| {
        assert w[j] == items[j - index];
      }
    }
  }
}
