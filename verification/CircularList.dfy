/** The ring buffer behind the terminal's lines (xterm.js module 6349): a list of at most `maxLength`
    elements that drops its oldest ones when it overflows. Proved to act on the sequence of its
    elements as plain sequence edits do, for every start index. */
module CircularList {

  /** What listeners are told. */
  datatype Event = Deleted(index: nat, amount: nat) | Inserted(index: nat, amount: nat) | Trimmed(amount: nat)

  // ---------------------------------------------------------------- plain sequence edits

  /** The last `max` elements. */
  function Newest<T>(s: seq<T>, max: nat): seq<T> {
    if |s| <= max then s else s[|s| - max..]
  }

  function Removed<T>(s: seq<T>, index: nat, amount: nat): seq<T>
    requires index + amount <= |s|
  {
    s[..index] + s[index + amount..]
  }

  function With<T>(s: seq<T>, index: nat, items: seq<T>): seq<T>
    requires index <= |s|
  {
    s[..index] + items + s[index..]
  }

  /** How many elements an insertion pushes out. */
  function Overflow(length: nat, items: nat, max: nat): nat {
    if length + items > max then length + items - max else 0
  }

  /** `count` elements from `start` on copied to `offset` places further, as memmove does. */
  function Moved<T>(s: seq<T>, start: nat, count: nat, offset: int): seq<T>
    requires start + count <= |s| && 0 <= start + offset && start + count + offset <= |s|
  {
    s[..start + offset] + s[start..start + count] + s[start + count + offset..]
  }

  function SpliceEvents(index: nat, deleted: nat, inserted: nat, overflow: nat): seq<Event> {
    (if deleted > 0 then [Deleted(index, deleted)] else [])
    + (if inserted > 0 then [Inserted(index, inserted)] else [])
    + (if overflow > 0 then [Trimmed(overflow)] else [])
  }

  // ---------------------------------------------------------------- cyclic indices

  /** `i % max`, by subtraction. */
  function Slot(i: nat, max: nat): (slot: nat)
    requires max > 0
    ensures slot < max
  {
    if i < max then i else Slot(i - max, max)
  }

  lemma {:induction false} SlotIsMod(i: nat, max: nat)
    requires max > 0
    ensures Slot(i, max) == i % max
  {
    if i >= max {
      SlotIsMod(i - max, max);
      var q := (i - max) / max;
      assert i - max == q * max + (i - max) % max;
      ModUnique(i, max, q + 1, (i - max) % max);
    } else {
      ModUnique(i, max, 0, i);
    }
  }

  lemma MulMono(a: nat, b: nat, max: nat)
    requires a <= b
    ensures a * max <= b * max
  {
  }

  lemma ModUnique(a: nat, max: nat, q: nat, r: nat)
    requires r < max && a == q * max + r
    ensures a % max == r
  {
    var q' := a / max;
    assert a == q' * max + a % max;
    assert (q' + 1) * max == q' * max + max && (q + 1) * max == q * max + max;
    if q' < q {
      MulMono(q' + 1, q, max);
    } else if q < q' {
      MulMono(q + 1, q', max);
    }
  }

  lemma {:induction false} SlotPlus(a: nat, b: nat, max: nat)
    requires max > 0
    ensures Slot(Slot(a, max) + b, max) == Slot(a + b, max)
  {
    if a >= max {
      SlotPlus(a - max, b, max);
    }
  }

  /** Indices less than `max` apart are in different slots. */
  lemma {:induction false} SlotDistinct(a: nat, b: nat, max: nat)
    requires a < b < a + max
    ensures Slot(a, max) != Slot(b, max)
  {
    if a >= max {
      SlotDistinct(a - max, b - max, max);
    }
  }

  lemma SlotsDiffer(start: nat, a: nat, b: nat, max: nat)
    requires a < max && b < max && a != b
    ensures Slot(start + a, max) != Slot(start + b, max)
  {
    if a < b {
      SlotDistinct(start + a, start + b, max);
    } else {
      SlotDistinct(start + b, start + a, max);
    }
  }

  // ---------------------------------------------------------------- the list

  class CircularList<T(0)> {
    var array_: array<T>
    var startIndex: nat
    var length: nat
    /** What was fired so far. */
    var events: seq<Event>

    ghost predicate Valid()
      reads this
    {
      array_.Length > 0 && length <= array_.Length
    }

    function MaxLength(): nat
      reads this
    {
      array_.Length
    }

    /** All slots, from the start index on. */
    ghost function Ring(): (r: seq<T>)
      requires Valid()
      reads this, array_
      ensures |r| == MaxLength()
    {
      seq(array_.Length, i requires 0 <= i < array_.Length reads this, array_ requires array_.Length > 0 =>
        array_[Slot(startIndex + i, array_.Length)])
    }

    /** The elements in order. */
    ghost function Contents(): (s: seq<T>)
      requires Valid()
      reads this, array_
      ensures |s| == length
    {
      Ring()[..length]
    }

    constructor (maxLength: nat)
      requires maxLength > 0
      ensures Valid() && fresh(array_)
      ensures Contents() == [] && MaxLength() == maxLength && events == []
    {
      array_ := new T[maxLength];
      startIndex, length, events := 0, 0, [];
    }

    method GetCyclic(i: nat) returns (value: T)
      requires Valid()
      ensures value == Ring()[Slot(i, MaxLength())]
    {
      SlotIsMod(startIndex + i, array_.Length);
      SlotPlus(i, startIndex, array_.Length);
      value := array_[(startIndex + i) % array_.Length];
    }

    method SetCyclic(i: nat, value: T)
      requires Valid()
      modifies array_
      ensures Valid() && Ring() == old(Ring())[Slot(i, MaxLength()) := value]
    {
      ghost var slot := Slot(i, array_.Length);
      SlotIsMod(startIndex + i, array_.Length);
      SlotPlus(i, startIndex, array_.Length);
      array_[(startIndex + i) % array_.Length] := value;
      forall k | 0 <= k < array_.Length
        ensures Ring()[k] == old(Ring())[slot := value][k]
      {
        if k != slot {
          SlotsDiffer(startIndex, k, slot, array_.Length);
        }
      }
      assert Ring() == old(Ring())[slot := value];
    }

    /** The start index moved on by `k`, reduced or not. */
    lemma Rotated(before: seq<T>, start: nat, k: nat)
      requires Valid() && |before| == MaxLength() && k <= MaxLength()
      requires forall i :: 0 <= i < MaxLength() ==> before[i] == array_[Slot(start + i, MaxLength())]
      requires startIndex == start + k || startIndex == Slot(start + k, MaxLength())
      ensures Ring() == before[k..] + before[..k]
    {
      var max := MaxLength();
      forall i | 0 <= i < max
        ensures Ring()[i] == (before[k..] + before[..k])[i]
      {
        SlotPlus(start + k, i, max);
      }
    }

    method Get(i: nat) returns (value: T)
      requires Valid() && i < length
      ensures value == Contents()[i]
    {
      value := GetCyclic(i);
    }

    method Set(i: nat, value: T)
      requires Valid() && i < length
      modifies array_
      ensures Valid() && Contents() == old(Contents())[i := value]
    {
      SetCyclic(i, value);
    }

    method Copy(from: nat, to: nat)
      requires Valid() && from < length && to < length
      modifies array_
      ensures Valid() && Contents() == old(Contents())[to := old(Contents())[from]]
    {
      var value := Get(from);
      Set(to, value);
    }

    method Push(value: T)
      requires Valid()
      modifies this, array_
      ensures Valid() && MaxLength() == old(MaxLength()) && array_ == old(array_)
      ensures Contents() == Newest(old(Contents()) + [value], MaxLength())
      ensures events == old(events) + if old(length) == MaxLength() then [Trimmed(1)] else []
    {
      var max := array_.Length;
      ghost var ring := Ring();
      SetCyclic(length, value);
      if length == max {
        assert Ring() == ring[0 := value];
        ghost var before := Ring();
        SlotIsMod(startIndex + 1, max);
        startIndex := (startIndex + 1) % max;
        events := events + [Trimmed(1)];
        Rotated(before, old(startIndex), 1);
      } else {
        ghost var filled := Ring();
        length := length + 1;
        assert Ring() == filled;
        assert filled[..length] == ring[..length - 1] + [value];
      }
    }

    /** The oldest element becomes the newest, to be overwritten by the caller. */
    method Recycle() returns (value: T)
      requires Valid() && length == MaxLength()
      modifies this
      ensures Valid() && MaxLength() == old(MaxLength()) && array_ == old(array_)
      ensures value == old(Contents())[0] && Contents() == old(Contents())[1..] + [value]
      ensures events == old(events) + [Trimmed(1)]
    {
      var max := array_.Length;
      ghost var before := Ring();
      SlotIsMod(startIndex + 1, max);
      startIndex := (startIndex + 1) % max;
      events := events + [Trimmed(1)];
      Rotated(before, old(startIndex), 1);
      value := GetCyclic(length - 1);
    }

    method Pop() returns (value: T)
      requires Valid() && length > 0
      modifies this
      ensures Valid() && MaxLength() == old(MaxLength()) && array_ == old(array_)
      ensures old(Contents()) == Contents() + [value]
      ensures events == old(events)
    {
      value := GetCyclic(length - 1);
      length := length - 1;
    }

    method TrimStart(count: nat)
      requires Valid()
      modifies this
      ensures Valid() && MaxLength() == old(MaxLength()) && array_ == old(array_)
      ensures var n := if count > old(length) then old(length) else count;
              Contents() == old(Contents())[n..] && events == old(events) + [Trimmed(n)]
    {
      var n := if count > length then length else count;
      ghost var before := Ring();
      startIndex := startIndex + n;
      length := length - n;
      events := events + [Trimmed(n)];
      Rotated(before, old(startIndex), n);
    }

    /** The `length` setter, for shortening. */
    method SetLength(n: nat)
      requires Valid() && n <= length
      modifies this
      ensures Valid() && MaxLength() == old(MaxLength()) && array_ == old(array_)
      ensures Contents() == old(Contents())[..n] && events == old(events)
    {
      length := n;
    }

    /** The `maxLength` setter, for a maximum that the elements fit into. */
    method SetMaxLength(n: nat)
      requires Valid() && n > 0 && length <= n
      modifies this
      ensures Valid() && MaxLength() == n
      ensures Contents() == old(Contents()) && events == old(events)
      ensures array_ == old(array_) || fresh(array_)
    {
      if n == array_.Length {
        return;
      }
      ghost var before := Contents();
      var copy := new T[n];
      CopyTo(copy);
      Adopt(copy, before);
    }

    method CopyTo(copy: array<T>)
      requires Valid() && copy != array_ && length <= copy.Length
      modifies copy
      ensures forall k :: 0 <= k < length ==> copy[k] == Contents()[k]
    {
      for i := 0 to length
        invariant forall k :: 0 <= k < i ==> copy[k] == Contents()[k]
      {
        copy[i] := Get(i);
      }
    }

    method Adopt(copy: array<T>, ghost before: seq<T>)
      requires Valid() && length == |before| <= copy.Length && copy.Length > 0
      requires forall k :: 0 <= k < length ==> copy[k] == before[k]
      modifies this`array_, this`startIndex
      ensures Valid() && array_ == copy && Contents() == before
    {
      array_ := copy;
      startIndex := 0;
      forall i | 0 <= i < length
        ensures Ring()[i] == before[i]
      {
        assert Slot(i, copy.Length) == i;
      }
    }

    /** `splice(index, deleteCount, ...items)`. The items push out the oldest elements when they do
        not fit; elements after them survive that only if enough elements lie before them. */
    method Splice(index: nat, deleteCount: nat, items: seq<T>)
      requires Valid() && index + deleteCount <= length
      modifies this, array_
      ensures Valid() && MaxLength() == old(MaxLength()) && array_ == old(array_)
      ensures var rest := Removed(old(Contents()), index, deleteCount);
              var overflow := Overflow(|rest|, |items|, MaxLength());
              && events == old(events) + SpliceEvents(index, deleteCount, |items|, overflow)
              && IsSplice(rest, index, items, MaxLength(), Contents())
    {
      if deleteCount > 0 {
        Delete(index, deleteCount);
      }
      assert Contents() == Removed(old(Contents()), index, deleteCount);
      Insert(index, items);
    }

    method Insert(index: nat, items: seq<T>)
      requires Valid() && index <= length
      modifies this, array_
      ensures Valid() && MaxLength() == old(MaxLength()) && array_ == old(array_)
      ensures var rest := old(Contents());
              var overflow := Overflow(|rest|, |items|, MaxLength());
              && events == old(events) + SpliceEvents(index, 0, |items|, overflow)
              && IsSplice(rest, index, items, MaxLength(), Contents())
    {
      ghost var rest := Contents();
      MakeRoom(index, |items|);
      ghost var moved := Ring();
      Fill(index, items);
      ghost var ring := Ring();
      Grow(index, |items|);
      Spliced(rest, index, items, moved, ring, Contents());
    }

    /** The end of `splice`: listeners are told, and what does not fit is dropped. */
    method Grow(index: nat, n: nat)
      requires Valid() && index <= length
      modifies this
      ensures Valid() && MaxLength() == old(MaxLength()) && array_ == old(array_)
      ensures var overflow := Overflow(old(length), n, MaxLength());
              && events == old(events) + SpliceEvents(index, 0, n, overflow)
              && length == old(length) + n - overflow
              && ReadFrom(old(Ring()), overflow, Contents())
    {
      if n > 0 {
        events := events + [Inserted(index, n)];
      }
      Settle(n);
    }

    method Settle(n: nat)
      requires Valid()
      modifies this`startIndex, this`length, this`events
      ensures Valid()
      ensures var overflow := Overflow(old(length), n, MaxLength());
              && events == old(events) + (if overflow > 0 then [Trimmed(overflow)] else [])
              && length == old(length) + n - overflow
              && ReadFrom(old(Ring()), overflow, Contents())
    {
      if length + n > array_.Length {
        Drop(length + n - array_.Length);
      } else {
        ghost var ring := Ring();
        length := length + n;
        RotatedBy(ring, startIndex, 0);
      }
    }

    method Drop(e: nat)
      requires Valid()
      modifies this`startIndex, this`length, this`events
      ensures Valid() && length == MaxLength() && events == old(events) + [Trimmed(e)]
      ensures ReadFrom(old(Ring()), e, Contents())
    {
      ghost var ring := Ring();
      startIndex := startIndex + e;
      length := array_.Length;
      events := events + [Trimmed(e)];
      RotatedBy(ring, old(startIndex), e);
    }

    lemma RotatedBy(before: seq<T>, start: nat, k: nat)
      requires Valid() && |before| == MaxLength() && startIndex == start + k
      requires forall i :: 0 <= i < MaxLength() ==> before[i] == array_[Slot(start + i, MaxLength())]
      ensures forall i :: 0 <= i < MaxLength() ==> Ring()[i] == before[Slot(k + i, MaxLength())]
    {
      forall i | 0 <= i < MaxLength()
        ensures Ring()[i] == before[Slot(k + i, MaxLength())]
      {
        SlotPlus(k + i, start, MaxLength());
      }
    }

    /** The deletion loop of `splice`. */
    method Delete(index: nat, count: nat)
      requires Valid() && 0 < count && index + count <= length
      modifies this`length, this`events, array_
      ensures Valid() && Contents() == Removed(old(Contents()), index, count)
      ensures events == old(events) + [Deleted(index, count)]
    {
      CloseGap(index, count);
      Shorten(count);
      events := events + [Deleted(index, count)];
    }

    method Shorten(count: nat)
      requires Valid() && count <= length
      modifies this`length
      ensures length == old(length) - count && Valid() && Contents() == old(Contents())[..length]
    {
      ghost var ring := Ring();
      length := length - count;
      assert Ring() == ring;
    }

    method CloseGap(index: nat, count: nat)
      requires Valid() && index + count <= length
      modifies array_
      ensures Valid()
      ensures Contents()[..length - count] == Removed(old(Contents()), index, count)
    {
      ghost var before := Contents();
      for i := index to length - count
        invariant Contents() == MovedDown(before, index + count, count, i - index)
      {
        Copy(i + count, i);
      }
      ClosedIs(before, index, count);
    }

    /** The loop of `splice` that moves the tail up by `n`, from the end. Where the tail wraps around, it
        overwrites elements that are still to be moved. */
    method MakeRoom(index: nat, n: nat)
      requires Valid() && index <= length
      modifies array_
      ensures Valid()
      ensures RoomMade(old(Contents()), index, n, Ring())
    {
      ghost var rest := Contents();
      for t := length downto index
        invariant n < MaxLength() ==> RoomTo(rest, t, n, Ring())
      {
        ghost var ring := Ring();
        var value := GetCyclic(t);
        SetCyclic(t + n, value);
        if n < array_.Length {
          RoomKept(rest, t, n, ring, Ring());
        }
      }
    }

    /** The loop of `splice` that writes the items. */
    method Fill(index: nat, items: seq<T>)
      requires Valid()
      modifies array_
      ensures Valid()
      ensures Filled(old(Ring()), index, items, |items|, Ring())
    {
      ghost var before := Ring();
      for t := 0 to |items|
        invariant Filled(before, index, items, t, Ring())
      {
        ghost var ring := Ring();
        SetCyclic(index + t, items[t]);
        FilledMore(before, index, items, t, ring, Ring());
      }
    }

    /** `shiftElements(start, count, offset)` where the list need not grow; not `ok` is what the
        source throws. */
    method ShiftElements(start: int, count: int, offset: int) returns (ok: bool)
      requires Valid()
      requires count > 0 && 0 <= start < length && 0 <= start + offset ==>
                 start + count <= length && start + count + offset <= length
      modifies array_
      ensures Valid()
      ensures ok <==> count <= 0 || (0 <= start < length && 0 <= start + offset)
      ensures Contents() == if ok && count > 0 then Moved(old(Contents()), start, count, offset) else old(Contents())
    {
      if count <= 0 {
        return true;
      }
      if start < 0 || start >= length || start + offset < 0 {
        return false;
      }
      if offset > 0 {
        ShiftUp(start, count, offset);
      } else {
        ShiftDown(start, count, -offset);
      }
      ok := true;
    }

    method ShiftUp(start: nat, count: nat, offset: nat)
      requires Valid() && start + count + offset <= length && offset > 0
      modifies array_
      ensures Valid() && Contents() == Moved(old(Contents()), start, count, offset)
    {
      ghost var before := Contents();
      for s := count downto 0
        invariant Contents() == MovedUp(before, start + s, offset, count - s)
      {
        ghost var moved := Contents();
        Copy(start + s, start + s + offset);
        MovedUpOne(before, start + s, offset, count - s, moved, Contents());
      }
      MovedUpIs(before, start, offset, count);
    }

    method ShiftDown(start: nat, count: nat, offset: int)
      requires Valid() && start + count <= length && 0 <= offset <= start
      modifies array_
      ensures Valid() && Contents() == Moved(old(Contents()), start, count, -offset)
    {
      ghost var before := Contents();
      for s := 0 to count
        invariant Contents() == MovedDown(before, start, offset, s)
      {
        Copy(start + s, start + s - offset);
      }
      MovedDownIs(before, start, offset, count);
    }
  }

  /** `n` elements from `start` on copied down one after the other, lowest first. */
  function MovedDown<T>(s: seq<T>, start: nat, offset: nat, n: nat): (r: seq<T>)
    requires offset <= start && start + n <= |s|
    ensures |r| == |s|
  {
    if n == 0 then s
    else
      var r := MovedDown(s, start, offset, n - 1);
      r[start + n - 1 - offset := r[start + n - 1]]
  }

  lemma ReplacedBetween<T>(left: seq<T>, right: seq<T>, value: T)
    requires right != []
    ensures (left + right)[|left| := value] == left + [value] + right[1..]
  {
  }

  /** One more, `a` being where the copies go. */
  lemma OneMoreDown<T>(s: seq<T>, a: nat, start: nat, m: nat, r: seq<T>, value: T)
    requires a <= start && start + m < |s| && r == s[..a] + s[start..start + m] + s[a + m..]
    requires value == s[start + m]
    ensures r[start + m] == value
    ensures r[a + m := value] == s[..a] + s[start..start + m + 1] + s[a + m + 1..]
  {
    var left, copied := s[..a], s[start..start + m];
    ReplacedBetween(left + copied, s[a + m..], value);
    assert s[a + m..][1..] == s[a + m + 1..];
    assert s[start..start + m + 1] == copied + [value];
    assert left + (copied + [value]) == left + copied + [value];
  }

  lemma {:induction false} MovedDownIs<T>(s: seq<T>, start: nat, offset: nat, n: nat)
    requires offset <= start && start + n <= |s|
    ensures MovedDown(s, start, offset, n) == s[..start - offset] + s[start..start + n] + s[start - offset + n..]
  {
    if n > 0 {
      MovedDownIs(s, start, offset, n - 1);
      OneMoreDown(s, start - offset, start, n - 1, MovedDown(s, start, offset, n - 1), s[start + n - 1]);
    } else {
      assert s == s[..start - offset] + s[start - offset..];
    }
  }

  lemma ClosedIs<T>(s: seq<T>, index: nat, count: nat)
    requires index + count <= |s|
    ensures MovedDown(s, index + count, count, |s| - count - index)[..|s| - count] == Removed(s, index, count)
  {
    MovedDownIs(s, index + count, count, |s| - count - index);
  }

  /** `n` elements from `start` on copied up one after the other, highest first. */
  function MovedUp<T>(s: seq<T>, start: nat, offset: nat, n: nat): (r: seq<T>)
    requires start + n + offset <= |s|
    ensures |r| == |s|
    decreases n
  {
    if n == 0 then s
    else
      var r := MovedUp(s, start + 1, offset, n - 1);
      r[start + offset := r[start]]
  }

  lemma MovedUpOne<T>(s: seq<T>, start: nat, offset: nat, n: nat, r: seq<T>, r': seq<T>)
    requires 0 < n && start + n + offset <= |s| && r == MovedUp(s, start + 1, offset, n - 1)
    requires r' == r[start + offset := r[start]]
    ensures r' == MovedUp(s, start, offset, n)
  {
  }

  lemma {:induction false} MovedUpIs<T>(s: seq<T>, start: nat, offset: nat, n: nat)
    requires start + n + offset <= |s|
    ensures MovedUp(s, start, offset, n) == s[..start + offset] + s[start..start + n] + s[start + n + offset..]
    decreases n
  {
    if n > 0 {
      MovedUpIs(s, start + 1, offset, n - 1);
    }
  }

  /** Whether a splice of `items` elements at `index` into `rest` others keeps all that it should:
      what overflows lies before the insertion, or nothing follows it. */
  predicate SpliceKeeps(rest: nat, index: nat, items: nat, max: nat) {
    Overflow(rest, items, max) <= index || index == rest
  }

  /** What is moved up by `n` for element `i`: the element that has wrapped around onto it, if any. */
  function Survivor<T>(rest: seq<T>, max: nat, n: nat, i: nat): T
    requires n < max && i < |rest|
    decreases |rest| - i
  {
    if i + max - n < |rest| then Survivor(rest, max, n, i + max - n) else rest[i]
  }

  /** The elements from `t` on have been moved up by `n`, over some of those before them. */
  ghost predicate RoomTo<T>(rest: seq<T>, t: nat, n: nat, ring: seq<T>)
    requires n < |ring| && t <= |rest| <= |ring|
  {
    && (forall j :: t + n <= j < |rest| + n ==> ring[Slot(j, |ring|)] == Survivor(rest, |ring|, n, j - n))
    && (forall i :: 0 <= i < t ==> ring[i] == HeldBelow(rest, |ring|, t, n, i))
  }

  function HeldBelow<T>(rest: seq<T>, max: nat, t: nat, n: nat, i: nat): T
    requires n < max && i < |rest|
  {
    if t <= i + max - n < |rest| then Survivor(rest, max, n, i + max - n) else rest[i]
  }

  lemma RoomKept<T>(rest: seq<T>, t: nat, n: nat, before: seq<T>, ring: seq<T>)
    requires n < |ring| == |before| && t < |rest| <= |ring| && RoomTo(rest, t + 1, n, before)
    requires ring == before[Slot(t + n, |ring|) := before[t]]
    ensures RoomTo(rest, t, n, ring)
  {
    var max, at := |ring|, Slot(t + n, |ring|);
    assert before[t] == HeldBelow(rest, max, t + 1, n, t) == Survivor(rest, max, n, t);
    forall j | t + n <= j < |rest| + n
      ensures ring[Slot(j, max)] == Survivor(rest, max, n, j - n)
    {
      if t + n < j {
        SlotDistinct(t + n, j, max);
      }
    }
    forall i | 0 <= i < t
      ensures ring[i] == HeldBelow(rest, max, t, n, i)
    {
      assert before[i] == HeldBelow(rest, max, t + 1, n, i);
      assert at == if t + n < max then t + n else t + n - max;
    }
  }

  /** The tail of `rest` from `index` on is `n` slots further up, as far as it has survived, and what is not
      to be dropped before it still in place. */
  ghost predicate RoomMade<T>(rest: seq<T>, index: nat, n: nat, ring: seq<T>)
    requires index <= |rest| <= |ring|
  {
    n < |ring| ==> RoomTo(rest, index, n, ring)
  }

  /** The last of the first `t` items are in the slots from `index` on, and no others have changed. */
  ghost predicate Filled<T>(before: seq<T>, index: nat, items: seq<T>, t: nat, ring: seq<T>)
    requires |before| == |ring| > 0 && t <= |items|
  {
    && (forall j :: index <= j < index + t <= j + |ring| ==> ring[Slot(j, |ring|)] == items[j - index])
    && (forall j :: index + t <= j < index + |ring| ==> ring[Slot(j, |ring|)] == before[Slot(j, |ring|)])
  }

  lemma FilledMore<T>(before: seq<T>, index: nat, items: seq<T>, t: nat, ring: seq<T>, ring': seq<T>)
    requires |before| == |ring| > 0 && t < |items| && Filled(before, index, items, t, ring)
    requires ring' == ring[Slot(index + t, |ring|) := items[t]]
    ensures Filled(before, index, items, t + 1, ring')
  {
    var max, at := |ring|, index + t;
    forall j | index <= j <= at < j + max ensures ring'[Slot(j, max)] == items[j - index] {
      if j < at {
        SlotDistinct(j, at, max);
        assert ring[Slot(j, max)] == items[j - index];
      }
    }
    forall j | at < j < index + max ensures ring'[Slot(j, max)] == before[Slot(j, max)] {
      SlotDistinct(at, j, max);
      assert ring[Slot(j, max)] == before[Slot(j, max)];
    }
  }

  /** The elements are those of the slots from `start` on. */
  ghost predicate ReadFrom<T>(ring: seq<T>, start: nat, contents: seq<T>)
    requires |ring| > 0
  {
    forall i :: 0 <= i < |contents| ==> contents[i] == ring[Slot(start + i, |ring|)]
  }

  /** What comes to lie at place `v`, counted from the start before anything is dropped: the items, some of
      them again where they have wrapped around, and what has survived of the tail. */
  function Placed<T>(rest: seq<T>, index: nat, items: seq<T>, max: nat, v: nat): T
    requires index <= |rest| <= max && Overflow(|rest|, |items|, max) <= v < |rest| + |items|
  {
    if v < index then rest[v]
    else if v < index + |items| then items[v - index]
    else if index + max <= v then items[v - max - index]
    else Survivor(rest, max, |items|, v - |items|)
  }

  /** What a splice leaves after the deletion has left `rest`. */
  ghost predicate IsSplice<T>(rest: seq<T>, index: nat, items: seq<T>, max: nat, result: seq<T>)
    requires index <= |rest| <= max && max > 0
  {
    var overflow := Overflow(|rest|, |items|, max);
    && |result| == |rest| + |items| - overflow
    && if SpliceKeeps(|rest|, index, |items|, max)
       then result == Newest(With(rest, index, items), max)
       else forall i :: 0 <= i < |result| ==> result[i] == Placed(rest, index, items, max, overflow + i)
  }

  /** Where a splice keeps what it should, that is the plain edit. */
  lemma PlacedPlainly<T>(rest: seq<T>, index: nat, items: seq<T>, max: nat, v: nat)
    requires index <= |rest| <= max && Overflow(|rest|, |items|, max) <= v < |rest| + |items|
    requires SpliceKeeps(|rest|, index, |items|, max)
    ensures Placed(rest, index, items, max, v) == With(rest, index, items)[v]
  {
  }

  /** The slots after a splice. */
  lemma Assembled<T>(rest: seq<T>, index: nat, items: seq<T>, moved: seq<T>, ring: seq<T>, v: nat)
    requires 0 < |ring| == |moved| && index <= |rest| <= |ring|
    requires RoomMade(rest, index, |items|, moved) && Filled(moved, index, items, |items|, ring)
    requires Overflow(|rest|, |items|, |ring|) <= v < |rest| + |items|
    ensures ring[Slot(v, |ring|)] == Placed(rest, index, items, |ring|, v)
  {
    var max, n := |ring|, |items|;
    if v < index {
      assert ring[Slot(v + max, max)] == moved[Slot(v + max, max)];
      assert moved[v] == HeldBelow(rest, max, index, n, v);
    } else if v < index + n {
    } else if index + max <= v {
      assert ring[Slot(v - max, max)] == items[v - max - index];
    } else {
      assert moved[Slot(v, max)] == Survivor(rest, max, n, v - n);
    }
  }

  lemma Spliced<T>(rest: seq<T>, index: nat, items: seq<T>, moved: seq<T>, ring: seq<T>, contents: seq<T>)
    requires 0 < |ring| == |moved| && index <= |rest| <= |ring|
    requires RoomMade(rest, index, |items|, moved) && Filled(moved, index, items, |items|, ring)
    requires |contents| == |rest| + |items| - Overflow(|rest|, |items|, |ring|)
    requires ReadFrom(ring, Overflow(|rest|, |items|, |ring|), contents)
    ensures IsSplice(rest, index, items, |ring|, contents)
  {
    var max, overflow := |ring|, Overflow(|rest|, |items|, |ring|);
    forall i | 0 <= i < |contents|
      ensures contents[i] == Placed(rest, index, items, max, overflow + i)
    {
      Assembled(rest, index, items, moved, ring, overflow + i);
    }
    if SpliceKeeps(|rest|, index, |items|, max) {
      SplicedPlainly(rest, index, items, max, With(rest, index, items), contents);
    }
  }

  lemma SplicedPlainly<T>(rest: seq<T>, index: nat, items: seq<T>, max: nat, edited: seq<T>, contents: seq<T>)
    requires index <= |rest| <= max && SpliceKeeps(|rest|, index, |items|, max) && edited == With(rest, index, items)
    requires |contents| == |edited| - Overflow(|rest|, |items|, max)
    requires forall i :: 0 <= i < |contents| ==>
               contents[i] == Placed(rest, index, items, max, Overflow(|rest|, |items|, max) + i)
    ensures contents == Newest(edited, max)
  {
    var overflow := Overflow(|rest|, |items|, max);
    forall i | 0 <= i < |contents|
      ensures contents[i] == edited[overflow + i]
    {
      PlacedPlainly(rest, index, items, max, overflow + i);
    }
  }

  /** A splice is the plain edit exactly when it keeps what it should; otherwise the plain edit ends
      with the element that was last before, and the list ends with one of the items. */
  lemma SpliceIsPlainEdit<T>(rest: seq<T>, index: nat, items: seq<T>, max: nat, result: seq<T>)
    requires index <= |rest| <= max && rest != [] && IsSplice(rest, index, items, max, result)
    requires rest[|rest| - 1] !in items
    ensures result == Newest(With(rest, index, items), max) <==> SpliceKeeps(|rest|, index, |items|, max)
  {
    if !SpliceKeeps(|rest|, index, |items|, max) {
      var edited := Newest(With(rest, index, items), max);
      assert edited[|edited| - 1] == rest[|rest| - 1];
      var last := |result| - 1;
      assert result[last] == Placed(rest, index, items, max, Overflow(|rest|, |items|, max) + last);
    }
  }

  /** A full list of two, and one item inserted before them: the plain edit would drop the item again,
      the ring puts it in the place of the last element. */
  lemma SpliceLosesTheLast<T>(a: T, b: T, item: T, result: seq<T>)
    requires IsSplice([a, b], 0, [item], 2, result) && item != b
    ensures Newest(With([a, b], 0, [item]), 2) == [a, b]
    ensures |result| == 2 && result[1] == item && result != [a, b]
  {
  }
}
