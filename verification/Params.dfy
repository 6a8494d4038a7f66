/** The parameter store of a control sequence (xterm.js module 8742). All sub-parameters live in one
    flat array; those of a parameter are delimited by a start and an end index packed into sixteen
    bits. The store is proved to hold exactly the `ParamList.List` that each operation says. */
module Params {
  import opened PL = ParamList

  // ---------------------------------------------------------------- the packed store

  /** `subLen << 8 | subLen` and its increments, in a slot of sixteen bits. */
  function Pack(start: nat, end: nat): nat { (start * 256 + end) % 0x10000 }
  function Start(packed: nat): nat { packed / 256 }
  function End(packed: nat): nat { packed % 256 }

  /** A packed slot says where its sub-parameters are exactly when the end index fits eight bits. The
      constructor admits 256 sub-parameters, one too many; the default of 32 is safe. */
  lemma PackedExactly(start: nat, end: nat)
    requires start <= end <= 256
    ensures Start(Pack(start, end)) == start && End(Pack(start, end)) == end <==> end <= 255
    ensures end == 256 ==> End(Pack(start, end)) <= Start(Pack(start, end))
  {
    if end <= 255 {
      HighAndLow(start, end);
    } else {
      PackedFull(start);
    }
  }

  /** The 256th sub-parameter carries into the start index. */
  lemma PackedFull(start: nat)
    requires start <= 256
    ensures End(Pack(start, 256)) == 0
  {
    Carries(start * 256 + 256, start + 1);
  }

  lemma Carries(packed: nat, high: nat)
    requires packed == high * 256 && high <= 257
    ensures packed % 0x10000 % 256 == 0
  {
    if high < 256 {
      assert packed % 0x10000 == packed;
      MultipleOf(packed, high);
    } else if high == 256 {
      assert packed == 0x10000;
    } else {
      assert packed == 0x10100;
    }
  }

  lemma MultipleOf(packed: nat, high: nat)
    requires packed == high * 256
    ensures packed % 256 == 0
  {
  }

  lemma HighAndLow(high: nat, low: nat)
    requires high <= 255 && low <= 255
    ensures (high * 256 + low) % 0x10000 == high * 256 + low
    ensures (high * 256 + low) / 256 == high && (high * 256 + low) % 256 == low
  {
  }

  /** What the three arrays hold for a list of parameters. */
  function Values(items: seq<Param>): (r: seq<Value>)
    ensures |r| == |items|
  {
    if items == [] then [] else Values(items[..|items| - 1]) + [items[|items| - 1].value]
  }

  function AllSubs(items: seq<Param>): (r: seq<Value>)
    ensures |r| == SubCount(items)
  {
    if items == [] then [] else AllSubs(items[..|items| - 1]) + items[|items| - 1].subs
  }

  function Slots(items: seq<Param>): (r: seq<nat>)
    ensures |r| == |items|
  {
    if items == [] then []
    else
      var front := items[..|items| - 1];
      Slots(front) + [Pack(SubCount(front), SubCount(items))]
  }

  /** What can be read back: the slot at which the 256th sub-parameter comes in shows none any more. */
  function Readable(items: seq<Param>): (r: seq<Param>)
    ensures |r| == |items|
  {
    if items == [] then []
    else
      var last := items[|items| - 1];
      Readable(items[..|items| - 1]) + [if SubCount(items) <= 255 then last else last.(subs := [])]
  }

  /** One parameter more at the end of the arrays. */
  lemma StoredMore(front: seq<Param>, last: Param, items: seq<Param>)
    requires items == front + [last]
    ensures Values(items) == Values(front) + [last.value]
    ensures AllSubs(items) == AllSubs(front) + last.subs && SubCount(items) == SubCount(front) + |last.subs|
    ensures Slots(items) == Slots(front) + [Pack(SubCount(front), SubCount(items))]
    ensures Readable(items) == Readable(front) + [if SubCount(items) <= 255 then last else last.(subs := [])]
  {
    assert items[..|items| - 1] == front;
  }

  lemma PackNext(start: nat, end: nat)
    ensures (Pack(start, end) + 1) % 0x10000 == Pack(start, end + 1)
  {
  }

  /** A new sub-parameter: one more value, and the slot counts up by one in its sixteen bits. */
  lemma StoresOneSub(front: seq<Param>, last: Param, v: Value, items: seq<Param>, now: seq<Param>)
    requires items == front + [last] && now == front + [last.(subs := last.subs + [v])]
    ensures Values(now) == Values(items) && AllSubs(now) == AllSubs(items) + [v]
    ensures Slots(now) == Slots(items)[..|front|] + [(Slots(items)[|front|] + 1) % 0x10000]
    ensures SubCount(now) == SubCount(items) + 1
  {
    StoredMore(front, last, items);
    StoredMore(front, last.(subs := last.subs + [v]), now);
    Regroup(AllSubs(front), last.subs, [v]);
    LastSlot(Slots(front), Pack(SubCount(front), SubCount(items)), Slots(items));
    PackNext(SubCount(front), SubCount(items));
  }

  lemma Regroup(x: seq<Value>, y: seq<Value>, z: seq<Value>)
    ensures x + y + z == x + (y + z)
  {
  }

  lemma LastSlot(front: seq<nat>, slot: nat, slots: seq<nat>)
    requires slots == front + [slot]
    ensures slots[..|front|] == front && slots[|front|] == slot
  {
  }

  /** A digit replaces the value it goes to, and no slot. */
  lemma StoresDigit(front: seq<Param>, last: Param, v: Value, items: seq<Param>, now: seq<Param>)
    requires items == front + [last] && now == front + [last.(value := v)]
    ensures Values(now) == Values(items)[..|front|] + [v] && AllSubs(now) == AllSubs(items)
    ensures Slots(now) == Slots(items) && SubCount(now) == SubCount(items)
  {
    StoredMore(front, last, items);
    StoredMore(front, last.(value := v), now);
  }

  lemma StoresSubDigit(front: seq<Param>, last: Param, subs: seq<Value>, was: Value, v: Value,
                       items: seq<Param>, now: seq<Param>)
    requires last.subs == subs + [was]
    requires items == front + [last] && now == front + [last.(subs := subs + [v])]
    ensures SubCount(now) == SubCount(items) > 0 && AllSubs(items)[SubCount(items) - 1] == was
    ensures Values(now) == Values(items) && Slots(now) == Slots(items)
    ensures AllSubs(now) == AllSubs(items)[..SubCount(items) - 1] + [v]
  {
    StoredMore(front, last, items);
    StoredMore(front, last.(subs := subs + [v]), now);
  }

  /** What the packed indices of a slot delimit is exactly what can be read of its parameter. */
  lemma {:induction false} ReadSlot(items: seq<Param>, t: nat, start: nat, end: nat)
    requires t < |items| && SubCount(items) <= 256
    requires start == Start(Slots(items)[t]) && end == End(Slots(items)[t])
    ensures end > start ==> end <= SubCount(items)
    ensures Readable(items)[t] == Param(Values(items)[t], if end > start then AllSubs(items)[start..end] else [])
    decreases |items|
  {
    var n := |items| - 1;
    var front, last := items[..n], items[n];
    StoredMore(front, last, items);
    if t < n {
      ReadSlot(front, t, start, end);
      if end > start {
        SliceOfFront(AllSubs(front), last.subs, AllSubs(items), start, end);
      }
    } else {
      PackedExactly(SubCount(front), SubCount(items));
      SliceOfEnd(AllSubs(front), last.subs, AllSubs(items));
    }
  }

  lemma SliceOfFront(front: seq<Value>, more: seq<Value>, all: seq<Value>, start: nat, end: nat)
    requires all == front + more && start <= end <= |front|
    ensures all[start..end] == front[start..end]
  {
  }

  lemma SliceOfEnd(front: seq<Value>, more: seq<Value>, all: seq<Value>)
    requires all == front + more
    ensures all[|front|..|all|] == more
  {
  }

  /** The whole list can be read back exactly up to 255 sub-parameters. The constructor admits 256, one
      too many; the default of 32 is safe. */
  lemma {:induction false} ReadableExactly(items: seq<Param>)
    requires SubCount(items) <= 256
    ensures Readable(items) == items <==> SubCount(items) <= 255
  {
    if items != [] {
      var n := |items| - 1;
      ReadableExactly(items[..n]);
      assert items == items[..n] + [items[n]];
      assert Readable(items)[..n] == Readable(items[..n]);
      assert Readable(items)[n] == if SubCount(items) <= 255 then items[n] else items[n].(subs := []);
    }
  }

  /** With the 256th all sub-parameters of its parameter are gone, and nothing else is. */
  lemma OneTooMany(p: List, front: seq<Param>, last: Param, v: Value)
    requires Valid(p) && p.items == front + [last] && !p.rejectDigits && p.maxSubs == 256 && SubCount(p.items) == 255
    ensures var q := AddSubParam(p, v);
            && q.items == front + [last.(subs := last.subs + [v])] && SubCount(q.items) == 256
            && Readable(q.items) == front + [last.(subs := [])]
  {
    SubAppended(p, front, last, v);
    StoredMore(front, last, p.items);
    StoredMore(front, last.(subs := last.subs + [v]), front + [last.(subs := last.subs + [v])]);
    ReadableExactly(front);
  }

  /** The stretches do not overlap and keep the order of their parameters. */
  lemma {:induction false} StretchesInOrder(items: seq<Param>, i: nat, j: nat)
    requires i < j < |items| && SubCount(items) <= 255
    ensures Start(Slots(items)[i]) <= End(Slots(items)[i]) <= Start(Slots(items)[j]) <= SubCount(items)
    decreases |items|
  {
    var front := items[..|items| - 1];
    if j < |items| - 1 {
      StretchesInOrder(front, i, j);
    } else {
      PackedExactly(SubCount(front), SubCount(items));
      EndsBefore(front, i);
    }
  }

  lemma {:induction false} EndsBefore(items: seq<Param>, i: nat)
    requires i < |items| && SubCount(items) <= 255
    ensures Start(Slots(items)[i]) <= End(Slots(items)[i]) <= SubCount(items)
    decreases |items|
  {
    var front := items[..|items| - 1];
    if i < |items| - 1 {
      EndsBefore(front, i);
    } else {
      PackedExactly(SubCount(front), SubCount(items));
    }
  }

  class Params {
    const maxLength: nat
    const maxSubParamsLength: nat
    const params: array<Value>
    const subParams: array<Value>
    const subParamsIdx: array<nat>
    var length: nat
    var subParamsLength: nat
    var rejectDigits: bool
    var rejectSubDigits: bool
    var digitIsSub: bool
    /** What the fields above mean. */
    ghost var list: List

    ghost const Repr: set<object> := {this, params, subParams, subParamsIdx}

    ghost predicate Shaped()
      reads this`length, this`subParamsLength
    {
      && params.Length == subParamsIdx.Length == maxLength && subParams.Length == maxSubParamsLength <= 256
      && params != subParams
      && length <= maxLength && subParamsLength <= maxSubParamsLength
    }

    /** The arrays hold `items`. */
    ghost predicate Holds(items: seq<Param>)
      requires Shaped()
      reads this`length, this`subParamsLength, params, subParams, subParamsIdx
    {
      && length == |items| && subParamsLength == SubCount(items)
      && params[..length] == Values(items)
      && subParams[..subParamsLength] == AllSubs(items)
      && subParamsIdx[..length] == Slots(items)
    }

    /** The fields hold `list`. */
    ghost predicate Stored()
      reads Repr
    {
      Shaped() && Holds(list.items) && Limits(list)
    }

    ghost predicate Limits(list: List)
      reads this`rejectDigits, this`rejectSubDigits, this`digitIsSub
    {
      && list.maxLength == maxLength && list.maxSubs == maxSubParamsLength
      && list.rejectDigits == rejectDigits && list.rejectSubDigits == rejectSubDigits && list.digitIsSub == digitIsSub
    }

    ghost predicate Valid()
      reads Repr
    {
      Stored() && PL.Valid(list)
    }

    constructor (maxLength: nat, maxSubParamsLength: nat)
      requires maxSubParamsLength <= 256
      ensures Valid() && fresh(Repr) && fresh(params) && fresh(subParams) && fresh(subParamsIdx)
      ensures list == Empty(maxLength, maxSubParamsLength)
    {
      this.maxLength, this.maxSubParamsLength := maxLength, maxSubParamsLength;
      params := new Value[maxLength];
      subParams := new Value[maxSubParamsLength];
      subParamsIdx := new nat[maxLength];
      length, subParamsLength := 0, 0;
      rejectDigits, rejectSubDigits, digitIsSub := false, false, false;
      list := Empty(maxLength, maxSubParamsLength);
    }

    method Reset()
      requires Valid()
      modifies this
      ensures Valid() && list == PL.Reset(old(list))
    {
      length := 0;
      subParamsLength := 0;
      rejectDigits, rejectSubDigits, digitIsSub := false, false, false;
      list := PL.Reset(list);
    }

    /** Refused is what the source throws, with the digit switch already reset. */
    method AddParam(v: int) returns (ok: bool)
      requires Valid()
      modifies Repr
      ensures Valid()
      ensures ok <==> v >= -1 || |old(list.items)| == maxLength
      ensures list == if ok then PL.AddParam(old(list), if v < -1 then -1 else v) else old(list).(digitIsSub := false)
    {
      digitIsSub := false;
      ok := true;
      if length >= maxLength {
        rejectDigits := true;
        list := list.(rejectDigits := true, digitIsSub := false);
      } else if v < -1 {
        ok := false;
        list := list.(digitIsSub := false);
      } else {
        AppendParam(if v > MAX_VALUE then MAX_VALUE else v);
      }
    }

    method AppendParam(v: Value)
      requires PL.Valid(list) && Shaped() && Holds(list.items) && Limits(list.(digitIsSub := false))
      requires length < maxLength
      modifies this`length, this`list, params, subParamsIdx
      ensures Valid() && list == PL.AddParam(old(list), v)
    {
      ParamAppended(list, v);
      StoreParam(v, list.items);
      list := list.(digitIsSub := false, items := list.items + [Param(v, [])]);
    }

    method StoreParam(v: Value, ghost items: seq<Param>)
      requires Shaped() && length < maxLength && Holds(items)
      modifies this`length, params, subParamsIdx
      ensures Shaped() && Holds(items + [Param(v, [])])
    {
      StoredMore(items, Param(v, []), items + [Param(v, [])]);
      subParamsIdx[length] := Pack(subParamsLength, subParamsLength);
      params[length] := v;
      length := length + 1;
      assert params[..length] == old(params[..length]) + [v];
      assert subParamsIdx[..length] == old(subParamsIdx[..length]) + [Pack(subParamsLength, subParamsLength)];
    }

    method AddSubParam(v: int) returns (ok: bool)
      requires Valid()
      modifies Repr
      ensures ok ==> Valid()
      ensures ok <==> v >= -1 || !StoresSub(old(list))
      ensures ok ==> list == PL.AddSubParam(old(list), if v < -1 then -1 else v)
      ensures !ok ==> Stored() && list == old(list).(digitIsSub := true)
    {
      ok := true;
      if length == 0 {
        digitIsSub := true;
        list := list.(digitIsSub := true);
      } else if rejectDigits || subParamsLength >= maxSubParamsLength {
        digitIsSub := true;
        rejectSubDigits := true;
        list := list.(digitIsSub := true, rejectSubDigits := true);
      } else if v < -1 {
        digitIsSub := true;
        list := list.(digitIsSub := true);
        ok := false;
      } else {
        ghost var front, last := list.items[..length - 1], list.items[length - 1];
        assert list.items == front + [last];
        AppendSubParam(if v > MAX_VALUE then MAX_VALUE else v, front, last);
      }
    }

    method AppendSubParam(v: Value, ghost front: seq<Param>, ghost last: Param)
      requires Valid() && list.items == front + [last] && !rejectDigits && subParamsLength < maxSubParamsLength
      modifies Repr
      ensures Valid() && list == PL.AddSubParam(old(list), v)
    {
      SubAppended(list, front, last, v);
      digitIsSub := true;
      StoreSub(v, front, last);
      list := list.(digitIsSub := true, items := front + [last.(subs := last.subs + [v])]);
    }

    method StoreSub(v: Value, ghost front: seq<Param>, ghost last: Param)
      requires Shaped() && length == |front| + 1 && subParamsLength < maxSubParamsLength && Holds(front + [last])
      modifies this`subParamsLength, subParams, subParamsIdx
      ensures Shaped() && Holds(front + [last.(subs := last.subs + [v])])
    {
      StoresOneSub(front, last, v, front + [last], front + [last.(subs := last.subs + [v])]);
      subParams[subParamsLength] := v;
      subParamsLength := subParamsLength + 1;
      subParamsIdx[length - 1] := (subParamsIdx[length - 1] + 1) % 0x10000;
    }

    method AddDigit(digit: Digit)
      requires Valid()
      modifies this`list, params, subParams
      ensures Valid()
      ensures list == PL.AddDigit(old(list), digit)
    {
      var slot := if digitIsSub then subParamsLength else length;
      if rejectDigits || slot == 0 || (digitIsSub && rejectSubDigits) {
        return;
      }
      ghost var front, last := list.items[..length - 1], list.items[length - 1];
      assert list.items == front + [last];
      StoreDigit(digit, front, last);
    }

    method StoreDigit(digit: Digit, ghost front: seq<Param>, ghost last: Param)
      requires Valid() && list.items == front + [last] && !rejectDigits && !(digitIsSub && rejectSubDigits)
      modifies this`list, params, subParams
      ensures Valid() && list == PL.AddDigit(old(list), digit)
    {
      DigitIs(list, front, last, digit);
      if digitIsSub {
        ghost var m := |last.subs| - 1;
        DigitToSub(digit, front, last);
        list := list.(items := front + [last.(subs := last.subs[..m] + [Shift(last.subs[m], digit)])]);
      } else {
        DigitToParam(digit, front, last);
        list := list.(items := front + [last.(value := Shift(last.value, digit))]);
      }
    }

    method DigitToParam(digit: Digit, ghost front: seq<Param>, ghost last: Param)
      requires Shaped() && length == |front| + 1 && Holds(front + [last])
      modifies params
      ensures Holds(front + [last.(value := Shift(last.value, digit))])
    {
      ghost var v := Shift(last.value, digit);
      StoresDigit(front, last, v, front + [last], front + [last.(value := v)]);
      StoredMore(front, last, front + [last]);
      assert params[length - 1] == params[..length][length - 1] == last.value;
      params[length - 1] := Shift(params[length - 1], digit);
    }

    method DigitToSub(digit: Digit, ghost front: seq<Param>, ghost last: Param)
      requires Shaped() && length == |front| + 1 && last.subs != [] && Holds(front + [last])
      modifies subParams
      ensures var m := |last.subs| - 1;
              Holds(front + [last.(subs := last.subs[..m] + [Shift(last.subs[m], digit)])])
    {
      ghost var m := |last.subs| - 1;
      ghost var v := Shift(last.subs[m], digit);
      StoresSubDigit(front, last, last.subs[..m], last.subs[m], v, front + [last],
                     front + [last.(subs := last.subs[..m] + [v])]);
      assert subParams[subParamsLength - 1] == subParams[..subParamsLength][subParamsLength - 1];
      subParams[subParamsLength - 1] := Shift(subParams[subParamsLength - 1], digit);
    }

    /** `fromArray`; not `ok` is what the source throws. */
    static method FromArray(items: seq<Item>) returns (t: Params, ok: bool)
      ensures fresh(t.Repr)
      ensures ok ==> t.Valid()
      ensures FromItems(items) == if ok then Built(t.list) else BadValue
    {
      t := new Params(MAX_PARAMS, MAX_SUB_PARAMS);
      ok := t.AddItemsFrom(items, if items != [] && items[0].Subs? then 1 else 0);
    }

    method AddItemsFrom(items: seq<Item>, first: nat) returns (ok: bool)
      requires Valid() && first <= |items|
      modifies Repr
      ensures ok ==> Valid()
      ensures AddItems(old(list), items[first..]) == if ok then Built(list) else BadValue
    {
      ghost var rest := items[first..];
      ghost var before := list;
      ok := true;
      var i := first;
      while i < |items|
        invariant first <= i <= |items|
        invariant Valid()
        invariant AddItems(before, rest[..i - first]) == Built(list)
      {
        ok := AddNext(items[i], before, rest, i - first);
        if !ok {
          AddItemsRefused(before, rest, i - first + 1);
          return;
        }
        i := i + 1;
      }
      assert rest[..i - first] == rest;
    }

    method AddNext(item: Item, ghost before: PL.List, ghost rest: seq<Item>, ghost n: nat) returns (ok: bool)
      requires Valid() && n < |rest| && item == rest[n]
      requires PL.Valid(before) && AddItems(before, rest[..n]) == Built(list)
      modifies Repr
      ensures ok ==> Valid()
      ensures AddItems(before, rest[..n + 1]) == if ok then Built(list) else BadValue
    {
      AddItemsStep(before, rest, n);
      ok := AddItem(item);
    }

    method AddItem(item: Item) returns (ok: bool)
      requires Valid()
      modifies Repr
      ensures ok ==> Valid()
      ensures PL.AddItem(old(list), item) == if ok then Built(list) else BadValue
    {
      match item
      case Number(v) =>
        ok := AddParam(v);
      case Subs(vs) =>
        ok := AddSubs(vs);
    }

    method AddSubs(vs: seq<int>) returns (ok: bool)
      requires Valid()
      modifies Repr
      ensures ok ==> Valid()
      ensures AddSubParams(old(list), vs) == if ok then Built(list) else BadValue
    {
      ghost var before := list;
      ok := true;
      var e := 0;
      while e < |vs|
        invariant e <= |vs| && Valid()
        invariant AddSubParams(before, vs[..e]) == Built(list)
      {
        AddSubParamsStep(before, vs, e);
        ok := AddSubParam(vs[e]);
        if !ok {
          AddSubParamsRefused(before, vs, e + 1);
          return;
        }
        e := e + 1;
      }
      assert vs[..e] == vs;
    }

    /** `toArray`. */
    method ToArray() returns (a: seq<Item>)
      requires Valid()
      ensures a == ToItems(Readable(list.items))
      ensures a == ToItems(list.items) <==> subParamsLength <= 255
    {
      a := [];
      ghost var items := Readable(list.items);
      for t := 0 to length
        invariant a == ToItems(items[..t])
      {
        var p := ReadAt(t);
        assert items[..t + 1][..t] == items[..t];
        a := a + [Number(p.value)];
        if |p.subs| > 0 {
          a := a + [Subs(p.subs)];
        }
      }
      assert items[..length] == items;
      ReadableExactly(list.items);
      if a == ToItems(list.items) {
        ToItemsInjective(items, list.items);
      }
    }

    /** The parameter at `t` with what `getSubParams(t)` gives, none for null. */
    method ReadAt(t: nat) returns (p: Param)
      requires Valid() && t < length
      ensures p == Readable(list.items)[t]
    {
      p := ReadStored(t, list.items);
    }

    method ReadStored(t: nat, ghost items: seq<Param>) returns (p: Param)
      requires Shaped() && Holds(items) && t < length
      ensures p == Readable(items)[t]
    {
      var start, end := Start(subParamsIdx[t]), End(subParamsIdx[t]);
      assert params[t] == params[..length][t] && subParamsIdx[t] == subParamsIdx[..length][t];
      ReadSlot(items, t, start, end);
      if end > start {
        SliceOfFront(subParams[..subParamsLength], subParams[subParamsLength..], subParams[..], start, end);
        p := Param(params[t], subParams[start..end]);
      } else {
        p := Param(params[t], []);
      }
    }

    /** What a handler that is given this object, or a `clone` of it, can see. */
    method Snapshot() returns (p: List)
      requires Valid()
      ensures p == list.(items := Readable(list.items))
      ensures maxSubParamsLength <= 255 ==> p == list
    {
      var items: seq<Param> := [];
      for t := 0 to length
        invariant items == Readable(list.items)[..t]
      {
        var q := ReadAt(t);
        items := items + [q];
      }
      ReadableExactly(list.items);
      p := List(maxLength, maxSubParamsLength, items, rejectDigits, rejectSubDigits, digitIsSub);
    }
  }
}
