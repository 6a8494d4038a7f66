/** Merging the ranges found by character joiners (xterm.js module 4269, `_mergeRanges`): the loop
    edits the list that it walks. */
module MergeRanges {

  /** The columns from `start` up to but not including `end`. */
  datatype Range = Range(start: int, end: int)

  predicate Has(r: Range, x: int) { r.start <= x < r.end }

  predicate Covers(list: seq<Range>, x: int) { exists i :: 0 <= i < |list| && Has(list[i], x) }

  /** Non-empty, in order, and disjoint; neighbours may touch. */
  predicate Sorted(list: seq<Range>) {
    && (forall i :: 0 <= i < |list| ==> list[i].start < list[i].end)
    && (forall i, j :: 0 <= i < j < |list| ==> list[i].end <= list[j].start)
  }

  predicate Apart(a: Range, b: Range) { a.end <= b.start || b.end <= a.start }

  function Min(a: int, b: int): int { if a < b then a else b }
  function Max(a: int, b: int): int { if a < b then b else a }

  /** `list` with the ranges `k` to `j - 1` replaced by one. */
  function Replaced(list: seq<Range>, k: nat, j: nat, r: Range): seq<Range>
    requires k <= j <= |list|
  {
    list[..k] + [r] + list[j..]
  }

  /** One range `r` spans the new range and the ranges `k` to `j - 1`, the only ones it may meet. */
  ghost predicate Spans(list: seq<Range>, k: nat, j: nat, r: Range, added: Range) {
    && Sorted(list) && added.start < added.end && k <= j <= |list|
    && (forall i :: 0 <= i < k ==> list[i].end <= added.start)
    && (forall i :: j <= i < |list| ==> added.end <= list[i].start)
    && (if k == j then r == added
        else && r == Range(Min(added.start, list[k].start), Max(added.end, list[j - 1].end))
             && added.start < list[k].end && list[j - 1].start < added.end)
  }

  lemma ReplacedSorted(list: seq<Range>, k: nat, j: nat, r: Range, added: Range)
    requires Spans(list, k, j, r, added)
    ensures Sorted(Replaced(list, k, j, r))
  {
    if k < j {
      InsideSpan(list, k, j, r, added, k);
      InsideSpan(list, k, j, r, added, j - 1);
      assert forall i | 0 <= i < k :: list[i].end <= list[k].start;
      assert forall i | j <= i < |list| :: list[j - 1].end <= list[i].start;
    }
    assert r.start < r.end;
    assert forall i | 0 <= i < k :: list[i].end <= r.start;
    assert forall i | j <= i < |list| :: r.end <= list[i].start;
    ReplacedInOrder(list, k, j, r);
  }

  lemma ReplacedInOrder(list: seq<Range>, k: nat, j: nat, r: Range)
    requires Sorted(list) && k <= j <= |list| && r.start < r.end
    requires forall i :: 0 <= i < k ==> list[i].end <= r.start
    requires forall i :: j <= i < |list| ==> r.end <= list[i].start
    ensures Sorted(Replaced(list, k, j, r))
  {
    var result := Replaced(list, k, j, r);
    forall m, n | 0 <= m < n < |result|
      ensures result[m].end <= result[n].start
    {
      var source := (i: int) => if i < k then i else j + (i - k - 1);
      if m != k && n != k {
        assert result[m] == list[source(m)] && result[n] == list[source(n)];
      }
    }
  }

  /** A column between the first and the last of the spanned ranges. */
  lemma InsideSpan(list: seq<Range>, k: nat, j: nat, r: Range, added: Range, i: nat)
    requires Spans(list, k, j, r, added) && k <= i < j
    ensures r.start <= list[i].start && list[i].end <= r.end && !Apart(list[i], added)
  {
    assert k < i ==> list[k].end <= list[i].start;
    assert i < j - 1 ==> list[i].end <= list[j - 1].start;
    assert list[k].start < list[k].end && list[i].start < list[i].end && list[j - 1].start < list[j - 1].end;
  }

  lemma ReplacedCoversOnly(list: seq<Range>, k: nat, j: nat, r: Range, added: Range, x: int)
    requires Spans(list, k, j, r, added) && Covers(Replaced(list, k, j, r), x)
    ensures Covers(list, x) || Has(added, x)
  {
    var result := Replaced(list, k, j, r);
    var i :| 0 <= i < |result| && Has(result[i], x);
    if i < k {
      assert Has(list[i], x);
    } else if i > k {
      assert Has(list[j + (i - k - 1)], x);
    } else if k < j && !Has(added, x) {
      SpanWithin(list, k, j, r, added, x);
    }
  }

  /** What a span covers beyond the new range lies in its first range or its last. */
  lemma SpanWithin(list: seq<Range>, k: nat, j: nat, r: Range, added: Range, x: int)
    requires Spans(list, k, j, r, added) && k < j && Has(r, x) && !Has(added, x)
    ensures Has(list[k], x) || Has(list[j - 1], x)
  {
  }

  lemma ReplacedCoversAll(list: seq<Range>, k: nat, j: nat, r: Range, added: Range, x: int)
    requires Spans(list, k, j, r, added) && (Covers(list, x) || Has(added, x))
    ensures Covers(Replaced(list, k, j, r), x)
  {
    var result := Replaced(list, k, j, r);
    if Has(added, x) {
      assert Has(result[k], x);
    } else {
      var i :| 0 <= i < |list| && Has(list[i], x);
      if i < k {
        assert Has(result[i], x);
      } else if i < j {
        InsideSpan(list, k, j, r, added, i);
        assert Has(result[k], x);
      } else {
        assert Has(result[k + 1 + (i - j)], x);
      }
    }
  }

  lemma ReplacedKeeps(list: seq<Range>, k: nat, j: nat, r: Range, added: Range, i: nat)
    requires Spans(list, k, j, r, added) && i < |list| && Apart(list[i], added)
    ensures list[i] in Replaced(list, k, j, r)
  {
    var result := Replaced(list, k, j, r);
    if i < k {
      assert result[i] == list[i];
    } else if i >= j {
      assert result[k + 1 + (i - j)] == list[i];
    } else {
      InsideSpan(list, k, j, r, added, i);
    }
  }

  lemma ReplacedMerges(list: seq<Range>, k: nat, j: nat, r: Range, added: Range)
    requires Spans(list, k, j, r, added)
    ensures Merges(list, added, Replaced(list, k, j, r))
  {
    ReplacedSorted(list, k, j, r, added);
    forall x: int
      ensures Covers(Replaced(list, k, j, r), x) <==> Covers(list, x) || Has(added, x)
    {
      if Covers(Replaced(list, k, j, r), x) {
        ReplacedCoversOnly(list, k, j, r, added, x);
      }
      if Covers(list, x) || Has(added, x) {
        ReplacedCoversAll(list, k, j, r, added, x);
      }
    }
    forall i | 0 <= i < |list| && Apart(list[i], added)
      ensures list[i] in Replaced(list, k, j, r)
    {
      ReplacedKeeps(list, k, j, r, added, i);
    }
  }

  /** The result is in order, covers the old ranges and the new one and nothing else, and the ranges
      that the new one does not meet are still there as they were. */
  ghost predicate Merges(list: seq<Range>, added: Range, result: seq<Range>) {
    && Sorted(result)
    && (forall x: int :: Covers(result, x) <==> Covers(list, x) || Has(added, x))
    && (forall i :: 0 <= i < |list| && Apart(list[i], added) ==> list[i] in result)
  }

  method Merge(list: seq<Range>, added: Range) returns (ranges: seq<Range>)
    requires Sorted(list) && added.start < added.end
    ensures Merges(list, added, ranges)
  {
    ranges := list;
    var inRange := false;
    var s := 0;
    ghost var j := 0;
    while s < |ranges|
      invariant 0 <= s <= |ranges|
      invariant if inRange then s > 0 && Running(list, added, s - 1, j, ranges)
                else ranges == list && Passed(list, added, s)
      decreases |ranges| - s
    {
      var done;
      if inRange {
        done, ranges := Reach(list, added, ranges, s, j);
        j := j + 1;
        s := s - 1;
      } else {
        done, inRange, ranges := Meet(list, added, s);
        j := s + 1;
      }
      if done {
        return;
      }
      s := s + 1;
    }
    if inRange {
      ghost var was := ranges;
      ranges := ranges[|ranges| - 1 := ranges[|ranges| - 1].(end := added.end)];
      EndsBefore(list, added, s - 1, j, was, ranges);
    } else {
      ranges := ranges + [added];
      Inserted(list, s, added, ranges);
    }
  }

  /** The ranges before `s` end before the new one. */
  ghost predicate Passed(list: seq<Range>, added: Range, s: nat) {
    s <= |list| && forall i :: 0 <= i < s ==> list[i].end <= added.start
  }

  /** The turn for the range at `s` when the new one has met none before. */
  method Meet(list: seq<Range>, added: Range, s: nat) returns (done: bool, inRange: bool, ranges: seq<Range>)
    requires Sorted(list) && added.start < added.end && s < |list| && Passed(list, added, s)
    ensures if done then Merges(list, added, ranges)
            else if inRange then Running(list, added, s, s + 1, ranges) && |ranges| == |list|
            else ranges == list && Passed(list, added, s + 1)
  {
    var range := list[s];
    done, inRange, ranges := false, false, list;
    if added.end <= range.start {
      ranges := list[..s] + [added] + list[s..];
      Inserted(list, s, added, ranges);
      done := true;
    } else if added.end <= range.end {
      ranges := list[s := range.(start := Min(added.start, range.start))];
      Finished(list, s, s + 1, added, ranges);
      done := true;
    } else if added.start < range.end {
      ranges := list[s := range.(start := Min(added.start, range.start))];
      inRange := true;
    }
  }

  /** The turn for the range at `s` when the new one has met the range before it. */
  method Reach(list: seq<Range>, added: Range, ranges: seq<Range>, s: nat, ghost j: nat)
    returns (done: bool, ranges': seq<Range>)
    requires Sorted(list) && added.start < added.end
    requires 0 < s < |ranges| && Running(list, added, s - 1, j, ranges)
    ensures if done then Merges(list, added, ranges') else Running(list, added, s - 1, j + 1, ranges')
    ensures !done ==> |ranges'| == |ranges| - 1
  {
    var range := ranges[s];
    if added.end <= range.start {
      ranges' := ranges[s - 1 := ranges[s - 1].(end := added.end)];
      EndsBefore(list, added, s - 1, j, ranges, ranges');
      done := true;
    } else if added.end <= range.end {
      var grown := ranges[s - 1 := ranges[s - 1].(end := Max(added.end, range.end))];
      ranges' := grown[..s] + grown[s + 1..];
      EndsWithin(list, added, s - 1, j, ranges, grown, ranges');
      done := true;
    } else {
      ranges' := ranges[..s] + ranges[s + 1..];
      Absorbs(list, added, s - 1, j, ranges, ranges');
      done := false;
    }
  }

  /** The new range has met range `k` and gone past those up to `j - 1`, which are in range `k` now but
      for its end. */
  ghost predicate Running(list: seq<Range>, added: Range, k: nat, j: nat, ranges: seq<Range>) {
    && k < j <= |list|
    && ranges == Replaced(list, k, j, Range(Min(added.start, list[k].start), list[k].end))
    && (forall i :: 0 <= i < k ==> list[i].end <= added.start)
    && added.start < list[k].end && list[j - 1].end < added.end
  }

  lemma EndsBefore(list: seq<Range>, added: Range, k: nat, j: nat, ranges: seq<Range>, result: seq<Range>)
    requires Sorted(list) && added.start < added.end && Running(list, added, k, j, ranges)
    requires j < |list| ==> added.end <= list[j].start
    requires result == ranges[k := ranges[k].(end := added.end)]
    ensures Merges(list, added, result)
  {
    assert list[j - 1].start < list[j - 1].end;
    assert result == Replaced(list, k, j, Span(list, k, j, added));
    Finished(list, k, j, added, result);
  }

  lemma EndsWithin(list: seq<Range>, added: Range, k: nat, j: nat, ranges: seq<Range>, grown: seq<Range>,
                   result: seq<Range>)
    requires Sorted(list) && added.start < added.end && Running(list, added, k, j, ranges)
    requires j < |list| && list[j].start < added.end <= list[j].end
    requires grown == ranges[k := ranges[k].(end := Max(added.end, list[j].end))]
    requires result == grown[..k + 1] + grown[k + 2..]
    ensures Merges(list, added, result)
  {
    assert result == Replaced(list, k, j + 1, Span(list, k, j + 1, added));
    Finished(list, k, j + 1, added, result);
  }

  lemma Absorbs(list: seq<Range>, added: Range, k: nat, j: nat, ranges: seq<Range>, result: seq<Range>)
    requires Running(list, added, k, j, ranges) && j < |list| && list[j].end < added.end
    requires result == ranges[..k + 1] + ranges[k + 2..]
    ensures Running(list, added, k, j + 1, result)
  {
  }

  function Span(list: seq<Range>, k: nat, j: nat, added: Range): Range
    requires k < j <= |list|
  {
    Range(Min(added.start, list[k].start), Max(added.end, list[j - 1].end))
  }

  lemma Finished(list: seq<Range>, k: nat, j: nat, added: Range, result: seq<Range>)
    requires Sorted(list) && added.start < added.end && k < j <= |list|
    requires forall i :: 0 <= i < k ==> list[i].end <= added.start
    requires added.start < list[k].end
    requires list[j - 1].start < added.end
    requires j < |list| ==> added.end <= list[j].start || added.end <= list[j - 1].end
    requires result == Replaced(list, k, j, Span(list, k, j, added))
    ensures Merges(list, added, result)
  {
    assert forall i | j <= i < |list| :: list[j - 1].end <= list[i].start && (j < i ==> list[j].end <= list[i].start);
    assert j < |list| ==> list[j].start < list[j].end;
    ReplacedMerges(list, k, j, Span(list, k, j, added), added);
  }

  lemma Inserted(list: seq<Range>, k: nat, added: Range, result: seq<Range>)
    requires Sorted(list) && added.start < added.end && k <= |list|
    requires forall i :: 0 <= i < k ==> list[i].end <= added.start
    requires k < |list| ==> added.end <= list[k].start
    requires result == list[..k] + [added] + list[k..]
    ensures Merges(list, added, result)
  {
    assert forall i | k < i < |list| :: list[k].start < list[k].end <= list[i].start;
    ReplacedMerges(list, k, k, added, added);
  }

}
