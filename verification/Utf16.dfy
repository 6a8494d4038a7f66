/** UTF-16 in and out of the terminal: `stringFromCodePoint`, `utf32ToString` and the streaming
    decoder `StringToUtf32` (xterm.js module 482).

    Surrogate pairs are those of sections 2.1 and 2.2 of RFC 2781. The decoder is total: an unpaired
    surrogate is passed through as a code point of its own, and a lone U+FEFF is dropped. */
module Utf16 {

  type Unit = u: nat | u < 0x10000
  type Code = c: nat | c <= 0x10FFFF

  const BOM: Unit := 0xFEFF

  predicate IsHigh(u: nat) { 0xD800 <= u <= 0xDBFF }
  predicate IsLow(u: nat) { 0xDC00 <= u <= 0xDFFF }

  function Combine(high: Unit, low: Unit): Code
    requires IsHigh(high) && IsLow(low)
  {
    1024 * (high - 0xD800) + low - 0xDC00 + 0x10000
  }

  // ---------------------------------------------------------------- code points to units

  /** The one or two code units of a code point. */
  function UnitsOf(c: Code): seq<Unit> {
    if c > 0xFFFF then [0xD800 + (c - 0x10000) / 1024, (c - 0x10000) % 1024 + 0xDC00] else [c]
  }

  function Units(codes: seq<Code>): seq<Unit> {
    if codes == [] then [] else Units(codes[..|codes| - 1]) + UnitsOf(codes[|codes| - 1])
  }

  lemma UnitsConcat(a: seq<Code>, b: seq<Code>)
    ensures Units(a + b) == Units(a) + Units(b)
  {
    UnitsOfBoth(a, b, a + b);
  }

  lemma {:induction false} UnitsOfBoth(a: seq<Code>, b: seq<Code>, ab: seq<Code>)
    requires ab == a + b
    ensures Units(ab) == Units(a) + Units(b)
    decreases |b|
  {
    if b == [] {
      assert ab == a;
    } else {
      var n, m := |ab| - 1, |b| - 1;
      UnitsOfBoth(a, b[..m], ab[..n]);
      UnitsBothMore(a, b, ab, b[..m], ab[..n], b[m]);
    }
  }

  lemma UnitsBothMore(a: seq<Code>, b: seq<Code>, ab: seq<Code>, front: seq<Code>, both: seq<Code>, last: Code)
    requires b == front + [last] && ab == both + [last] && Units(both) == Units(a) + Units(front)
    ensures Units(ab) == Units(a) + Units(b)
  {
    UnitsMore(ab, both, last);
    UnitsMore(b, front, last);
    Regroup(Units(a), Units(front), UnitsOf(last));
  }

  lemma UnitsMore(codes: seq<Code>, front: seq<Code>, last: Code)
    requires codes == front + [last]
    ensures Units(codes) == Units(front) + UnitsOf(last)
  {
    assert codes[..|codes| - 1] == front;
  }

  lemma Regroup(x: seq<Unit>, y: seq<Unit>, z: seq<Unit>)
    ensures x + y + z == x + (y + z)
  {
  }

  lemma UnitsSingle(c: Code)
    ensures Units([c]) == UnitsOf(c)
  {
    assert [c][..0] == [];
  }

  lemma UnitsPair(c: Code, d: Code)
    ensures Units([c, d]) == UnitsOf(c) + UnitsOf(d)
  {
    UnitsSingle(c);
    UnitsSingle(d);
    UnitsConcat([c], [d]);
    assert [c, d] == [c] + [d];
  }

  /** `utf32ToString(data, start, end)`. */
  method Utf32ToString(data: seq<Code>, start: nat, end: nat) returns (s: seq<Unit>)
    requires start <= end <= |data|
    ensures s == Units(data[start..end])
  {
    s := [];
    for r := start to end
      invariant s == Units(data[start..r])
    {
      var units := StringFromCodePoint(data[r]);
      assert data[start..r + 1] == data[start..r] + [data[r]];
      UnitsMore(data[start..r + 1], data[start..r], data[r]);
      s := s + units;
    }
  }

  method StringFromCodePoint(codepoint: Code) returns (units: seq<Unit>)
    ensures units == UnitsOf(codepoint)
  {
    if codepoint > 65535 {
      var c := codepoint - 65536;
      units := [55296 + c / 1024] + [c % 1024 + 56320];
    } else {
      units := [codepoint];
    }
  }

  // ---------------------------------------------------------------- units to code points

  /** What has been decoded, and the high surrogate held back (0 when there is none). */
  datatype Decoded = Decoded(codes: seq<Code>, pending: Unit)

  /** The decoder one code unit at a time. */
  function DecodeUnit(d: Decoded, u: Unit): Decoded
    requires d.pending == 0 || IsHigh(d.pending)
  {
    if d.pending != 0 then
      if IsLow(u) then Decoded(d.codes + [Combine(d.pending, u)], 0)
      else Decoded(d.codes + [d.pending, u], 0)
    else if IsHigh(u) then Decoded(d.codes, u)
    else if u == BOM then d
    else Decoded(d.codes + [u], 0)
  }

  function DecodeAll(pending: Unit, units: seq<Unit>): (d: Decoded)
    requires pending == 0 || IsHigh(pending)
    ensures d.pending == 0 || IsHigh(d.pending)
  {
    if units == [] then Decoded([], pending)
    else DecodeUnit(DecodeAll(pending, units[..|units| - 1]), units[|units| - 1])
  }

  lemma DecodeOneMore(pending: Unit, units: seq<Unit>, n: nat)
    requires pending == 0 || IsHigh(pending)
    requires n < |units|
    ensures DecodeAll(pending, units[..n + 1]) == DecodeUnit(DecodeAll(pending, units[..n]), units[n])
  {
    assert units[..n + 1][..n] == units[..n];
  }

  /** Decoding in two pieces is decoding the whole, for any code units at all. */
  lemma {:induction false} DecodeConcat(pending: Unit, a: seq<Unit>, b: seq<Unit>)
    requires pending == 0 || IsHigh(pending)
    ensures var first := DecodeAll(pending, a);
            var second := DecodeAll(first.pending, b);
            DecodeAll(pending, a + b) == Decoded(first.codes + second.codes, second.pending)
  {
    if b == [] {
      assert a + b == a;
    } else {
      DecodeConcat(pending, a, b[..|b| - 1]);
      assert (a + b)[..|a + b| - 1] == a + b[..|b| - 1];
    }
  }

  /** The code points that are no surrogates. */
  predicate IsScalar(c: Code) { !(0xD800 <= c <= 0xDFFF) }

  type Scalar = c: Code | IsScalar(c)

  /** What the decoders make of a text: all of it but the byte-order marks. */
  function WithoutMarks(text: seq<Scalar>): seq<Code> {
    if text == [] then []
    else (if text[0] == BOM then [] else [text[0]]) + WithoutMarks(text[1..])
  }

  /** Decoding what has been encoded gives the text. */
  lemma {:induction false} DecodesText(text: seq<Scalar>)
    ensures DecodeAll(0, Units(text)) == Decoded(WithoutMarks(text), 0)
  {
    if text != [] {
      assert text == [text[0]] + text[1..];
      UnitsConcat([text[0]], text[1..]);
      UnitsSingle(text[0]);
      DecodesOne(text[0]);
      DecodesText(text[1..]);
      DecodeConcat(0, UnitsOf(text[0]), Units(text[1..]));
    }
  }

  lemma DecodesOne(c: Scalar)
    ensures DecodeAll(0, UnitsOf(c)) == Decoded(if c == BOM then [] else [c], 0)
  {
    var units := UnitsOf(c);
    DecodeOneMore(0, units, 0);
    assert units[..0] == [];
    assert DecodeAll(0, units[..1]) == DecodeUnit(Decoded([], 0), units[0]);
    if |units| == 1 {
      assert units[..1] == units;
      assert IsScalar(c);
      assert [] + [units[0]] == [c];
    } else {
      DecodeOneMore(0, units, 1);
      assert units[..2] == units;
      assert Combine(units[0], units[1]) == c;
      assert [] + [Combine(units[0], units[1])] == [c];
    }
  }

  /** The decoder fed any list of chunks. */
  function DecodeChunks(pending: Unit, chunks: seq<seq<Unit>>): (d: Decoded)
    requires pending == 0 || IsHigh(pending)
    ensures d.pending == 0 || IsHigh(d.pending)
  {
    if chunks == [] then Decoded([], pending)
    else
      var before := DecodeChunks(pending, chunks[..|chunks| - 1]);
      var last := DecodeAll(before.pending, chunks[|chunks| - 1]);
      Decoded(before.codes + last.codes, last.pending)
  }

  function Join<T>(chunks: seq<seq<T>>): seq<T> {
    if chunks == [] then [] else Join(chunks[..|chunks| - 1]) + chunks[|chunks| - 1]
  }

  lemma {:induction false} JoinFront<T>(first: seq<T>, more: seq<seq<T>>, chunks: seq<seq<T>>)
    requires chunks == [first] + more
    ensures Join(chunks) == first + Join(more)
    decreases more
  {
    var n := |chunks| - 1;
    if more == [] {
      assert chunks[..n] == [];
    } else {
      JoinFront(first, more[..n - 1], chunks[..n]);
      assert first + Join(more[..n - 1]) + more[n - 1] == first + (Join(more[..n - 1]) + more[n - 1]);
    }
  }

  /** However a string is cut into chunks, the code points and the held-back unit are the same. */
  lemma {:induction false} ChunkingIsInvisible(pending: Unit, chunks: seq<seq<Unit>>)
    requires pending == 0 || IsHigh(pending)
    ensures DecodeChunks(pending, chunks) == DecodeAll(pending, Join(chunks))
  {
    if chunks != [] {
      var n := |chunks| - 1;
      ChunkingIsInvisible(pending, chunks[..n]);
      DecodeConcat(pending, Join(chunks[..n]), chunks[n]);
    }
  }

  function Held(pending: Unit): seq<Unit> { if pending == 0 then [] else [pending] }

  lemma {:induction false} DecodedLength(pending: Unit, units: seq<Unit>)
    requires pending == 0 || IsHigh(pending)
    ensures var d := DecodeAll(pending, units);
            |d.codes| + |Held(d.pending)| <= |units| + |Held(pending)|
  {
    if units != [] {
      DecodedLength(pending, units[..|units| - 1]);
    }
  }

  /** Position `i` holds a byte-order mark that no held-back surrogate saves from being dropped. */
  predicate DroppedAt(pending: Unit, units: seq<Unit>, i: nat)
    requires pending == 0 || IsHigh(pending)
    requires i < |units|
  {
    units[i] == BOM && DecodeAll(pending, units[..i]).pending == 0
  }

  predicate DropsMark(pending: Unit, units: seq<Unit>)
    requires pending == 0 || IsHigh(pending)
  {
    exists i :: 0 <= i < |units| && DroppedAt(pending, units, i)
  }

  /** What the decoder still knows of the text it was given. */
  function Text(d: Decoded): seq<Unit> { Units(d.codes) + Held(d.pending) }

  lemma DropsMarkExtends(pending: Unit, units: seq<Unit>, n: nat)
    requires pending == 0 || IsHigh(pending)
    requires |units| == n + 1
    ensures DropsMark(pending, units) <==> DropsMark(pending, units[..n]) || DroppedAt(pending, units, n)
  {
    var front := units[..n];
    forall i: nat | i < n
      ensures DroppedAt(pending, front, i) == DroppedAt(pending, units, i)
    {
      assert front[..i] == units[..i];
    }
    if DropsMark(pending, front) {
      var i: nat :| i < n && DroppedAt(pending, front, i);
      assert DroppedAt(pending, units, i);
    }
  }

  /** Encoding what was decoded, plus the held-back unit, gives back the input exactly when no
      byte-order mark is dropped; otherwise something shorter. */
  lemma RoundTrip(pending: Unit, units: seq<Unit>)
    requires pending == 0 || IsHigh(pending)
    ensures Text(DecodeAll(pending, units)) == Held(pending) + units <==> !DropsMark(pending, units)
    ensures |Text(DecodeAll(pending, units))| <= |Held(pending) + units|
  {
    TextLength(pending, units);
    if !DropsMark(pending, units) {
      Restored(pending, units);
    }
  }

  lemma {:induction false} TextLength(pending: Unit, units: seq<Unit>)
    requires pending == 0 || IsHigh(pending)
    ensures |Text(DecodeAll(pending, units))| + (if DropsMark(pending, units) then 1 else 0)
            <= |Held(pending)| + |units|
  {
    if units == [] {
      assert Units([]) == [];
    } else {
      var n := |units| - 1;
      TextLength(pending, units[..n]);
      DropsMarkExtends(pending, units, n);
      StepRoundTrip(DecodeAll(pending, units[..n]), units[n]);
    }
  }

  lemma {:induction false} Restored(pending: Unit, units: seq<Unit>)
    requires pending == 0 || IsHigh(pending)
    requires !DropsMark(pending, units)
    ensures Text(DecodeAll(pending, units)) == Held(pending) + units
  {
    if units == [] {
      assert Units([]) == [];
    } else {
      var n := |units| - 1;
      DropsMarkExtends(pending, units, n);
      Restored(pending, units[..n]);
      assert !DroppedAt(pending, units, n);
      RestoredMore(DecodeAll(pending, units[..n]), Held(pending), units[..n], units[n], units);
    }
  }

  lemma RestoredMore(d: Decoded, held: seq<Unit>, front: seq<Unit>, u: Unit, units: seq<Unit>)
    requires d.pending == 0 ==> u != BOM
    requires d.pending == 0 || IsHigh(d.pending)
    requires Text(d) == held + front && units == front + [u]
    ensures Text(DecodeUnit(d, u)) == held + units
  {
    StepRoundTrip(d, u);
    Regroup(held, front, [u]);
  }

  lemma StepRoundTrip(d: Decoded, u: Unit)
    requires d.pending == 0 || IsHigh(d.pending)
    ensures var e := DecodeUnit(d, u);
            Text(e) == Text(d) + if d.pending == 0 && u == BOM then [] else [u]
  {
    if d.pending != 0 {
      if IsLow(u) {
        PairRoundTrip(d, u, Combine(d.pending, u));
      } else {
        UnitsPair(d.pending, u);
        UnitsConcat(d.codes, [d.pending, u]);
      }
    } else if !IsHigh(u) && u != BOM {
      UnitsSingle(u);
      UnitsConcat(d.codes, [u]);
    }
  }

  lemma PairRoundTrip(d: Decoded, u: Unit, c: Code)
    requires IsHigh(d.pending) && IsLow(u) && c == Combine(d.pending, u)
    ensures Units(d.codes + [c]) == Text(d) + [u]
  {
    UnitsSingle(c);
    UnitsConcat(d.codes, [c]);
    CombineSplits(d.pending, u);
    Regroup(Units(d.codes), [d.pending], [u]);
  }

  lemma CombineSplits(high: Unit, low: Unit)
    requires IsHigh(high) && IsLow(low)
    ensures UnitsOf(Combine(high, low)) == [high, low]
  {
  }

  // ---------------------------------------------------------------- room for the result

  /** `target` holds `codes` as far as it reaches. */
  ghost predicate Reaches(target: seq<Code>, codes: seq<Code>) {
    forall k :: 0 <= k < |target| && k < |codes| ==> target[k] == codes[k]
  }

  /** The surrogate held back after `units`. */
  function HeldAfter(pending: Unit, units: seq<Unit>): Unit {
    if units == [] then pending
    else
      var u := units[|units| - 1];
      if HeldAfter(pending, units[..|units| - 1]) == 0 && IsHigh(u) then u else 0
  }

  /** How many units give no code point of their own: byte-order marks that are dropped, and second
      halves that join a surrogate held back. */
  function Lost(pending: Unit, units: seq<Unit>): nat {
    if units == [] then 0
    else
      var front, u := units[..|units| - 1], units[|units| - 1];
      Lost(pending, front)
      + if (if HeldAfter(pending, front) == 0 then u == BOM else IsLow(u)) then 1 else 0
  }

  /** Every unit is a code point, is lost, or is held back. */
  lemma {:induction false} AllAccounted(pending: Unit, units: seq<Unit>)
    requires pending == 0 || IsHigh(pending)
    ensures var d := DecodeAll(pending, units);
            && d.pending == HeldAfter(pending, units)
            && |d.codes| + |Held(d.pending)| + Lost(pending, units) == |units| + |Held(pending)|
  {
    if units != [] {
      AllAccounted(pending, units[..|units| - 1]);
    }
  }

  /** There are more code points than units, and then one more, exactly when a surrogate was held back
      before, none is held back after, and nothing is lost in between. */
  predicate OneTooMany(pending: Unit, units: seq<Unit>) {
    pending != 0 && Lost(pending, units) == 0 && HeldAfter(pending, units) == 0
  }

  lemma MoreThanUnits(pending: Unit, units: seq<Unit>)
    requires pending == 0 || IsHigh(pending)
    ensures |DecodeAll(pending, units).codes| > |units| <==> OneTooMany(pending, units)
    ensures |DecodeAll(pending, units).codes| <= |units| + 1
  {
    AllAccounted(pending, units);
  }

  /** The caller makes its buffer at least as long as its input. All code points get there unless there
      is one too many and the input fills the buffer; then all but the last do. */
  lemma FitsUnlessOneTooMany(pending: Unit, units: seq<Unit>, target: seq<Code>)
    requires (pending == 0 || IsHigh(pending)) && |units| <= |target|
    requires Reaches(target, DecodeAll(pending, units).codes)
    ensures var codes := DecodeAll(pending, units).codes;
            && (codes <= target <==> !(|units| == |target| && OneTooMany(pending, units)))
            && (!(codes <= target) ==> target < codes && |codes| == |target| + 1)
  {
    MoreThanUnits(pending, units);
  }

  /** U+D83D held back, then "AB" into a buffer of two: three code points, and the third is lost. */
  lemma LosesTheLast(target: seq<Code>)
    requires |target| == 2
    ensures var d := DecodeAll(0xD83D, [65, 66]);
            d == Decoded([0xD83D, 65, 66], 0) && !(d.codes <= target)
  {
    assert [65, 66][..1] == [65];
    assert [65][..0] == [];
    assert DecodeAll(0xD83D, [65]) == Decoded([0xD83D, 65], 0);
  }

  /** The streaming decoder. */
  class StringToUtf32 {
    var interim: Unit

    ghost predicate Valid()
      reads this
    {
      interim == 0 || IsHigh(interim)
    }

    constructor ()
      ensures Valid() && interim == 0
    {
      interim := 0;
    }

    method Clear()
      modifies this
      ensures Valid() && interim == 0
    {
      interim := 0;
    }

    /** `decode(input, target)`: the code points go to the front of `target`, as far as it reaches. What
        is stored past its end is lost; `size` counts it all the same. */
    method Decode(input: seq<Unit>, target: array<Code>) returns (size: nat)
      requires Valid()
      modifies this, target
      ensures Valid()
      ensures var d := DecodeAll(old(interim), input);
              size == |d.codes| && interim == d.pending && Reaches(target[..], d.codes)
    {
      var length := |input|;
      size := 0;
      if length == 0 {
        return;
      }
      ghost var before, d := interim, Decoded([], interim);
      var n := 0;
      if interim != 0 {
        n := 1;
        DecodeOneMore(before, input, 0);
        size, d := EmitPair(interim, input[0], target, 0, d);
        interim := 0;
      }
      while n < length
        invariant n <= length && interim == 0
        invariant d == DecodeAll(before, input[..n]) && d.pending == 0
        invariant size == |d.codes| && Reaches(target[..], d.codes)
      {
        var code := input[n];
        DecodeOneMore(before, input, n);
        n := n + 1;
        if 0xD800 <= code <= 0xDBFF {
          if n >= length {
            interim := code;
            assert input[..n] == input;
            return;
          }
          DecodeOneMore(before, input, n);
          size, d := EmitPair(code, input[n], target, size, Decoded(d.codes, code));
          n := n + 1;
        } else {
          size, d := EmitUnit(code, target, size, d);
        }
      }
      assert input[..n] == input;
    }

    static method EmitUnit(code: Unit, target: array<Code>, size: nat, ghost d: Decoded)
      returns (size': nat, ghost d': Decoded)
      requires !IsHigh(code) && d.pending == 0 && size == |d.codes| && Reaches(target[..], d.codes)
      modifies target
      ensures d' == DecodeUnit(d, code) && d'.pending == 0 && size' == |d'.codes| && Reaches(target[..], d'.codes)
    {
      size', d' := size, DecodeUnit(d, code);
      if code != BOM {
        size' := Store(target, size, code, d.codes);
      }
    }

    /** A held-back high surrogate and the unit after it: one code point, or both as they are. */
    static method EmitPair(first: Unit, second: Unit, target: array<Code>, size: nat, ghost d: Decoded)
      returns (size': nat, ghost d': Decoded)
      requires IsHigh(first) && d.pending == first && size == |d.codes| && Reaches(target[..], d.codes)
      modifies target
      ensures d' == DecodeUnit(d, second) && d'.pending == 0 && size' == |d'.codes| && Reaches(target[..], d'.codes)
    {
      d' := DecodeUnit(d, second);
      if 0xDC00 <= second <= 0xDFFF {
        size' := Store(target, size, Combine(first, second), d.codes);
      } else {
        size' := Store(target, size, first, d.codes);
        size' := Store(target, size', second, d.codes + [first]);
        assert d.codes + [first] + [second] == d.codes + [first, second];
      }
    }

    /** A store past the end of a typed array is dropped. */
    static method Store(target: array<Code>, size: nat, code: Code, ghost codes: seq<Code>) returns (size': nat)
      requires size == |codes| && Reaches(target[..], codes)
      modifies target
      ensures size' == size + 1 && Reaches(target[..], codes + [code])
    {
      if size < target.Length {
        target[size] := code;
      }
      size' := size + 1;
    }
  }
}
