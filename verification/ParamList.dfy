/** The parameter list of a control sequence (xterm.js module 8742): numeric parameters, each with
    optional sub-parameters, collected digit by digit as section 5.4 of ECMA-48 writes them.

    `List` is the meaning of the parameter store of module `Params`: what the parameters are. */
module ParamList {

  const MAX_VALUE: int := 2147483647
  const MAX_PARAMS: nat := 32
  const MAX_SUB_PARAMS: nat := 32

  /** What a slot may hold; -1 is a sub-parameter without digits. */
  type Value = v: int | -1 <= v <= MAX_VALUE
  type Digit = d: nat | d <= 9
  /** Digits, `:` and `;`. */
  type Byte = b: nat | 48 <= b <= 59 witness 48

  /** One parameter. */
  datatype Param = Param(value: Value, subs: seq<Value>)

  datatype List = List(
    maxLength: nat,
    maxSubs: nat,
    items: seq<Param>,
    rejectDigits: bool,
    rejectSubDigits: bool,
    digitIsSub: bool)

  function Empty(maxLength: nat, maxSubs: nat): List {
    List(maxLength, maxSubs, [], false, false, false)
  }

  function Clamp(v: int): Value
    requires v >= -1
  {
    if v > MAX_VALUE then MAX_VALUE else v
  }

  function SubCount(items: seq<Param>): nat {
    if items == [] then 0 else SubCount(items[..|items| - 1]) + |items[|items| - 1].subs|
  }

  predicate Valid(p: List) {
    && |p.items| <= p.maxLength
    && SubCount(p.items) <= p.maxSubs
    // the slot the next digit goes to exists
    && (p.digitIsSub && p.items != [] && !p.rejectDigits && !p.rejectSubDigits
        ==> p.items[|p.items| - 1].subs != [])
  }

  // ---------------------------------------------------------------- operations on the meaning

  function Reset(p: List): List { Empty(p.maxLength, p.maxSubs) }

  function AddParam(p: List, v: int): (r: List)
    requires Valid(p) && v >= -1
    ensures Valid(r)
  {
    if |p.items| >= p.maxLength then p.(rejectDigits := true, digitIsSub := false)
    else
      var r := p.(items := p.items + [Param(Clamp(v), [])], digitIsSub := false);
      assert r.items[..|r.items| - 1] == p.items;
      r
  }

  function WithLast(items: seq<Param>, last: Param): seq<Param>
    requires items != []
  {
    items[..|items| - 1] + [last]
  }

  lemma WithLastCount(items: seq<Param>, last: Param)
    requires items != []
    ensures SubCount(WithLast(items, last)) == SubCount(items) - |items[|items| - 1].subs| + |last.subs|
  {
    assert WithLast(items, last)[..|items| - 1] == items[..|items| - 1];
  }

  function AddSubParam(p: List, v: int): (r: List)
    requires Valid(p) && v >= -1
    ensures Valid(r)
  {
    if p.items == [] then p.(digitIsSub := true)
    else if p.rejectDigits || SubCount(p.items) >= p.maxSubs then p.(digitIsSub := true, rejectSubDigits := true)
    else
      var last := p.items[|p.items| - 1];
      var updated := last.(subs := last.subs + [Clamp(v)]);
      WithLastCount(p.items, updated);
      p.(digitIsSub := true, items := WithLast(p.items, updated))
  }

  lemma ParamAppended(p: List, v: Value)
    requires Valid(p) && |p.items| < p.maxLength
    ensures AddParam(p, v) == p.(digitIsSub := false, items := p.items + [Param(v, [])])
  {
  }

  lemma SubAppended(p: List, front: seq<Param>, last: Param, v: Value)
    requires Valid(p) && p.items == front + [last] && !p.rejectDigits && SubCount(p.items) < p.maxSubs
    ensures AddSubParam(p, v) == p.(digitIsSub := true, items := front + [last.(subs := last.subs + [v])])
  {
    assert p.items[..|p.items| - 1] == front;
  }

  /** A value with one more decimal digit, saturating. */
  function Shift(v: Value, digit: Digit): Value {
    if v == -1 then digit else if 10 * v + digit > MAX_VALUE then MAX_VALUE else 10 * v + digit
  }

  function AddDigit(p: List, digit: Digit): (r: List)
    requires Valid(p)
    ensures Valid(r)
  {
    if p.rejectDigits || p.items == [] || (p.digitIsSub && p.rejectSubDigits) then p
    else
      var last := p.items[|p.items| - 1];
      var updated := if p.digitIsSub
                 then Param(last.value, last.subs[..|last.subs| - 1] + [Shift(last.subs[|last.subs| - 1], digit)])
                 else last.(value := Shift(last.value, digit));
      WithLastCount(p.items, updated);
      p.(items := WithLast(p.items, updated))
  }

  // ---------------------------------------------------------------- digit strings

  function AddDigits(p: List, digits: seq<Digit>): (r: List)
    requires Valid(p)
    ensures Valid(r)
  {
    if digits == [] then p
    else AddDigit(AddDigits(p, digits[..|digits| - 1]), digits[|digits| - 1])
  }

  function Decimal(digits: seq<Digit>): nat {
    if digits == [] then 0 else 10 * Decimal(digits[..|digits| - 1]) + digits[|digits| - 1]
  }

  /** After any digits at all a parameter holds their decimal value, saturated at 2^31 - 1. */
  lemma {:induction false} ParamHoldsDecimal(p: List, digits: seq<Digit>)
    requires Valid(p) && |p.items| < p.maxLength && !p.rejectDigits
    ensures AddDigits(AddParam(p, 0), digits)
            == p.(items := p.items + [Param(Clamp(Decimal(digits)), [])], digitIsSub := false)
  {
    if digits != [] {
      var n := |digits| - 1;
      ParamHoldsDecimal(p, digits[..n]);
      var last := Param(Clamp(Decimal(digits[..n])), []);
      ShiftClamps(Decimal(digits[..n]), digits[n]);
      DigitIs(p.(items := p.items + [last], digitIsSub := false), p.items, last, digits[n]);
    }
  }

  lemma ShiftClamps(value: nat, digit: Digit)
    ensures Shift(Clamp(value), digit) == Clamp(10 * value + digit)
  {
  }

  lemma DigitIs(p: List, front: seq<Param>, last: Param, digit: Digit)
    requires Valid(p) && p.items == front + [last] && !p.rejectDigits && !(p.digitIsSub && p.rejectSubDigits)
    ensures p.digitIsSub ==> last.subs != []
    ensures var m := |last.subs| - 1;
            AddDigit(p, digit)
            == p.(items := front + [if p.digitIsSub then last.(subs := last.subs[..m] + [Shift(last.subs[m], digit)])
                                    else last.(value := Shift(last.value, digit))])
  {
    assert p.items[..|p.items| - 1] == front;
  }

  lemma DigitOnSub(p: List, front: seq<Param>, value: Value, subs: seq<Value>, v: Value, digit: Digit)
    requires Valid(p) && p.items == front + [Param(value, subs + [v])]
    requires p.digitIsSub && !p.rejectDigits && !p.rejectSubDigits
    ensures AddDigit(p, digit) == p.(items := front + [Param(value, subs + [Shift(v, digit)])])
  {
    assert p.items[..|p.items| - 1] == front;
    assert (subs + [v])[..|subs|] == subs;
  }

  function SubValue(digits: seq<Digit>): Value {
    if digits == [] then -1 else Clamp(Decimal(digits))
  }

  lemma SubOpened(p: List, front: seq<Param>, last: Param)
    requires Valid(p) && p.items == front + [last] && !p.rejectDigits && SubCount(p.items) < p.maxSubs
    ensures AddSubParam(p, -1) == p.(items := front + [Param(last.value, last.subs + [-1])], digitIsSub := true)
  {
    assert p.items[..|p.items| - 1] == front;
  }

  /** The same for a sub-parameter, which starts out as -1 and stays so without digits. */
  lemma {:induction false} SubParamHoldsDecimal(p: List, front: seq<Param>, last: Param, digits: seq<Digit>)
    requires Valid(p) && p.items == front + [last] && !p.rejectDigits && !p.rejectSubDigits
    requires SubCount(p.items) < p.maxSubs
    ensures AddDigits(AddSubParam(p, -1), digits)
            == p.(items := front + [Param(last.value, last.subs + [SubValue(digits)])], digitIsSub := true)
  {
    if digits == [] {
      SubOpened(p, front, last);
    } else {
      var n := |digits| - 1;
      SubParamHoldsDecimal(p, front, last, digits[..n]);
      var before := AddDigits(AddSubParam(p, -1), digits[..n]);
      DigitOnSub(before, front, last.value, last.subs, SubValue(digits[..n]), digits[n]);
    }
  }

  // ---------------------------------------------------------------- written form

  /** What the parser does with one byte of a parameter string. */
  function Feed(p: List, code: Byte): (r: List)
    requires Valid(p)
    ensures Valid(r)
  {
    if code == 59 then AddParam(p, 0)
    else if code == 58 then AddSubParam(p, -1)
    else AddDigit(p, code - 48)
  }

  function FeedAll(p: List, s: seq<Byte>): (r: List)
    requires Valid(p)
    ensures Valid(r)
  {
    if s == [] then p else Feed(FeedAll(p, s[..|s| - 1]), s[|s| - 1])
  }

  lemma FeedAllConcat(p: List, a: seq<Byte>, b: seq<Byte>)
    requires Valid(p)
    ensures FeedAll(p, a + b) == FeedAll(FeedAll(p, a), b)
  {
    FeedAllRest(p, a, FeedAll(p, a), b, a + b);
  }

  lemma {:induction false} FeedAllRest(p: List, a: seq<Byte>, q: List, b: seq<Byte>, ab: seq<Byte>)
    requires Valid(p) && q == FeedAll(p, a) && ab == a + b
    ensures FeedAll(p, ab) == FeedAll(q, b)
    decreases |b|
  {
    if b == [] {
      assert ab == a;
    } else {
      var n, front, last := |ab| - 1, b[..|b| - 1], b[|b| - 1];
      assert ab[..n] == a + front && ab[n] == last;
      FeedAllRest(p, a, q, front, ab[..n]);
      FeedAllLast(p, ab, FeedAll(q, front), last);
      FeedAllLast(q, b, FeedAll(q, front), last);
    }
  }

  lemma FeedAllLast(p: List, s: seq<Byte>, before: List, last: Byte)
    requires Valid(p) && s != [] && last == s[|s| - 1] && before == FeedAll(p, s[..|s| - 1])
    ensures Valid(before) && FeedAll(p, s) == Feed(before, last)
  {
  }

  /** The decimal digits of a number, at least one. */
  function Digits(n: nat): (ds: seq<Digit>)
    ensures ds != [] && forall i :: 0 <= i < |ds| ==> ds[i] <= 9
  {
    if n < 10 then [n] else Digits(n / 10) + [n % 10]
  }

  lemma {:induction false} DigitsDecimal(n: nat)
    ensures Decimal(Digits(n)) == n
  {
    if n < 10 {
      assert [n][..0] == [];
    } else {
      DigitsDecimal(n / 10);
      assert Digits(n)[..|Digits(n)| - 1] == Digits(n / 10);
    }
  }

  function Ascii(digits: seq<Digit>): (s: seq<Byte>)
    ensures |s| == |digits|
  {
    if digits == [] then [] else Ascii(digits[..|digits| - 1]) + [48 + digits[|digits| - 1] as int]
  }

  lemma {:induction false} FeedDigits(p: List, digits: seq<Digit>)
    requires Valid(p)
    ensures FeedAll(p, Ascii(digits)) == AddDigits(p, digits)
  {
    if digits != [] {
      FeedDigits(p, digits[..|digits| - 1]);
      assert Ascii(digits)[..|digits| - 1] == Ascii(digits[..|digits| - 1]);
    }
  }

  function WriteSub(v: Value): (s: seq<Byte>) {
    [58] + Ascii(if v == -1 then [] else Digits(v))
  }

  /** `:` and the digits of each sub-parameter; an omitted one has none. */
  function WriteSubs(subs: seq<Value>): (s: seq<Byte>)
  {
    if subs == [] then []
    else WriteSubs(subs[..|subs| - 1]) + WriteSub(subs[|subs| - 1])
  }

  predicate Writable(items: seq<Param>) {
    forall i :: 0 <= i < |items| ==> items[i].value >= 0
  }

  /** `;` and the text of a parameter. */
  function WriteParam(p: Param): (s: seq<Byte>)
    requires p.value >= 0
  {
    [59] + Ascii(Digits(p.value)) + WriteSubs(p.subs)
  }

  function Write(items: seq<Param>): (s: seq<Byte>)
    requires Writable(items)
  {
    if items == [] then [] else Write(items[..|items| - 1]) + WriteParam(items[|items| - 1])
  }

  lemma {:induction false} SubCountAppend(front: seq<Param>, last: Param)
    ensures SubCount(front + [last]) == SubCount(front) + |last.subs|
  {
    assert (front + [last])[..|front|] == front;
  }

  lemma {:induction false} ReadSubs(p: List, front: seq<Param>, value: Value, subs: seq<Value>)
    requires Valid(p) && p.items == front + [Param(value, [])]
    requires !p.rejectDigits && !p.rejectSubDigits && !p.digitIsSub
    requires SubCount(front) + |subs| <= p.maxSubs
    ensures FeedAll(p, WriteSubs(subs)) == p.(items := front + [Param(value, subs)], digitIsSub := subs != [])
  {
    if subs != [] {
      var n := |subs| - 1;
      var some, v := subs[..n], subs[n];
      assert subs == some + [v];
      ReadSubs(p, front, value, some);
      ReadSub(FeedAll(p, WriteSubs(some)), front, Param(value, some), v);
      FeedAllConcat(p, WriteSubs(some), WriteSub(v));
    }
  }

  lemma ReadSub(p: List, front: seq<Param>, last: Param, v: Value)
    requires Valid(p) && p.items == front + [last] && !p.rejectDigits && !p.rejectSubDigits
    requires SubCount(front) + |last.subs| < p.maxSubs
    ensures FeedAll(p, WriteSub(v))
            == p.(items := front + [Param(last.value, last.subs + [v])], digitIsSub := true)
  {
    SubCountAppend(front, last);
    var digits := if v == -1 then [] else Digits(v);
    SubParamHoldsDecimal(p, front, last, digits);
    if v != -1 {
      DigitsDecimal(v);
    }
    FeedDigits(AddSubParam(p, -1), digits);
    FeedAllConcat(p, [58], Ascii(digits));
    assert [58][..0] == [];
    assert FeedAll(p, [58]) == AddSubParam(p, -1);
  }

  lemma ReadParam(p: List, param: Param)
    requires Valid(p) && !p.rejectDigits && !p.rejectSubDigits
    requires |p.items| < p.maxLength && SubCount(p.items) + |param.subs| <= p.maxSubs && param.value >= 0
    ensures FeedAll(p, WriteParam(param)) == p.(items := p.items + [param], digitIsSub := param.subs != [])
  {
    var digits := Digits(param.value);
    assert [59][..0] == [];
    assert FeedAll(p, [59]) == AddParam(p, 0);
    FeedAllConcat(p, [59], Ascii(digits));
    FeedDigits(AddParam(p, 0), digits);
    ParamHoldsDecimal(p, digits);
    DigitsDecimal(param.value);
    FeedAllConcat(p, [59] + Ascii(digits), WriteSubs(param.subs));
    ReadSubs(FeedAll(p, [59] + Ascii(digits)), p.items, param.value, param.subs);
  }

  /** Parsing inverts writing: feeding the decimal text of a parameter list that fits the store
      leaves exactly that list in it. */
  lemma {:induction false} ReadBack(p: List, items: seq<Param>)
    requires Valid(p) && p.items == [] && !p.rejectDigits && !p.rejectSubDigits
    requires Writable(items) && |items| <= p.maxLength && SubCount(items) <= p.maxSubs
    ensures FeedAll(p, Write(items))
            == p.(items := items, digitIsSub := if items == [] then p.digitIsSub else items[|items| - 1].subs != [])
  {
    if items != [] {
      var n := |items| - 1;
      var front, last := items[..n], items[n];
      assert items == front + [last];
      SubCountAppend(front, last);
      ReadBack(p, front);
      ReadMore(p, FeedAll(p, Write(front)), Write(front), front, last);
    }
  }

  lemma ReadMore(p: List, q: List, text: seq<Byte>, front: seq<Param>, last: Param)
    requires Valid(p) && !p.rejectDigits && !p.rejectSubDigits && q == FeedAll(p, text)
    requires q == p.(items := front, digitIsSub := q.digitIsSub) && last.value >= 0
    requires |front| < p.maxLength && SubCount(front) + |last.subs| <= p.maxSubs
    ensures FeedAll(p, text + WriteParam(last)) == p.(items := front + [last], digitIsSub := last.subs != [])
  {
    FeedAllConcat(p, text, WriteParam(last));
    ReadParam(q, last);
  }

  // ---------------------------------------------------------------- more than fits

  function Min(a: nat, b: nat): nat { if a < b then a else b }

  /** Of a parameter list, the parameters that fit, each with the sub-parameters that fit. */
  function Kept(items: seq<Param>, maxLength: nat, maxSubs: nat): (r: seq<Param>)
    ensures |r| == Min(|items|, maxLength)
  {
    seq(Min(|items|, maxLength), i requires 0 <= i < |items| =>
      Param(items[i].value, items[i].subs[..Min(|items[i].subs|, Left(items[..i], maxSubs))]))
  }

  /** How many sub-parameters still fit. */
  function Left(items: seq<Param>, maxSubs: nat): nat { maxSubs - Min(SubCount(items), maxSubs) }

  /** The flags mean that there is no more room. */
  predicate Rejects(p: List, full: bool) {
    p.rejectDigits == full && (p.rejectSubDigits && !full ==> SubCount(p.items) == p.maxSubs)
  }

  lemma KeptMore(front: seq<Param>, last: Param, items: seq<Param>, maxLength: nat, maxSubs: nat)
    requires items == front + [last]
    ensures Kept(items, maxLength, maxSubs)
            == if |front| < maxLength
               then Kept(front, maxLength, maxSubs)
                    + [Param(last.value, last.subs[..Min(|last.subs|, Left(front, maxSubs))])]
               else Kept(front, maxLength, maxSubs)
  {
    assert items[..|front|] == front;
    forall i | 0 <= i < |front|
      ensures items[i] == front[i] && items[..i] == front[..i]
    {
    }
  }

  lemma {:induction false} KeptCount(items: seq<Param>, maxLength: nat, maxSubs: nat)
    requires |items| <= maxLength
    ensures SubCount(Kept(items, maxLength, maxSubs)) == Min(SubCount(items), maxSubs)
  {
    if items != [] {
      var n := |items| - 1;
      KeptCount(items[..n], maxLength, maxSubs);
      assert items == items[..n] + [items[n]];
      KeptMore(items[..n], items[n], items, maxLength, maxSubs);
      SubCountAppend(Kept(items[..n], maxLength, maxSubs), Kept(items, maxLength, maxSubs)[n]);
    }
  }

  /** A list that fits is kept whole. */
  lemma {:induction false} KeptWhole(items: seq<Param>, maxLength: nat, maxSubs: nat)
    requires |items| <= maxLength && SubCount(items) <= maxSubs
    ensures Kept(items, maxLength, maxSubs) == items
    decreases |items|
  {
    if items != [] {
      var n := |items| - 1;
      var front, last := items[..n], items[n];
      assert items == front + [last];
      SubCountAppend(front, last);
      KeptWhole(front, maxLength, maxSubs);
      KeptMore(front, last, items, maxLength, maxSubs);
      WholeSubs(last, Left(front, maxSubs));
    }
  }

  lemma WholeSubs(p: Param, left: nat)
    requires |p.subs| <= left
    ensures Param(p.value, p.subs[..Min(|p.subs|, left)]) == p
  {
  }

  /** Once a parameter is rejected, nothing of it is stored. */
  lemma {:induction false} RejectsText(p: List, text: seq<Byte>)
    requires Valid(p) && p.rejectDigits && forall i :: 0 <= i < |text| ==> text[i] != 59
    ensures FeedAll(p, text).items == p.items && FeedAll(p, text).rejectDigits
    ensures FeedAll(p, text).maxLength == p.maxLength && FeedAll(p, text).maxSubs == p.maxSubs
  {
    if text != [] {
      RejectsText(p, text[..|text| - 1]);
    }
  }

  lemma {:induction false} AsciiPlain(digits: seq<Digit>)
    ensures forall i :: 0 <= i < |Ascii(digits)| ==> Ascii(digits)[i] != 59
  {
    if digits != [] {
      AsciiPlain(digits[..|digits| - 1]);
    }
  }

  lemma {:induction false} SubsPlain(subs: seq<Value>)
    ensures forall i :: 0 <= i < |WriteSubs(subs)| ==> WriteSubs(subs)[i] != 59
  {
    if subs != [] {
      var n := |subs| - 1;
      SubsPlain(subs[..n]);
      AsciiPlain(if subs[n] == -1 then [] else Digits(subs[n]));
    }
  }

  /** Nor are the digits of a sub-parameter that has no room. */
  lemma {:induction false} RejectsDigits(p: List, digits: seq<Digit>)
    requires Valid(p) && p.rejectSubDigits && p.digitIsSub
    ensures AddDigits(p, digits) == p
  {
    if digits != [] {
      RejectsDigits(p, digits[..|digits| - 1]);
    }
  }

  lemma RejectsSub(p: List, v: Value)
    requires Valid(p) && p.items != [] && !p.rejectDigits && SubCount(p.items) == p.maxSubs
    ensures FeedAll(p, WriteSub(v)) == p.(digitIsSub := true, rejectSubDigits := true)
  {
    var digits := if v == -1 then [] else Digits(v);
    var p' := AddSubParam(p, -1);
    assert [58][..0] == [];
    assert FeedAll(p, [58]) == p';
    FeedAllConcat(p, [58], Ascii(digits));
    FeedDigits(p', digits);
    RejectsDigits(p', digits);
  }

  /** The last parameter, with as many of these sub-parameters as there is room for. */
  predicate HasReadSubs(p: List, front: seq<Param>, value: Value, subs: seq<Value>, r: List) {
    && r.items == front + [Param(value, subs[..Min(|subs|, Left(front, p.maxSubs))])]
    && Rejects(r, false) && r.maxLength == p.maxLength && r.maxSubs == p.maxSubs
  }

  lemma {:induction false} ReadSubsThatFit(p: List, front: seq<Param>, value: Value, subs: seq<Value>, text: seq<Byte>)
    requires Valid(p) && p.items == front + [Param(value, [])] && !p.digitIsSub && Rejects(p, false)
    requires text == WriteSubs(subs)
    ensures HasReadSubs(p, front, value, subs, FeedAll(p, text))
  {
    if subs == [] {
      NoSubsToRead(p, front, value);
    } else {
      var n := |subs| - 1;
      ReadSubsThatFit(p, front, value, subs[..n], WriteSubs(subs[..n]));
      ReadLastSub(p, front, value, subs[..n], subs[n], subs, WriteSubs(subs[..n]));
    }
  }

  lemma ReadLastSub(p: List, front: seq<Param>, value: Value, some: seq<Value>, v: Value, subs: seq<Value>,
                    text: seq<Byte>)
    requires Valid(p) && HasReadSubs(p, front, value, some, FeedAll(p, text)) && subs == some + [v]
    ensures HasReadSubs(p, front, value, subs, FeedAll(p, text + WriteSub(v)))
  {
    FeedAllConcat(p, text, WriteSub(v));
    ReadSubThatFits(p, FeedAll(p, text), front, value, some, v, subs);
  }

  lemma NoSubsToRead(p: List, front: seq<Param>, value: Value)
    requires Valid(p) && p.items == front + [Param(value, [])] && Rejects(p, false)
    ensures HasReadSubs(p, front, value, [], FeedAll(p, []))
  {
    var none: seq<Value> := [];
    assert none[..0] == [];
  }

  lemma ReadSubThatFits(p: List, q: List, front: seq<Param>, value: Value, some: seq<Value>, v: Value, subs: seq<Value>)
    requires Valid(q) && HasReadSubs(p, front, value, some, q) && subs == some + [v]
    ensures HasReadSubs(p, front, value, subs, FeedAll(q, WriteSub(v)))
  {
    var left := Left(front, q.maxSubs);
    SubCountAppend(front, Param(value, some[..Min(|some|, left)]));
    if |some| < left {
      assert some[..|some|] == some;
      ReadSub(q, front, Param(value, some), v);
      StillRejects(front, value, some, v, left, FeedAll(q, WriteSub(v)));
    } else {
      RejectsSub(q, v);
      assert subs[..left] == some[..left];
    }
  }

  lemma StillRejects(front: seq<Param>, value: Value, some: seq<Value>, v: Value, left: nat, r: List)
    requires left == Left(front, r.maxSubs) && |some| < left
    requires r.items == front + [Param(value, some + [v])] && !r.rejectDigits && !r.rejectSubDigits
    ensures Rejects(r, false) && (some + [v])[..Min(|some| + 1, left)] == some + [v]
  {
  }

  /** Feeding the text of any parameter list leaves the part of it that fits: the first parameters, each
      with its value, and sub-parameters as long as there is room. */
  lemma {:induction false} ReadsWhatFits(p: List, items: seq<Param>)
    requires Valid(p) && p.items == [] && !p.rejectDigits && !p.rejectSubDigits && Writable(items)
    ensures HasRead(p, items, FeedAll(p, Write(items)))
  {
    if items != [] {
      var n := |items| - 1;
      var front, last := items[..n], items[n];
      assert items == front + [last];
      ReadsWhatFits(p, front);
      FeedAllConcat(p, Write(front), WriteParam(last));
      ReadsOneMore(p, front, last, items, FeedAll(p, Write(front)));
    }
  }

  predicate HasRead(p: List, items: seq<Param>, r: List) {
    && r.items == Kept(items, p.maxLength, p.maxSubs) && r.maxLength == p.maxLength && r.maxSubs == p.maxSubs
    && Rejects(r, |items| > p.maxLength)
  }

  lemma ReadsOneMore(p: List, front: seq<Param>, last: Param, items: seq<Param>, q: List)
    requires items == front + [last] && last.value >= 0 && Valid(q) && HasRead(p, front, q)
    ensures HasRead(p, items, FeedAll(q, WriteParam(last)))
  {
    KeptMore(front, last, items, p.maxLength, p.maxSubs);
    if |front| < p.maxLength {
      KeptCount(front, p.maxLength, p.maxSubs);
      ReadParamThatFits(q, last);
    } else {
      ReadParamTooMany(q, last);
    }
  }

  lemma ReadParamThatFits(q: List, last: Param)
    requires Valid(q) && Rejects(q, false) && |q.items| < q.maxLength && last.value >= 0
    ensures var r := FeedAll(q, WriteParam(last));
            && r.items == q.items + [Param(last.value, last.subs[..Min(|last.subs|, Left(q.items, q.maxSubs))])]
            && Rejects(r, false) && r.maxLength == q.maxLength && r.maxSubs == q.maxSubs
  {
    var digits := Digits(last.value);
    var q' := q.(items := q.items + [Param(last.value, [])], digitIsSub := false);
    assert [59][..0] == [];
    assert FeedAll(q, [59]) == AddParam(q, 0);
    FeedAllConcat(q, [59], Ascii(digits));
    FeedDigits(AddParam(q, 0), digits);
    ParamHoldsDecimal(q, digits);
    DigitsDecimal(last.value);
    FeedAllConcat(q, [59] + Ascii(digits), WriteSubs(last.subs));
    SubCountAppend(q.items, Param(last.value, []));
    ReadSubsThatFit(q', q.items, last.value, last.subs, WriteSubs(last.subs));
  }

  lemma ReadParamTooMany(q: List, last: Param)
    requires Valid(q) && |q.items| == q.maxLength && last.value >= 0
    ensures var r := FeedAll(q, WriteParam(last));
            && r.items == q.items && Rejects(r, true) && r.maxLength == q.maxLength && r.maxSubs == q.maxSubs
  {
    var rest := Ascii(Digits(last.value)) + WriteSubs(last.subs);
    assert WriteParam(last) == [59] + rest;
    assert [59][..0] == [];
    assert FeedAll(q, [59]) == AddParam(q, 0);
    FeedAllConcat(q, [59], rest);
    AsciiPlain(Digits(last.value));
    SubsPlain(last.subs);
    RejectsText(AddParam(q, 0), rest);
  }

  // ---------------------------------------------------------------- nested arrays

  /** An element of the nested array form: a number, or the sub-parameters of the number before. */
  datatype Item = Number(value: int) | Subs(values: seq<int>)

  datatype Outcome = Built(list: List) | BadValue

  function AddSubParams(p: List, values: seq<int>): (r: Outcome)
    requires Valid(p)
    ensures r.Built? ==> Valid(r.list)
  {
    if values == [] then Built(p)
    else
      var before := AddSubParams(p, values[..|values| - 1]);
      if before.BadValue? then BadValue else TryAddSubParam(before.list, values[|values| - 1])
  }

  /** Values below -1 are refused, but only where they would be stored. */
  function TryAddParam(p: List, v: int): (r: Outcome)
    requires Valid(p)
    ensures r.Built? ==> Valid(r.list)
  {
    if v < -1 && |p.items| < p.maxLength then BadValue
    else Built(AddParam(p, if v < -1 then -1 else v))
  }

  predicate StoresSub(p: List) { p.items != [] && !p.rejectDigits && SubCount(p.items) < p.maxSubs }

  function TryAddSubParam(p: List, v: int): (r: Outcome)
    requires Valid(p)
    ensures r.Built? ==> Valid(r.list)
  {
    if v < -1 && StoresSub(p) then BadValue
    else Built(AddSubParam(p, if v < -1 then -1 else v))
  }

  function AddItem(p: List, item: Item): (r: Outcome)
    requires Valid(p)
    ensures r.Built? ==> Valid(r.list)
  {
    match item
    case Number(v) => TryAddParam(p, v)
    case Subs(vs) => AddSubParams(p, vs)
  }

  function AddItems(p: List, items: seq<Item>): (r: Outcome)
    requires Valid(p)
    ensures r.Built? ==> Valid(r.list)
  {
    if items == [] then Built(p)
    else
      var before := AddItems(p, items[..|items| - 1]);
      if before.BadValue? then BadValue else AddItem(before.list, items[|items| - 1])
  }

  /** `fromArray`: a leading array of sub-parameters has no parameter to belong to and is skipped. */
  function FromItems(items: seq<Item>): (r: Outcome)
    ensures r.Built? ==> Valid(r.list)
  {
    AddItems(Empty(MAX_PARAMS, MAX_SUB_PARAMS), if items != [] && items[0].Subs? then items[1..] else items)
  }

  function ItemsOf(p: Param): seq<Item> {
    if p.subs == [] then [Number(p.value)] else [Number(p.value), Subs(p.subs)]
  }

  /** `toArray`. */
  function ToItems(ps: seq<Param>): seq<Item> {
    if ps == [] then [] else ToItems(ps[..|ps| - 1]) + ItemsOf(ps[|ps| - 1])
  }

  lemma {:induction false} ToItemsStart(ps: seq<Param>)
    ensures ps != [] ==> ToItems(ps) != [] && ToItems(ps)[0].Number?
  {
    if |ps| > 1 {
      ToItemsStart(ps[..|ps| - 1]);
    }
  }

  lemma ToItemsMore(front: seq<Param>, last: Param, all: seq<Param>)
    requires all == front + [last]
    ensures ToItems(all) == ToItems(front) + ItemsOf(last)
  {
    assert all[..|front|] == front;
  }

  /** The nested form determines the list. */
  lemma {:induction false} ToItemsInjective(a: seq<Param>, b: seq<Param>)
    requires ToItems(a) == ToItems(b)
    ensures a == b
    decreases |a|
  {
    if a != [] && b != [] {
      var front, last, front', last' := a[..|a| - 1], a[|a| - 1], b[..|b| - 1], b[|b| - 1];
      ToItemsMore(front, last, a);
      ToItemsMore(front', last', b);
      LastItems(ToItems(front), last, ToItems(front'), last');
      ToItemsInjective(front, front');
    }
  }

  lemma LastItems(x: seq<Item>, p: Param, y: seq<Item>, q: Param)
    requires x + ItemsOf(p) == y + ItemsOf(q)
    ensures x == y && p == q
  {
    var xs := x + ItemsOf(p);
    assert xs[|xs| - 1] == ItemsOf(p)[|ItemsOf(p)| - 1] == ItemsOf(q)[|ItemsOf(q)| - 1];
    assert |x| == |y|;
    assert x == xs[..|x|] && y == xs[..|y|];
    assert ItemsOf(p) == xs[|x|..] == ItemsOf(q);
  }

  lemma {:induction false} AddItemsConcat(p: List, a: seq<Item>, b: seq<Item>)
    requires Valid(p)
    ensures AddItems(p, a + b)
            == if AddItems(p, a).BadValue? then BadValue else AddItems(AddItems(p, a).list, b)
  {
    if b == [] {
      assert a + b == a;
    } else {
      AddItemsConcat(p, a, b[..|b| - 1]);
      assert (a + b)[..|a + b| - 1] == a + b[..|b| - 1];
    }
  }

  lemma {:induction false} AddSubParamsAppends(p: List, values: seq<Value>)
    requires Valid(p) && p.items != [] && !p.rejectDigits && !p.rejectSubDigits
    requires SubCount(p.items) + |values| <= p.maxSubs
    ensures var last := p.items[|p.items| - 1];
            AddSubParams(p, values)
            == Built(p.(items := WithLast(p.items, last.(subs := last.subs + values)),
                        digitIsSub := if values == [] then p.digitIsSub else true))
  {
    var last := p.items[|p.items| - 1];
    if values == [] {
      assert last.subs + values == last.subs;
      assert p.items[..|p.items| - 1] + [last] == p.items;
    } else {
      var n := |values| - 1;
      AddSubParamsAppends(p, values[..n]);
      WithLastCount(p.items, last.(subs := last.subs + values[..n]));
      assert last.subs + values == last.subs + values[..n] + [values[n]];
      assert WithLast(p.items, last.(subs := last.subs + values[..n]))[..|p.items| - 1] == p.items[..|p.items| - 1];
    }
  }

  lemma AddSubParamsStep(p: List, values: seq<int>, n: nat)
    requires Valid(p) && n < |values| && AddSubParams(p, values[..n]).Built?
    ensures AddSubParams(p, values[..n + 1]) == TryAddSubParam(AddSubParams(p, values[..n]).list, values[n])
  {
    assert values[..n + 1][..n] == values[..n];
  }

  lemma {:induction false} AddSubParamsRefused(p: List, values: seq<int>, n: nat)
    requires Valid(p) && n <= |values| && AddSubParams(p, values[..n]).BadValue?
    ensures AddSubParams(p, values).BadValue?
    decreases |values| - n
  {
    if n < |values| {
      assert values[..n + 1][..n] == values[..n];
      AddSubParamsRefused(p, values, n + 1);
    } else {
      assert values[..n] == values;
    }
  }

  lemma AddItemsStep(p: List, items: seq<Item>, n: nat)
    requires Valid(p) && n < |items| && AddItems(p, items[..n]).Built?
    ensures AddItems(p, items[..n + 1]) == AddItem(AddItems(p, items[..n]).list, items[n])
  {
    assert items[..n + 1][..n] == items[..n];
  }

  lemma {:induction false} AddItemsRefused(p: List, items: seq<Item>, n: nat)
    requires Valid(p) && n <= |items| && AddItems(p, items[..n]).BadValue?
    ensures AddItems(p, items).BadValue?
    decreases |items| - n
  {
    if n < |items| {
      assert items[..n + 1][..n] == items[..n];
      AddItemsRefused(p, items, n + 1);
    } else {
      assert items[..n] == items;
    }
  }

  /** `fromArray` after `toArray` rebuilds any parameter list within the 32 and 32 limits. */
  lemma {:induction false} ArrayRoundTrip(ps: seq<Param>)
    requires |ps| <= MAX_PARAMS && SubCount(ps) <= MAX_SUB_PARAMS
    ensures FromItems(ToItems(ps)).Built?
    ensures FromItems(ToItems(ps)).list.items == ps
  {
    ToItemsStart(ps);
    ArrayRebuild(Empty(MAX_PARAMS, MAX_SUB_PARAMS), ps);
  }

  lemma {:induction false} ArrayRebuild(p: List, ps: seq<Param>)
    requires Valid(p) && p.items == [] && !p.rejectDigits && !p.rejectSubDigits
    requires |ps| <= p.maxLength && SubCount(ps) <= p.maxSubs
    ensures var r := AddItems(p, ToItems(ps));
            r.Built? && r.list == p.(items := ps, digitIsSub := r.list.digitIsSub)
    decreases |ps|
  {
    if ps != [] {
      var front, last := ps[..|ps| - 1], ps[|ps| - 1];
      assert front + [last] == ps;
      SubCountAppend(front, last);
      ArrayRebuild(p, front);
      ToItemsMore(front, last, ps);
      RebuildMore(p, ToItems(front), AddItems(p, ToItems(front)).list, last);
    }
  }

  lemma RebuildMore(p: List, xs: seq<Item>, q: List, last: Param)
    requires Valid(p) && AddItems(p, xs) == Built(q) && !q.rejectDigits && !q.rejectSubDigits
    requires |q.items| < q.maxLength && SubCount(q.items) + |last.subs| <= q.maxSubs
    ensures AddItems(p, xs + ItemsOf(last)) == Built(q.(items := q.items + [last], digitIsSub := last.subs != []))
  {
    AddItemsConcat(p, xs, ItemsOf(last));
    AddParamItems(q, last);
  }

  lemma AddParamItems(p: List, param: Param)
    requires Valid(p) && |p.items| < p.maxLength && SubCount(p.items) + |param.subs| <= p.maxSubs
    requires !p.rejectDigits && !p.rejectSubDigits
    ensures AddItems(p, ItemsOf(param)) == Built(p.(items := p.items + [param], digitIsSub := param.subs != []))
  {
    var number := Number(param.value);
    var begun := AddParam(p, param.value);
    AddNumber(p, param.value);
    AddOneItem(begun, Subs(param.subs));
    if param.subs != [] {
      AddSubParamsAppends(begun, param.subs);
      AddItemsConcat(p, [number], [Subs(param.subs)]);
      assert ItemsOf(param) == [number] + [Subs(param.subs)];
      assert [] + param.subs == param.subs;
    }
  }

  lemma AddOneItem(p: List, item: Item)
    requires Valid(p)
    ensures AddItems(p, [item]) == AddItem(p, item)
  {
    assert [item][..0] == [];
  }

  lemma AddNumber(p: List, v: Value)
    requires Valid(p) && |p.items| < p.maxLength
    ensures AddItems(p, [Number(v)]) == Built(AddParam(p, v))
    ensures AddParam(p, v).items == p.items + [Param(v, [])]
  {
    AddOneItem(p, Number(v));
  }
}
