/** What tells control functions apart (xterm.js module 2015): a prefix, intermediate bytes and a final
    byte, as section 5.4 of ECMA-48 writes them, and the number that stands for them in the tables of
    handlers, both where handlers are registered and where they are looked up. */
module ParserIdentifiers {
  import opened Utf16
  import opened ParserMachine

  /** The number that bytes make, the first one highest. */
  function Positional(bytes: seq<Code>): nat {
    if bytes == [] then 0 else Positional(bytes[..|bytes| - 1]) * 256 + bytes[|bytes| - 1]
  }

  /** The same, as far as 32 bits hold it. */
  function Ident(bytes: seq<Code>): int { Int32(Positional(bytes)) }

  lemma PositionalMore(bytes: seq<Code>, c: Code)
    ensures Positional(bytes + [c]) == Positional(bytes) * 256 + c
  {
    assert (bytes + [c])[..|bytes|] == bytes;
  }

  /** The low 24 bits, which are what a shift by eight leaves. */
  lemma Int32Low(x: nat) returns (high: int)
    ensures Int32(x) == high * 0x100_0000 + x % 0x100_0000
  {
    var m := x % 0x1_0000_0000;
    high := m / 0x100_0000 - if m >= 0x8000_0000 then 256 else 0;
  }

  lemma Int32Of(x: int, high: int, low: nat)
    requires x == high * 0x1_0000_0000 + low && low < 0x1_0000_0000
    ensures Int32(x) == if low >= 0x8000_0000 then low - 0x1_0000_0000 else low
  {
  }

  lemma Int32Shifts(x: nat, c: nat)
    requires c < 256
    ensures Int32(Int32(x) * 256) + c == Int32(x * 256 + c)
  {
    var low := x % 0x100_0000;
    var high := Int32Low(x);
    Int32Of(Int32(x) * 256, high, low * 256);
    Int32Of(x * 256 + c, x / 0x100_0000, low * 256 + c);
  }

  /** The parser collects the bytes of a sequence one after the other. */
  lemma Collects(bytes: seq<Code>, c: Code)
    requires c < 256
    ensures Collected(Ident(bytes), c) == Ident(bytes + [c])
  {
    Int32Shifts(Positional(bytes), c);
    PositionalMore(bytes, c);
  }

  // ---------------------------------------------------------------- headers

  datatype Header = Header(prefix: seq<Code>, marks: seq<Code>, final: Code)

  function Bytes(h: Header): seq<Code> { h.prefix + h.marks + [h.final] }

  predicate ArePrefix(bytes: seq<Code>) { |bytes| <= 1 && forall i :: 0 <= i < |bytes| ==> 60 <= bytes[i] <= 63 }
  predicate AreMarks(bytes: seq<Code>) { forall i :: 0 <= i < |bytes| ==> 32 <= bytes[i] <= 47 }

  predicate IsHeader(h: Header, low: Code) { ArePrefix(h.prefix) && AreMarks(h.marks) && low <= h.final <= 126 }

  lemma IdentOne(a: Code)
    requires a < 256
    ensures Positional([a]) == a && Ident([a]) == a
  {
    PositionalMore([], a);
    assert [] + [a] == [a];
  }

  lemma IdentTwo(a: Code, b: Code)
    requires a < 256 && b < 256
    ensures Positional([a, b]) == a * 256 + b && Ident([a, b]) == a * 256 + b
  {
    IdentOne(a);
    PositionalMore([a], b);
    assert [a] + [b] == [a, b];
  }

  lemma IdentThree(a: Code, b: Code, c: Code)
    requires a < 256 && b < 256 && c < 256
    ensures Positional([a, b, c]) == (a * 256 + b) * 256 + c && Ident([a, b, c]) == (a * 256 + b) * 256 + c
  {
    IdentTwo(a, b);
    PositionalMore([a, b], c);
    assert [a, b] + [c] == [a, b, c];
  }

  /** Of more bytes, the last four. */
  lemma IdentFour(front: seq<Code>, a: Code, b: Code, c: Code, d: Code, bytes: seq<Code>)
    requires a < 128 && b < 256 && c < 256 && d < 256 && bytes == front + [a, b, c, d]
    ensures Ident(bytes) == ((a * 256 + b) * 256 + c) * 256 + d
  {
    var low: nat := ((a * 256 + b) * 256 + c) * 256 + d;
    PositionalFour(front, a, b, c, d, bytes);
    LowPart(Positional(bytes), Positional(front), low);
  }

  lemma PositionalFour(front: seq<Code>, a: Code, b: Code, c: Code, d: Code, bytes: seq<Code>)
    requires bytes == front + [a, b, c, d]
    ensures Positional(bytes) == (((Positional(front) * 256 + a) * 256 + b) * 256 + c) * 256 + d
  {
    PositionalMore(front, a);
    PositionalMore(front + [a], b);
    PositionalMore(front + [a] + [b], c);
    PositionalMore(front + [a] + [b] + [c], d);
    assert front + [a] + [b] + [c] + [d] == bytes;
  }

  lemma LowPart(x: nat, high: nat, low: nat)
    requires x == high * 0x1_0000_0000 + low && low < 0x8000_0000
    ensures Int32(x) == low
  {
  }

  /** The number of a header, byte by byte. */
  lemma IdentIs(h: Header)
    requires IsHeader(h, 48)
    ensures h.prefix == [] && h.marks == [] ==> Ident(Bytes(h)) == h.final
    ensures |h.prefix| == 1 && h.marks == [] ==> Ident(Bytes(h)) == h.prefix[0] * 256 + h.final
    ensures h.prefix == [] && |h.marks| == 1 ==> Ident(Bytes(h)) == h.marks[0] * 256 + h.final
    ensures |h.prefix| == 1 && |h.marks| == 1
            ==> Ident(Bytes(h)) == (h.prefix[0] * 256 + h.marks[0]) * 256 + h.final
  {
    var bytes := Bytes(h);
    if |bytes| == 1 {
      assert bytes == [h.final];
      IdentOne(h.final);
    } else if |bytes| == 2 {
      assert bytes == [bytes[0], h.final];
      IdentTwo(bytes[0], h.final);
    } else if |bytes| == 3 {
      assert bytes == [bytes[0], bytes[1], h.final];
      IdentThree(bytes[0], bytes[1], h.final);
    }
  }

  // ---------------------------------------------------------------- registration

  datatype Outcome = Number(ident: int) | Refused

  /** What a handler may be registered for; a NUL passes for a prefix. */
  predicate Accepted(prefix: seq<Code>, intermediates: seq<Code>, final: seq<Code>, low: Code) {
    && (prefix == [0] || ArePrefix(prefix))
    && |intermediates| <= 2 && AreMarks(intermediates)
    && |final| == 1 && low <= final[0] <= 126
  }

  lemma Joins(front: seq<Code>, i: nat, s: Code, all: seq<Code>)
    requires i == Positional(front) && i < 0x40_0000 && s < 256 && all == front + [s]
    ensures Collected(i, s) == Positional(all) == i * 256 + s
  {
    PositionalMore(front, s);
  }

  /** `_identifier`. */
  method Identifier(prefix: seq<Code>, intermediates: seq<Code>, final: seq<Code>, low: Code) returns (r: Outcome)
    ensures r == if Accepted(prefix, intermediates, final, low) then Number(Positional(prefix + intermediates + final))
                 else Refused
  {
    var i := 0;
    if prefix != [] {
      if |prefix| > 1 {
        return Refused;
      }
      i := prefix[0];
      if (i != 0 && 60 > i) || i > 63 {
        return Refused;
      }
      assert prefix == [i];
      IdentOne(i);
    }
    var joined := JoinIntermediates(prefix, intermediates, i);
    if joined.Refused? || |final| != 1 {
      return Refused;
    }
    var s := final[0];
    if low > s || s > 126 {
      return Refused;
    }
    assert final == [s];
    Joins(prefix + intermediates, joined.ident, s, prefix + intermediates + final);
    return Number(Collected(joined.ident, s));
  }

  /** The loop over the intermediate bytes. */
  method JoinIntermediates(ghost prefix: seq<Code>, intermediates: seq<Code>, begun: nat) returns (r: Outcome)
    requires begun == Positional(prefix) && begun <= 63
    ensures r == if |intermediates| <= 2 && AreMarks(intermediates) then Number(Positional(prefix + intermediates))
                 else Refused
    ensures r.Number? ==> 0 <= r.ident < 0x40_0000
  {
    if |intermediates| > 2 {
      return Refused;
    }
    var i := begun;
    assert prefix + [] == prefix;
    for t := 0 to |intermediates|
      invariant AreMarks(intermediates[..t]) && i == Positional(prefix + intermediates[..t])
      invariant i <= if t == 0 then 63 else if t == 1 then 16175 else 4140847
    {
      var s := intermediates[t];
      if 32 > s || s > 47 {
        return Refused;
      }
      assert prefix + intermediates[..t] + [s] == prefix + intermediates[..t + 1];
      Joins(prefix + intermediates[..t], i, s, prefix + intermediates[..t + 1]);
      i := Collected(i, s);
    }
    assert intermediates[..|intermediates|] == intermediates;
    return Number(i);
  }

  // ---------------------------------------------------------------- registration against dispatch

  function Heard(prefix: seq<Code>): seq<Code> { if prefix == [0] then [] else prefix }

  /** Four bytes at most are told apart by their number. */
  lemma ShortDiffer(a: seq<Code>, b: seq<Code>)
    requires 1 <= |a| <= 4 && 1 <= |b| <= 4 && Positional(a) == Positional(b)
    requires forall i :: 0 <= i < |a| ==> 0 < a[i] < 256
    requires forall i :: 0 <= i < |b| ==> 0 < b[i] < 256
    ensures a == b
    decreases |a|
  {
    var m, n := |a| - 1, |b| - 1;
    assert a[m] == b[n] && Positional(a[..m]) == Positional(b[..n]);
    if m > 0 && n > 0 {
      ShortDiffer(a[..m], b[..n]);
      assert a == a[..m] + [a[m]] && b == b[..n] + [b[n]];
    } else if m == 0 && n == 0 {
      assert a == [a[0]] && b == [b[0]];
    }
  }

  /** How large the number of a few bytes can be. */
  lemma {:induction false} Bounds(bytes: seq<Code>)
    requires 1 <= |bytes| <= 4 && forall i :: 0 <= i < |bytes| ==> bytes[i] < 256
    ensures |bytes| == 1 ==> Positional(bytes) < 0x100
    ensures |bytes| == 2 ==> Positional(bytes) < 0x1_0000
    ensures |bytes| == 3 ==> Positional(bytes) < 0x100_0000
    ensures |bytes| == 4 ==> Positional(bytes) / 0x100_0000 == bytes[0]
  {
    if |bytes| == 4 {
      assert bytes == [bytes[0], bytes[1], bytes[2]] + [bytes[3]];
      IdentThree(bytes[0], bytes[1], bytes[2]);
      PositionalMore([bytes[0], bytes[1], bytes[2]], bytes[3]);
    } else if |bytes| > 1 {
      Bounds(bytes[..|bytes| - 1]);
    }
  }

  /** More than four bytes have the number of no registration: the highest of the last four is no prefix. */
  lemma LongDiffers(h: Header, r: seq<Code>)
    requires IsHeader(h, 48) && |Bytes(h)| > 4 && 1 <= |r| <= 4
    requires forall i :: 0 <= i < |r| ==> r[i] < 256
    requires |r| == 4 ==> 60 <= r[0]
    ensures Ident(Bytes(h)) != Positional(r)
  {
    var bytes, n := Bytes(h), |Bytes(h)|;
    var a, b, c, d := bytes[n - 4], bytes[n - 3], bytes[n - 2], bytes[n - 1];
    assert bytes == bytes[..n - 4] + [a, b, c, d];
    IdentFour(bytes[..n - 4], a, b, c, d, bytes);
    assert 32 <= a <= 47;
    Bounds(r);
  }

  lemma NulCounts(bytes: seq<Code>)
    ensures Positional([0] + bytes) == Positional(bytes)
  {
    var n := |bytes| - 1;
    if bytes != [] {
      NulCounts(bytes[..n]);
      PositionalMore([0] + bytes[..n], bytes[n]);
      assert [0] + bytes == [0] + bytes[..n] + [bytes[n]];
    } else {
      assert [0] + bytes == [0];
      IdentOne(0);
    }
  }

  /** A header and what was registered have the same bytes only where they are the same. */
  lemma SameBytes(h: Header, g: Header)
    requires IsHeader(h, 48) && IsHeader(g, 48) && Bytes(h) == Bytes(g)
    ensures h == g
  {
    var a, b := Bytes(h), Bytes(g);
    var n := |a| - 1;
    assert h.final == a[n] == b[n] == g.final;
    var x, y := h.prefix + h.marks, g.prefix + g.marks;
    assert x == a[..n] && y == b[..n];
    if h.prefix != [] {
      assert x[0] == h.prefix[0];
      assert g.prefix == [x[0]];
    }
    assert h.prefix == g.prefix;
    assert h.marks == x[|h.prefix|..] == g.marks;
  }

  lemma ShortIdent(bytes: seq<Code>)
    requires 1 <= |bytes| <= 4 && forall i :: 0 <= i < |bytes| ==> bytes[i] < 128
    ensures Ident(bytes) == Positional(bytes)
  {
    Bounds(bytes);
  }

  lemma Tells(h: Header, g: Header)
    requires IsHeader(h, 48) && IsHeader(g, 48) && |g.marks| <= 2
    ensures Positional(Bytes(g)) == Ident(Bytes(h)) <==> g == h
  {
    if |Bytes(h)| > 4 {
      assert |Bytes(g)| == 4 ==> Bytes(g)[0] == g.prefix[0];
      LongDiffers(h, Bytes(g));
    } else {
      ShortIdent(Bytes(h));
      if Positional(Bytes(g)) == Positional(Bytes(h)) {
        ShortDiffer(Bytes(g), Bytes(h));
        SameBytes(h, g);
      }
    }
  }

  lemma NulIsNone(prefix: seq<Code>, intermediates: seq<Code>, final: seq<Code>, g: Header)
    requires Accepted(prefix, intermediates, final, 48) && g == Header(Heard(prefix), intermediates, final[0])
    ensures IsHeader(g, 48) && Positional(prefix + intermediates + final) == Positional(Bytes(g))
  {
    assert final == [g.final];
    if prefix == [0] {
      NulPrefix(intermediates, final, Bytes(g));
    }
  }

  lemma NulPrefix(intermediates: seq<Code>, final: seq<Code>, bytes: seq<Code>)
    requires bytes == [] + intermediates + final
    ensures Positional([0] + intermediates + final) == Positional(bytes)
  {
    assert [0] + intermediates + final == [0] + (intermediates + final);
    assert bytes == intermediates + final;
    NulCounts(bytes);
  }

  /** Handlers are looked up for a sequence exactly where they were registered for it: the number of a
      header of any length is that of a registration only for the same prefix, intermediates and final
      byte. A NUL registered as prefix counts as none. */
  lemma FindsItsOwn(h: Header, prefix: seq<Code>, intermediates: seq<Code>, final: seq<Code>)
    requires IsHeader(h, 48) && Accepted(prefix, intermediates, final, 48)
    ensures Positional(prefix + intermediates + final) == Ident(Bytes(h))
            <==> Heard(prefix) == h.prefix && intermediates == h.marks && final == [h.final]
  {
    var g := Header(Heard(prefix), intermediates, final[0]);
    NulIsNone(prefix, intermediates, final, g);
    Tells(h, g);
    assert final == [g.final];
  }
}
