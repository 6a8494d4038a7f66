/** The streaming UTF-8 decoder `Utf8ToUtf32` (xterm.js module 482).

    The encoding is that of section 3 of RFC 3629. `Feed` is the decoder one byte at a time; the
    class is the decoder as written, with its loop over four ASCII bytes at once and its three-byte
    store for a sequence that a chunk leaves unfinished. Bytes are numbers here, so that masks and
    shifts appear as ranges, products and remainders. */
module Utf8 {
  import Utf16

  type Code = Utf16.Code
  type Scalar = Utf16.Scalar
  type Byte = b: nat | b < 256

  const BOM: Code := Utf16.BOM

  predicate IsContinuation(b: Byte) { 0x80 <= b < 0xC0 }
  predicate IsLead(b: Byte) { 0xC0 <= b < 0xF8 }

  // ---------------------------------------------------------------- one byte at a time

  /** How many bytes a lead byte announces. */
  function Need(lead: Byte): nat
    requires IsLead(lead)
  {
    if lead < 0xE0 then 2 else if lead < 0xF0 then 3 else 4
  }

  /** An unfinished sequence: nothing, or a lead byte and some of its continuation bytes. */
  predicate IsPending(p: seq<Byte>) {
    p == [] || (IsLead(p[0]) && |p| < Need(p[0]) && forall i :: 1 <= i < |p| ==> IsContinuation(p[i]))
  }

  /** The bits of the lead byte, and then six bits of each byte that follows. */
  function Bits(p: seq<Byte>): (r: nat)
    requires p != []
  {
    if |p| > 1 then Bits(p[..|p| - 1]) * 64 + p[|p| - 1] % 64
    else if 0xC0 <= p[0] < 0xE0 then p[0] % 32
    else if 0xE0 <= p[0] < 0xF0 then p[0] % 16
    else p[0] % 8
  }

  /** The code point of a complete sequence, unless the decoder drops it: an overlong form, a
      surrogate, U+FEFF or a number beyond U+10FFFF. */
  function Accepted(need: nat, bits: nat): seq<Code> {
    if need == 2 then
      if bits < 0x80 || bits >= 0x800 then [] else [bits]
    else if need == 3 then
      if bits < 0x800 || bits > 0xFFFF || 0xD800 <= bits <= 0xDFFF || bits == BOM then [] else [bits]
    else if bits < 0x10000 || bits > 0x10FFFF then [] else [bits]
  }

  datatype Progress = Progress(pending: seq<Byte>, codes: seq<Code>)

  function Begin(b: Byte): (r: Progress)
    ensures IsPending(r.pending)
  {
    if b < 128 then Progress([], [b]) else if IsLead(b) then Progress([b], []) else Progress([], [])
  }

  function Step(p: seq<Byte>, b: Byte): (r: Progress)
    requires IsPending(p)
    ensures IsPending(r.pending)
  {
    if p == [] || !IsContinuation(b) then Begin(b)
    else if |p| + 1 < Need(p[0]) then Progress(p + [b], [])
    else Progress([], Accepted(Need(p[0]), Bits(p + [b])))
  }

  function After(first: Progress, second: Progress): Progress {
    Progress(second.pending, first.codes + second.codes)
  }

  /** Any bytes, after an unfinished sequence. */
  function Feed(p: seq<Byte>, bytes: seq<Byte>): (r: Progress)
    requires IsPending(p)
    ensures IsPending(r.pending)
    decreases bytes
  {
    if bytes == [] then Progress(p, [])
    else var first := Step(p, bytes[0]); After(first, Feed(first.pending, bytes[1..]))
  }

  lemma FeedStep(p: seq<Byte>, bytes: seq<Byte>, d: nat)
    requires IsPending(p) && d < |bytes|
    ensures var first := Step(p, bytes[d]);
            Feed(p, bytes[d..]) == After(first, Feed(first.pending, bytes[d + 1..]))
  {
    assert bytes[d..][1..] == bytes[d + 1..];
  }

  lemma {:induction false} FeedConcat(p: seq<Byte>, a: seq<Byte>, b: seq<Byte>)
    requires IsPending(p)
    ensures Feed(p, a + b) == After(Feed(p, a), Feed(Feed(p, a).pending, b))
    decreases a
  {
    if a == [] {
      assert a + b == b;
    } else {
      var first := Step(p, a[0]);
      FeedConcat(first.pending, a[1..], b);
      assert (a + b)[1..] == a[1..] + b;
      AfterAssociates(first, Feed(first.pending, a[1..]), Feed(Feed(first.pending, a[1..]).pending, b));
    }
  }

  lemma AfterAssociates(a: Progress, b: Progress, c: Progress)
    ensures After(After(a, b), c) == After(a, After(b, c))
  {
  }

  predicate AllScalar(codes: seq<Code>) { forall c :: c in codes ==> Utf16.IsScalar(c) && c != BOM }

  /** Whatever the bytes, only Unicode scalar values come out, and never U+FEFF. */
  lemma {:induction false} OnlyScalars(p: seq<Byte>, bytes: seq<Byte>)
    requires IsPending(p)
    ensures AllScalar(Feed(p, bytes).codes)
    decreases bytes
  {
    if bytes != [] {
      OnlyScalars(Step(p, bytes[0]).pending, bytes[1..]);
    }
  }

  // ---------------------------------------------------------------- valid text

  /** The bytes of a code point, section 3 of RFC 3629. */
  function Encode(c: Code): (r: seq<Byte>)
    requires Utf16.IsScalar(c)
    ensures 1 <= |r| <= 4
  {
    if c < 0x80 then [c]
    else if c < 0x800 then [0xC0 + c / 64, 0x80 + c % 64]
    else if c < 0x10000 then [0xE0 + c / 64 / 64, 0x80 + c / 64 % 64, 0x80 + c % 64]
    else [0xF0 + c / 64 / 64 / 64, 0x80 + c / 64 / 64 % 64, 0x80 + c / 64 % 64, 0x80 + c % 64]
  }

  function EncodeAll(text: seq<Scalar>): seq<Byte> {
    if text == [] then [] else Encode(text[0]) + EncodeAll(text[1..])
  }

  lemma MovedOver(p: seq<Byte>, bytes: seq<Byte>, q: seq<Byte>)
    requires bytes != [] && q == p + [bytes[0]]
    ensures q + bytes[1..] == p + bytes
  {
  }

  /** Continuation bytes that do not complete the sequence are only collected. */
  lemma {:induction false} FeedStarved(p: seq<Byte>, bytes: seq<Byte>)
    requires IsPending(p) && p != []
    requires |p| + |bytes| < Need(p[0]) && forall b :: b in bytes ==> IsContinuation(b)
    ensures Feed(p, bytes) == Progress(p + bytes, [])
    decreases bytes
  {
    if bytes != [] {
      assert bytes[0] in bytes;
      var q := p + [bytes[0]];
      MovedOver(p, bytes, q);
      FeedStarved(q, bytes[1..]);
    } else {
      assert p + bytes == p;
    }
  }

  /** One ASCII byte, or a lead byte and the continuation bytes it announces. */
  predicate IsSequence(s: seq<Byte>) {
    |s| >= 1 && (if |s| == 1 then s[0] < 128 else IsLead(s[0]) && Need(s[0]) == |s|)
    && forall i :: 1 <= i < |s| ==> IsContinuation(s[i])
  }

  lemma EncodeIsSequence(c: Scalar)
    ensures IsSequence(Encode(c))
  {
  }

  /** The first bytes of a sequence wait for the rest of it. */
  lemma FeedPart(s: seq<Byte>, k: nat)
    requires IsSequence(s) && k < |s|
    ensures IsPending(s[..k])
    ensures Feed([], s[..k]) == Progress(s[..k], [])
  {
    if k > 0 {
      FeedStarved([s[0]], s[1..k]);
      assert s[..k] == [s[0]] + s[1..k];
      assert s[..k][1..] == s[1..k];
    }
  }

  lemma FeedWhole(s: seq<Byte>)
    requires IsSequence(s)
    ensures Feed([], s) == Progress([], if |s| == 1 then s else Accepted(|s|, Bits(s)))
  {
    var k := |s| - 1;
    var p, b := s[..k], s[k];
    FeedPart(s, k);
    assert s == p + [b];
    FeedConcat([], p, [b]);
    FeedOne(p, b);
    LastByte(p, b, s);
  }

  lemma LastByte(p: seq<Byte>, b: Byte, s: seq<Byte>)
    requires IsSequence(s) && s == p + [b] && IsPending(p)
    ensures After(Progress(p, []), Step(p, b)) == Progress([], if |s| == 1 then s else Accepted(|s|, Bits(s)))
  {
  }

  lemma FeedOne(p: seq<Byte>, b: Byte)
    requires IsPending(p)
    ensures Feed(p, [b]) == Step(p, b)
  {
    assert [b][1..] == [];
  }

  lemma BitsSnoc(p: seq<Byte>, b: Byte)
    requires p != []
    ensures Bits(p + [b]) == Bits(p) * 64 + b % 64
  {
    assert (p + [b])[..|p|] == p;
  }

  lemma BitsOfPair(lead: Byte, b: Byte)
    ensures Bits([lead, b]) == Bits([lead]) * 64 + b % 64
  {
    BitsSnoc([lead], b);
    assert [lead] + [b] == [lead, b];
  }

  lemma BitsOfTriple(lead: Byte, b: Byte, b': Byte)
    ensures Bits([lead, b, b']) == (Bits([lead]) * 64 + b % 64) * 64 + b' % 64
  {
    BitsOfPair(lead, b);
    BitsSnoc([lead, b], b');
    assert [lead, b] + [b'] == [lead, b, b'];
  }

  lemma BitsOfFour(lead: Byte, b: Byte, b': Byte, b'': Byte)
    ensures Bits([lead, b, b', b'']) == ((Bits([lead]) * 64 + b % 64) * 64 + b' % 64) * 64 + b'' % 64
  {
    BitsOfTriple(lead, b, b');
    BitsSnoc([lead, b, b'], b'');
    assert [lead, b, b'] + [b''] == [lead, b, b', b''];
  }

  lemma LeadBits(x: nat)
    ensures x < 32 ==> Bits([0xC0 + x]) == x
    ensures x < 16 ==> Bits([0xE0 + x]) == x
    ensures x < 8 ==> Bits([0xF0 + x]) == x
  {
  }

  lemma TailBits(y: nat)
    requires y < 64
    ensures (0x80 + y) % 64 == y
  {
  }

  lemma BitsOfEncoded(c: Scalar)
    requires c >= 0x80
    ensures Bits(Encode(c)) == c
  {
    var q, r := c / 64, c % 64;
    TailBits(r);
    if c < 0x800 {
      LeadBits(q);
      BitsOfPair(0xC0 + q, 0x80 + r);
    } else if c < 0x10000 {
      LeadBits(q / 64);
      TailBits(q % 64);
      BitsOfTriple(0xE0 + q / 64, 0x80 + q % 64, 0x80 + r);
    } else {
      BitsOfAstral(q / 64 / 64, q / 64 % 64, q % 64, r);
    }
  }

  lemma BitsOfAstral(w: nat, x: nat, y: nat, z: nat)
    requires w < 8 && x < 64 && y < 64 && z < 64
    ensures Bits([0xF0 + w, 0x80 + x, 0x80 + y, 0x80 + z]) == ((w * 64 + x) * 64 + y) * 64 + z
  {
    LeadBits(w);
    TailBits(x);
    TailBits(y);
    TailBits(z);
    BitsOfFour(0xF0 + w, 0x80 + x, 0x80 + y, 0x80 + z);
  }

  lemma FeedEncoded(c: Scalar)
    ensures Feed([], Encode(c)) == Progress([], if c == BOM then [] else [c])
  {
    EncodeIsSequence(c);
    FeedWhole(Encode(c));
    if c >= 0x80 {
      BitsOfEncoded(c);
    }
  }

  lemma Parts(x: nat, y: nat)
    requires y < 64
    ensures (x * 64 + y) / 64 == x && (x * 64 + y) % 64 == y
  {
  }

  lemma LeadIs(b: Byte)
    ensures 0xC0 <= b < 0xE0 ==> b == 0xC0 + b % 32 && Bits([b]) == b % 32
    ensures 0xE0 <= b < 0xF0 ==> b == 0xE0 + b % 16 && Bits([b]) == b % 16
    ensures 0xF0 <= b < 0xF8 ==> b == 0xF0 + b % 8 && Bits([b]) == b % 8
  {
  }

  lemma TailIs(b: Byte)
    requires IsContinuation(b)
    ensures b == 0x80 + b % 64
  {
  }

  /** The bytes of a sequence that is not overlong are those of its code point. */
  lemma EncodesBack(s: seq<Byte>, c: Code)
    requires IsSequence(s) && |s| > 1 && c == Bits(s) && Utf16.IsScalar(c)
    requires if |s| == 2 then 0x80 <= c < 0x800 else if |s| == 3 then 0x800 <= c <= 0xFFFF else 0x10000 <= c
    ensures Encode(c) == s
  {
    LeadIs(s[0]);
    TailIs(s[1]);
    if |s| == 2 {
      BitsOfPair(s[0], s[1]);
      Parts(s[0] % 32, s[1] % 64);
      assert s == [s[0], s[1]];
    } else if |s| == 3 {
      EncodesThree(s, c);
    } else {
      EncodesFour(s, c);
    }
  }

  lemma EncodesThree(s: seq<Byte>, c: Code)
    requires IsSequence(s) && |s| == 3 && c == Bits(s) && Utf16.IsScalar(c) && 0x800 <= c <= 0xFFFF
    ensures Encode(c) == s
  {
    LeadIs(s[0]);
    TailIs(s[1]);
    TailIs(s[2]);
    BitsOfTriple(s[0], s[1], s[2]);
    var x: nat, y: nat, z: nat := s[0] % 16, s[1] % 64, s[2] % 64;
    Parts(x, y);
    Parts(x * 64 + y, z);
    assert s == [s[0], s[1], s[2]];
  }

  lemma EncodesFour(s: seq<Byte>, c: Code)
    requires IsSequence(s) && |s| == 4 && c == Bits(s) && 0x10000 <= c
    ensures Encode(c) == s
  {
    LeadIs(s[0]);
    TailIs(s[1]);
    TailIs(s[2]);
    TailIs(s[3]);
    BitsOfFour(s[0], s[1], s[2], s[3]);
    var w: nat, x: nat, y: nat, z: nat := s[0] % 8, s[1] % 64, s[2] % 64, s[3] % 64;
    Parts(w, x);
    Parts(w * 64 + x, y);
    Parts((w * 64 + x) * 64 + y, z);
    assert s == [s[0], s[1], s[2], s[3]];
  }

  /** A lead byte with its continuation bytes decodes to a code point exactly when they are the encoding of
      that one: not an overlong form, nor of a surrogate, nor of U+FEFF, nor beyond U+10FFFF. Otherwise
      nothing comes out. */
  lemma OnlyEncodings(s: seq<Byte>, c: Scalar)
    requires IsSequence(s)
    ensures Feed([], s).pending == [] && |Feed([], s).codes| <= 1
    ensures Feed([], s).codes == [c] <==> c != BOM && s == Encode(c)
  {
    FeedWhole(s);
    FeedEncoded(c);
    if Feed([], s).codes == [c] {
      if |s| > 1 {
        EncodesBack(s, c);
      }
    }
  }

  /** Every valid text decodes to its code points, less the byte-order marks. */
  lemma {:induction false} DecodesValid(text: seq<Scalar>)
    ensures Feed([], EncodeAll(text)) == Progress([], Utf16.WithoutMarks(text))
  {
    if text != [] {
      FeedEncoded(text[0]);
      DecodesValid(text[1..]);
      FeedConcat([], Encode(text[0]), EncodeAll(text[1..]));
    }
  }

  // ---------------------------------------------------------------- unfinished sequences between chunks

  /** What the decoder resumes with: it reads its store only up to the first byte whose low six bits
      are zero, so a stored 0x80 and all after it are forgotten. */
  function Kept(p: seq<Byte>): (k: seq<Byte>)
    requires IsPending(p)
    ensures k <= p && IsPending(k)
    ensures p != [] ==> k != []
  {
    if |p| > 1 && p[1] % 64 == 0 then p[..1]
    else if |p| > 2 && p[2] % 64 == 0 then p[..2]
    else p
  }

  /** No continuation byte of an unfinished sequence is 0x80. */
  predicate Clean(p: seq<Byte>)
    requires IsPending(p)
  {
    Kept(p) == p
  }

  /** The chunk ends before the resumed sequence does. */
  predicate Starved(p: seq<Byte>, bytes: seq<Byte>)
    requires IsPending(p)
  {
    p != [] && |Kept(p)| + |bytes| < Need(p[0]) && forall b :: b in bytes ==> IsContinuation(b)
  }

  /** One call of `decode` after an unfinished sequence `p`. */
  function Decoded(p: seq<Byte>, bytes: seq<Byte>): Progress
    requires IsPending(p)
  {
    var r := Feed(Kept(p), bytes);
    if Starved(p, bytes) && |r.pending| < |p| then Progress(r.pending + p[|r.pending|..], r.codes) else r
  }

  lemma DecodedPending(p: seq<Byte>, bytes: seq<Byte>)
    requires IsPending(p)
    ensures IsPending(Decoded(p, bytes).pending)
    ensures AllScalar(Decoded(p, bytes).codes)
  {
    OnlyScalars(Kept(p), bytes);
    if Starved(p, bytes) {
      FeedStarved(Kept(p), bytes);
    }
  }

  /** A call continues a sequence that was stored without a 0x80 as if there had been no break. */
  lemma DecodedClean(p: seq<Byte>, bytes: seq<Byte>)
    requires IsPending(p) && Clean(p)
    ensures Decoded(p, bytes) == Feed(p, bytes)
  {
    if Starved(p, bytes) {
      FeedStarved(p, bytes);
    }
  }

  /** The decoder fed a list of chunks. */
  function DecodeChunks(p: seq<Byte>, chunks: seq<seq<Byte>>): (r: Progress)
    requires IsPending(p)
    ensures IsPending(r.pending)
    decreases chunks
  {
    if chunks == [] then Progress(p, [])
    else
      var first := Decoded(p, chunks[0]);
      DecodedPending(p, chunks[0]);
      After(first, DecodeChunks(first.pending, chunks[1..]))
  }

  /** What is pending before each chunk is clean. */
  predicate CleanCuts(p: seq<Byte>, chunks: seq<seq<Byte>>)
    requires IsPending(p)
    decreases chunks
  {
    chunks == [] ||
    (Clean(p) && (DecodedPending(p, chunks[0]); CleanCuts(Decoded(p, chunks[0]).pending, chunks[1..])))
  }

  lemma DecodesOn(p: seq<Byte>, b: seq<Byte>, bytes: seq<Byte>, first: Progress)
    requires IsPending(p) && Clean(p) && first == Decoded(p, b)
    ensures IsPending(first.pending) && Feed(p, b + bytes) == After(first, Feed(first.pending, bytes))
  {
    DecodedClean(p, b);
    FeedConcat(p, b, bytes);
  }

  /** Any bytes, cut anywhere but after a continuation byte 0x80 that is still pending, decode as the
      whole does. */
  lemma {:induction false} ChunkingIsInvisible(p: seq<Byte>, chunks: seq<seq<Byte>>)
    requires IsPending(p) && CleanCuts(p, chunks)
    ensures DecodeChunks(p, chunks) == Feed(p, Utf16.Join(chunks))
    decreases chunks
  {
    if chunks != [] {
      var b, more := chunks[0], chunks[1..];
      var first := Decoded(p, b);
      Utf16.JoinFront(b, more, chunks);
      DecodesOn(p, b, Utf16.Join(more), first);
      ChunkingIsInvisible(first.pending, more);
    }
  }

  /** Valid text in two calls gives what one call gives exactly when the first call leaves no
      continuation byte 0x80 pending; otherwise one code point is lost. */
  lemma SplitValid(text: seq<Scalar>, a: seq<Byte>, b: seq<Byte>)
    requires a + b == EncodeAll(text) && b != []
    ensures var p := Feed([], a).pending;
            Clean(p) <==> DecodeChunks([], [a, b]) == Feed([], a + b)
  {
    var p := Feed([], a).pending;
    TwoChunks(a, b, [a, b], Feed([], a));
    FeedConcat([], a, b);
    if Clean(p) {
      DecodedClean(p, b);
    } else {
      SplitLoses(text, a, b);
    }
  }

  /** Four bytes cut after a third one that is 0x80. */
  lemma SplitAtZero(s: seq<Byte>, a: seq<Byte>, b: seq<Byte>)
    requires IsSequence(s) && |s| == 4 && s == a + b && |a| == 3 && a[1] % 64 != 0 && a[2] == 0x80
    ensures Feed([], s) == Progress([], Accepted(4, Bits(s))) && DecodeChunks([], [a, b]).codes == []
  {
    FeedWhole(s);
    assert s[..3] == a && b == [s[3]];
    FeedPart(s, 3);
    ChunksNothing(a, b, [a, b], Progress(a, []));
  }

  lemma ChunksNothing(a: seq<Byte>, b: seq<Byte>, chunks: seq<seq<Byte>>, first: Progress)
    requires IsPending(a) && chunks == [a, b] && first == Feed([], a) && first.pending == a && first.codes == []
    requires |a| == 3 && Need(a[0]) == 4 && a[1] % 64 != 0 && a[2] == 0x80 && |b| == 1 && IsContinuation(b[0])
    ensures DecodeChunks([], chunks).codes == []
  {
    TwoChunks(a, b, chunks, first);
    KeepsTwo(a);
    DecodesNothing(a, b, a[..2]);
  }

  lemma KeepsTwo(a: seq<Byte>)
    requires IsPending(a) && |a| == 3 && a[1] % 64 != 0 && a[2] == 0x80
    ensures Kept(a) == a[..2] && a[..2][0] == a[0]
  {
  }

  /** U+10000 is F0 90 80 80. Cut after the third byte, it is not decoded at all. */
  lemma SplitLosesAtInput(a: seq<Byte>, b: seq<Byte>)
    requires a == [0xF0, 0x90, 0x80] && b == [0x80]
    ensures Encode(0x10000) == a + b && Feed([], a + b) == Progress([], [0x10000])
    ensures DecodeChunks([], [a, b]).codes == []
  {
    var s := a + b;
    IsAstral(s);
    SplitAtZero(s, a, b);
  }

  lemma IsAstral(s: seq<Byte>)
    requires s == [0xF0, 0x90, 0x80, 0x80]
    ensures IsSequence(s) && Bits(s) == 0x10000 && Encode(0x10000) == s
  {
    BitsOfFour(s[0], s[1], s[2], s[3]);
  }

  lemma DecodesNothing(p: seq<Byte>, bytes: seq<Byte>, kept: seq<Byte>)
    requires IsPending(p) && Kept(p) == kept != [] && |kept| + |bytes| < Need(kept[0])
    requires forall b :: b in bytes ==> IsContinuation(b)
    ensures Decoded(p, bytes).codes == []
  {
    FeedStarved(kept, bytes);
  }

  lemma TwoChunks(a: seq<Byte>, b: seq<Byte>, chunks: seq<seq<Byte>>, first: Progress)
    requires chunks == [a, b] && first == Feed([], a)
    ensures DecodeChunks([], chunks) == After(first, Decoded(first.pending, b))
  {
    DecodedClean([], a);
    OneChunk(first.pending, b, chunks[1..]);
  }

  lemma OneChunk(p: seq<Byte>, b: seq<Byte>, chunks: seq<seq<Byte>>)
    requires IsPending(p) && chunks == [b]
    ensures DecodeChunks(p, chunks) == Decoded(p, b)
  {
    DecodedPending(p, b);
    assert chunks[1..] == [];
  }

  lemma {:induction false} SplitLoses(text: seq<Scalar>, a: seq<Byte>, b: seq<Byte>)
    requires a + b == EncodeAll(text) && b != []
    requires !Clean(Feed([], a).pending)
    ensures var p := Feed([], a).pending;
            |Feed(Kept(p), b).codes| + 1 == |Feed(p, b).codes|
    decreases text
  {
    assert text != [];
    var c, rest := text[0], text[1..];
    FeedEncoded(c);
    if |Encode(c)| <= |a| {
      var a' := SplitAfter(a, b, Encode(c), EncodeAll(rest));
      FeedConcat([], Encode(c), a');
      SplitLoses(rest, a', b);
    } else {
      var tail := SplitAfter(Encode(c), EncodeAll(rest), a, b);
      EncodeIsSequence(c);
      assert a == Encode(c)[..|a|];
      FeedPart(Encode(c), |a|);
      SplitWithin(c, a, tail, rest);
    }
  }

  lemma SplitAfter(a: seq<Byte>, b: seq<Byte>, head: seq<Byte>, rest: seq<Byte>) returns (a': seq<Byte>)
    requires a + b == head + rest && |head| <= |a|
    ensures a == head + a' && a' + b == rest
  {
    a' := a[|head|..];
    assert a == (a + b)[..|a|] && head == (head + rest)[..|head|];
    assert rest == (head + rest)[|head|..];
  }

  lemma SplitWithin(c: Scalar, p: seq<Byte>, tail: seq<Byte>, text: seq<Scalar>)
    requires p + tail == Encode(c) && tail != [] && IsPending(p) && !Clean(p)
    requires Feed([], p) == Progress(p, [])
    ensures var b := tail + EncodeAll(text);
            |Feed(Kept(p), b).codes| + 1 == |Feed(p, b).codes|
  {
    var e, rest := Encode(c), EncodeAll(text);
    EncodeIsSequence(c);
    assert p[0] == e[0] && forall i :: 0 <= i < |tail| ==> tail[i] == e[|p| + i];
    FeedConcat([], p, tail);
    FeedEncoded(c);
    NoMark(c, p, tail);
    FeedConcat(p, tail, rest);
    FeedStarved(Kept(p), tail);
    FeedConcat(Kept(p), tail, rest);
    BeginsText(Kept(p) + tail, text);
  }

  lemma NoMark(c: Scalar, p: seq<Byte>, tail: seq<Byte>)
    requires p + tail == Encode(c) && IsPending(p) && !Clean(p)
    ensures c != BOM
  {
    assert forall i :: 0 <= i < |p| ==> p[i] == Encode(c)[i];
  }

  /** Text that begins afresh does not care what was left unfinished before it. */
  lemma BeginsText(p: seq<Byte>, text: seq<Scalar>)
    requires IsPending(p)
    ensures Feed(p, EncodeAll(text)).codes == Feed([], EncodeAll(text)).codes
  {
    if text != [] {
      var bytes := EncodeAll(text);
      assert bytes[0] == Encode(text[0])[0];
      assert !IsContinuation(bytes[0]);
    }
  }

  // ---------------------------------------------------------------- single steps at a position

  lemma AtEnd(p: seq<Byte>, input: seq<Byte>)
    requires IsPending(p)
    ensures Feed(p, input[|input|..]) == Progress(p, [])
  {
  }

  /** A byte that starts something: alone, it is an ASCII byte, a lead byte, or dropped. */
  lemma Begins(p: seq<Byte>, input: seq<Byte>, j: nat)
    requires IsPending(p) && j < |input| && (p == [] || !IsContinuation(input[j]))
    ensures Feed(p, input[j..]) == Feed([], input[j..])
    ensures input[j] < 128 ==> Feed(p, input[j..]) == After(Progress([], [input[j]]), Feed([], input[j + 1..]))
    ensures IsLead(input[j]) ==> Feed(p, input[j..]) == Feed([input[j]], input[j + 1..])
    ensures input[j] >= 128 && !IsLead(input[j]) ==> Feed(p, input[j..]) == Feed([], input[j + 1..])
  {
    FeedStep(p, input, j);
    FeedStep([], input, j);
  }

  lemma Continues(p: seq<Byte>, input: seq<Byte>, j: nat, q: seq<Byte>)
    requires IsPending(p) && p != [] && j < |input| && IsContinuation(input[j]) && q == p + [input[j]]
    ensures |q| < Need(p[0]) ==> IsPending(q) && Feed(p, input[j..]) == Feed(q, input[j + 1..])
    ensures |q| == Need(p[0]) ==>
              Feed(p, input[j..]) == After(Progress([], Accepted(|q|, Bits(q))), Feed([], input[j + 1..]))
  {
    FeedStep(p, input, j);
  }

  /** From position `i` on, `codes` come out and then what `rest` says. */
  ghost predicate Gives(input: seq<Byte>, i: nat, codes: seq<Code>, rest: Progress)
    requires i <= |input|
  {
    Feed([], input[i..]) == After(Progress([], codes), rest)
  }

  /** From position `i` on, nothing has come out up to `j` and `q` is unfinished. */
  ghost predicate Holding(input: seq<Byte>, i: nat, q: seq<Byte>, j: nat) {
    i < j <= |input| && IsPending(q) && q != [] && Feed([], input[i..]) == Feed(q, input[j..])
  }

  lemma Leads(input: seq<Byte>, i: nat)
    requires i < |input| && IsLead(input[i])
    ensures Holding(input, i, [input[i]], i + 1)
  {
    Begins([], input, i);
  }

  /** At the end of the input, or before a byte that does not continue it, a sequence stops. */
  lemma Stops(input: seq<Byte>, i: nat, q: seq<Byte>, j: nat)
    requires Holding(input, i, q, j)
    ensures j == |input| ==> Gives(input, i, [], Progress(q, []))
    ensures j < |input| && !IsContinuation(input[j]) ==> Gives(input, i, [], Feed([], input[j..]))
  {
    if j < |input| {
      if !IsContinuation(input[j]) {
        Begins(q, input, j);
      }
    } else {
      AtEnd(q, input);
    }
  }

  lemma GoesOn(input: seq<Byte>, i: nat, q: seq<Byte>, j: nat, q': seq<Byte>)
    requires Holding(input, i, q, j) && j < |input| && IsContinuation(input[j]) && q' == q + [input[j]]
    ensures |q'| < Need(q[0]) ==> Holding(input, i, q', j + 1)
    ensures |q'| == Need(q[0]) ==> Gives(input, i, Accepted(|q'|, Bits(q')), Feed([], input[j + 1..]))
  {
    Continues(q, input, j, q');
  }

  lemma GoesOnThree(input: seq<Byte>, i: nat, j: nat, byte1: Byte, byte2: Byte, byte3: Byte, bits: nat)
    requires Holding(input, i, [byte1, byte2], j) && 0xE0 <= byte1 < 0xF0
    requires j < |input| && byte3 == input[j] && IsContinuation(byte3)
    requires bits == (byte1 % 16 * 64 + byte2 % 64) * 64 + byte3 % 64
    ensures Gives(input, i, Accepted(3, bits), Feed([], input[j + 1..]))
  {
    GoesOn(input, i, [byte1, byte2], j, [byte1, byte2, byte3]);
    BitsOfTriple(byte1, byte2, byte3);
  }

  lemma GoesOnFour(input: seq<Byte>, i: nat, j: nat, byte1: Byte, byte2: Byte, byte3: Byte, byte4: Byte, bits: nat)
    requires Holding(input, i, [byte1, byte2, byte3], j) && 0xF0 <= byte1 < 0xF8
    requires j < |input| && byte4 == input[j] && IsContinuation(byte4)
    requires bits == ((byte1 % 8 * 64 + byte2 % 64) * 64 + byte3 % 64) * 64 + byte4 % 64
    ensures Gives(input, i, Accepted(4, bits), Feed([], input[j + 1..]))
  {
    GoesOn(input, i, [byte1, byte2, byte3], j, [byte1, byte2, byte3, byte4]);
    BitsOfFour(byte1, byte2, byte3, byte4);
  }

  // ---------------------------------------------------------------- the store

  /** The bytes in use of the three-byte store. */
  function Stored(store: seq<Byte>): seq<Byte>
    requires |store| == 3
  {
    if store[0] == 0 then [] else if store[1] == 0 then store[..1] else if store[2] == 0 then store[..2] else store
  }

  ghost predicate IsStore(store: seq<Byte>) {
    |store| == 3 && IsPending(Stored(store)) && (store[0] == 0 ==> store[1] == 0) && (store[1] == 0 ==> store[2] == 0)
  }

  const EMPTY: seq<Byte> := [0, 0, 0]

  predicate IsBytes(q: seq<Byte>, byte1: Byte, byte2: Byte, byte3: Byte) {
    q == if byte2 == 0 then [byte1] else if byte3 == 0 then [byte1, byte2] else [byte1, byte2, byte3]
  }

  lemma StoredBytes(store: seq<Byte>, q: seq<Byte>, byte1: Byte, byte2: Byte, byte3: Byte)
    requires IsPending(q) && q != [] && IsBytes(q, byte1, byte2, byte3) && (byte2 == 0 ==> byte3 == 0)
    requires store == [byte1, byte2, byte3]
    ensures IsStore(store) && Stored(store) == q
  {
  }

  predicate AllContinue(bytes: seq<Byte>) { forall b :: b in bytes ==> IsContinuation(b) }

  lemma KeptIs(store: seq<Byte>, pos: nat)
    requires IsStore(store) && store[0] != 0 && 1 <= pos <= 3
    requires forall i :: 1 <= i < pos ==> store[i] % 64 != 0
    requires pos < 3 ==> store[pos] % 64 == 0
    ensures Kept(Stored(store)) == store[..pos]
  {
  }

  lemma FeedNothing(p: seq<Byte>)
    requires IsPending(p)
    ensures Decoded(p, []) == Progress(p, [])
  {
  }

  lemma TakenMore(k: seq<Byte>, input: seq<Byte>, start: nat)
    requires start < |input|
    ensures k + input[..start] + [input[start]] == k + input[..start + 1]
  {
  }

  /** Bytes written over a part of the store; those beyond its end are lost. */
  predicate Overwrites(store: seq<Byte>, pos: nat, bytes: seq<Byte>, store': seq<Byte>)
    requires |store| == 3
  {
    |store'| == 3
    && forall i :: 0 <= i < 3 ==> store'[i] == if pos <= i < pos + |bytes| then bytes[i - pos] else store[i]
  }

  /** A starved call leaves what it read in place of what it had forgotten. */
  lemma StoreRefilled(store: seq<Byte>, input: seq<Byte>, store': seq<Byte>)
    requires IsStore(store) && Starved(Stored(store), input) && |store'| == 3
    requires Overwrites(store, |Kept(Stored(store))|, input, store')
    ensures IsStore(store') && Progress(Stored(store'), []) == Decoded(Stored(store), input)
  {
    var p := Stored(store);
    var k := Kept(p);
    FeedStarved(k, input);
    forall i | 0 <= i < |input| ensures IsContinuation(input[i]) {
      assert input[i] in input;
    }
  }

  lemma ResumeDiscards(k: seq<Byte>, input: seq<Byte>, start: nat)
    requires IsPending(k) && k != [] && start < |input| && AllContinue(input[..start])
    requires |k| + start < Need(k[0]) && !IsContinuation(input[start])
    ensures Feed(k, input) == After(Progress([], []), Feed([], input[start..]))
  {
    FeedConcat(k, input[..start], input[start..]);
    assert input == input[..start] + input[start..];
    FeedStarved(k, input[..start]);
    Begins(k + input[..start], input, start);
  }

  lemma ResumeCompletes(k: seq<Byte>, input: seq<Byte>, start: nat)
    requires IsPending(k) && k != [] && start <= |input| && AllContinue(input[..start])
    requires |k| + start == Need(k[0])
    ensures var q := k + input[..start];
            Feed(k, input) == After(Progress([], Accepted(|q|, Bits(q))), Feed([], input[start..]))
    ensures start > 0 && IsContinuation(input[start - 1])
    ensures var bits := Bits(k + input[..start]);
            bits < (if |k| + start == 2 then 0x800 else if |k| + start == 3 then 0x10000 else 0x200000)
  {
    var t := start - 1;
    assert input[t] in input[..start];
    ResumeCollects(k, input, t);
    ResumeAtLast(k, input, t, k + input[..t], k + input[..start]);
    BitsBound(k + input[..start]);
  }

  lemma ResumeAtLast(k: seq<Byte>, input: seq<Byte>, t: nat, p: seq<Byte>, q: seq<Byte>)
    requires t < |input| && IsContinuation(input[t]) && p == k + input[..t] && q == k + input[..t + 1]
    requires IsPending(p) && p != [] && |q| == Need(p[0])
    ensures Feed(p, input[t..]) == After(Progress([], Accepted(|q|, Bits(q))), Feed([], input[t + 1..]))
  {
    assert q == p + [input[t]];
    Continues(p, input, t, q);
  }

  lemma ResumeCollects(k: seq<Byte>, input: seq<Byte>, n: nat)
    requires IsPending(k) && k != [] && n < |input| && AllContinue(input[..n + 1])
    requires |k| + n < Need(k[0])
    ensures IsPending(k + input[..n]) && Feed(k, input) == Feed(k + input[..n], input[n..])
  {
    assert forall i :: 0 <= i < n ==> input[..n][i] == input[..n + 1][i];
    FeedConcat(k, input[..n], input[n..]);
    assert input == input[..n] + input[n..];
    FeedStarved(k, input[..n]);
  }

  lemma BitsBound(q: seq<Byte>)
    requires |q| >= 2 && IsLead(q[0]) && Need(q[0]) == |q|
    ensures Bits(q) < (if |q| == 2 then 0x800 else if |q| == 3 then 0x10000 else 0x200000)
  {
    if |q| == 2 {
      assert q == [q[0], q[1]];
      BitsOfPair(q[0], q[1]);
    } else if |q| == 3 {
      assert q == [q[0], q[1], q[2]];
      BitsOfTriple(q[0], q[1], q[2]);
    } else {
      assert q == [q[0], q[1], q[2], q[3]];
      BitsOfFour(q[0], q[1], q[2], q[3]);
    }
  }

  lemma Regroup(a: seq<Code>, b: seq<Code>, c: seq<Code>)
    ensures a + b + c == a + (b + c)
  {
  }

  lemma AfterBoth(a: seq<Code>, b: seq<Code>, rest: Progress)
    ensures After(Progress([], a), After(Progress([], b), rest)) == After(Progress([], a + b), rest)
  {
    assert a + (b + rest.codes) == a + b + rest.codes;
  }

  lemma {:induction false} AsciiRun(input: seq<Byte>, i: nat, i': nat)
    requires i <= i' <= |input| && forall k :: i <= k < i' ==> input[k] < 128
    ensures Feed([], input[i..]) == After(Progress([], input[i..i']), Feed([], input[i'..]))
    decreases i' - i
  {
    if i == i' {
      assert input[i..i'] == [];
    } else {
      assert input[i..i'] == [input[i]] + input[i + 1..i'];
      AsciiRun(input, i + 1, i');
      Begins([], input, i);
      AfterBoth([input[i]], input[i + 1..i'], Feed([], input[i'..]));
    }
  }

  /** The streaming decoder. */
  class Utf8ToUtf32 {
    const interim: array<Byte>

    ghost predicate Valid()
      reads this, interim
    {
      IsStore(interim[..])
    }

    ghost function Pending(): seq<Byte>
      reads this, interim
      requires Valid()
    {
      Stored(interim[..])
    }

    constructor ()
      ensures Valid() && fresh(interim) && Pending() == []
    {
      interim := new Byte[3](i => 0);
    }

    method Clear()
      requires interim.Length == 3
      modifies interim
      ensures Valid() && Pending() == [] && interim[..] == EMPTY
    {
      forall i | 0 <= i < 3 {
        interim[i] := 0;
      }
    }

    /** `decode(input, target)`: the code points go to the front of `target`. */
    method Decode(input: seq<Byte>, target: array<Code>) returns (size: nat)
      requires Valid()
      requires |input| <= target.Length
      modifies interim, target
      ensures Valid()
      ensures size <= |input|
      ensures Progress(Pending(), target[..size]) == Decoded(old(Pending()), input)
    {
      size := 0;
      var start, starved := 0, |input| == 0;
      if starved {
        FeedNothing(Pending());
      } else if interim[0] != 0 {
        starved, start, size := Resume(input, target);
      }
      if !starved {
        ghost var resumed := target[..size];
        assert input[0..] == input;
        size := DecodeFrom(input, target, start, size);
      }
    }

    /** The end of a sequence that an earlier chunk began. */
    method Resume(input: seq<Byte>, target: array<Code>) returns (starved: bool, start: nat, size: nat)
      requires Valid() && interim[0] != 0
      requires 0 < |input| <= target.Length
      modifies interim, target
      ensures Valid()
      ensures starved <==> Starved(old(Pending()), input)
      ensures starved ==> size == 0 && Progress(Pending(), []) == Decoded(old(Pending()), input)
      ensures !starved ==> interim[..] == EMPTY && size <= start <= |input|
      ensures !starved ==>
                Feed(Kept(old(Pending())), input) == After(Progress([], target[..size]), Feed([], input[start..]))
    {
      ghost var p := Pending();
      ghost var k := Kept(p);
      var codepoint, pos := KeptBits();
      var need := if 0xC0 <= interim[0] < 0xE0 then 2 else if 0xE0 <= interim[0] < 0xF0 then 3 else 4;
      var discard;
      starved, discard, start, codepoint := Refill(input, need, pos, codepoint, k);
      size := 0;
      if starved {
        assert input[..start] == input;
        StoreRefilled(old(interim[..]), input, interim[..]);
      } else {
        if discard {
          ResumeDiscards(k, input, start);
        } else {
          ResumeCompletes(k, input, start);
          size := Complete(target, need, codepoint);
          if need == 2 && codepoint < 128 {
            start := start - 1;
            Begins([], input, start);
          }
        }
        Clear();
      }
    }

    /** A resumed sequence is complete: its code point, if it has one, is the first of the result. */
    static method Complete(target: array<Code>, need: nat, codepoint: nat) returns (size: nat)
      requires target.Length > 0 && 2 <= need <= 4
      requires codepoint < if need == 2 then 0x800 else if need == 3 then 0x10000 else 0x200000
      modifies target
      ensures size <= 1 && target[..size] == Accepted(need, codepoint)
    {
      size := 0;
      if need == 2 {
        if codepoint >= 128 {
          target[0], size := codepoint, 1;
        }
      } else if need == 3 {
        if !(codepoint < 2048 || 55296 <= codepoint <= 57343 || codepoint == 65279) {
          target[0], size := codepoint, 1;
        }
      } else {
        if !(codepoint < 65536 || codepoint > 1114111) {
          target[0], size := codepoint, 1;
        }
      }
    }

    /** The bits stored so far, read up to the first byte whose low six bits are zero. */
    method KeptBits() returns (codepoint: nat, pos: nat)
      requires Valid() && interim[0] != 0
      ensures pos <= 3 && interim[..pos] == Kept(Pending()) && codepoint == Bits(Kept(Pending()))
    {
      codepoint := interim[0];
      codepoint := if 0xC0 <= codepoint < 0xE0 then codepoint % 32
                   else if 0xE0 <= codepoint < 0xF0 then codepoint % 16
                   else codepoint % 8;
      pos := 1;
      while pos < 3 && interim[pos] % 64 != 0
        invariant 1 <= pos <= 3
        invariant codepoint == Bits(interim[..pos])
        invariant forall i :: 1 <= i < pos ==> interim[i] % 64 != 0
      {
        codepoint := codepoint * 64 + interim[pos] % 64;
        assert interim[..pos + 1][..pos] == interim[..pos];
        pos := pos + 1;
      }
      KeptIs(interim[..], pos);
    }

    /** Takes the missing continuation bytes from the input and stores them. */
    method Refill(input: seq<Byte>, need: nat, pos: nat, bits: nat, ghost k: seq<Byte>)
      returns (starved: bool, discard: bool, start: nat, codepoint: nat)
      requires interim.Length == 3
      requires k != [] && pos == |k| < need && bits == Bits(k)
      modifies interim
      ensures start <= |input| && pos + start <= need && AllContinue(input[..start])
      ensures Overwrites(old(interim[..]), pos, input[..start], interim[..])
      ensures starved ==> !discard && start == |input| && pos + start < need
      ensures discard ==> start < |input| && !IsContinuation(input[start]) && pos + start < need
      ensures !starved && !discard ==> pos + start == need && codepoint == Bits(k + input[..start])
    {
      var missing := need - pos;
      start, codepoint, starved, discard := 0, bits, false, false;
      assert k + input[..0] == k;
      while start < missing && !starved && !discard
        invariant start <= missing && start <= |input|
        invariant AllContinue(input[..start])
        invariant starved ==> !discard && start == |input| && start < missing
        invariant discard ==> start < |input| && start < missing && !IsContinuation(input[start])
        invariant codepoint == Bits(k + input[..start])
        invariant Overwrites(old(interim[..]), pos, input[..start], interim[..])
        decreases missing - start, !starved && !discard
      {
        if start >= |input| {
          starved := true;
        } else {
          var tmp: nat := input[start];
          if !(128 <= tmp < 192) {
            discard := true;
          } else {
            if pos + start < 3 {
              interim[pos + start] := tmp;
            }
            BitsSnoc(k + input[..start], tmp);
            TakenMore(k, input, start);
            codepoint := codepoint * 64 + tmp % 64;
            start := start + 1;
          }
        }
      }
    }

    /** The main loop, from a position where nothing is pending. */
    method DecodeFrom(input: seq<Byte>, target: array<Code>, start: nat, size: nat) returns (size': nat)
      requires interim.Length == 3 && interim[..] == EMPTY
      requires size <= start <= |input| <= target.Length
      modifies interim, target
      ensures Valid()
      ensures size' <= |input|
      ensures var r := Feed([], input[start..]);
              target[..size'] == old(target[..size]) + r.codes && Pending() == r.pending
    {
      ghost var whole := Feed([], input[start..]);
      ghost var out, sofar: seq<Code>, rest := target[..size], [], whole;
      var i, stored := start, false;
      size' := size;
      while i < |input| && !stored
        invariant size' <= i <= |input|
        invariant target[..size'] == out + sofar
        invariant Valid() && (!stored ==> interim[..] == EMPTY)
        invariant rest == if stored then Progress(Pending(), []) else Feed([], input[i..])
        invariant whole == After(Progress([], sofar), rest)
        decreases |input| - i, !stored
      {
        ghost var codes: seq<Code>;
        stored, i, size', codes := Turn(input, target, i, size');
        rest := if stored then Progress(Pending(), []) else Feed([], input[i..]);
        AfterBoth(sofar, codes, rest);
        Regroup(out, sofar, codes);
        sofar := sofar + codes;
      }
      if !stored {
        AtEnd([], input);
      }
    }

    /** One turn of the main loop. */
    method Turn(input: seq<Byte>, target: array<Code>, i: nat, size: nat)
      returns (stored: bool, i': nat, size': nat, ghost codes: seq<Code>)
      requires interim.Length == 3 && interim[..] == EMPTY
      requires size <= i < |input| <= target.Length
      modifies interim, target
      ensures i < i' <= |input| && size' <= i' && target[..size'] == old(target[..size]) + codes
      ensures Valid() && (!stored ==> interim[..] == EMPTY)
      ensures Gives(input, i, codes, if stored then Progress(Pending(), []) else Feed([], input[i'..]))
    {
      ghost var out: seq<Code> := target[..size];
      i', size' := FourAtOnce(input, target, i, size);
      ghost var fast: seq<Code> := input[i..i'];
      stored, i', size', codes := DecodeOne(input, target, i', size');
      AfterBoth(fast, codes, if stored then Progress(Pending(), []) else Feed([], input[i'..]));
      Regroup(out, fast, codes);
      codes := fast + codes;
    }

    /** The fast loop: four bytes at a time while all four are ASCII. It always leaves a byte over. */
    method FourAtOnce(input: seq<Byte>, target: array<Code>, i: nat, size: nat) returns (i': nat, size': nat)
      requires size <= i < |input| <= target.Length
      modifies target
      ensures i <= i' < |input| && size' - size == i' - i
      ensures target[..size'] == old(target[..size]) + input[i..i']
      ensures Feed([], input[i..]) == After(Progress([], input[i..i']), Feed([], input[i'..]))
    {
      var fourStop := |input| - 4;
      i', size' := i, size;
      while i' < fourStop && input[i'] < 128 && input[i' + 1] < 128 && input[i' + 2] < 128 && input[i' + 3] < 128
        invariant i <= i' < |input| && size' - size == i' - i
        invariant target[..size'] == old(target[..size]) + input[i..i']
        invariant forall k :: i <= k < i' ==> input[k] < 128
      {
        ghost var i0 := i';
        size' := PutFour(target, size', input[i'], input[i' + 1], input[i' + 2], input[i' + 3]);
        i' := i' + 4;
        assert input[i..i'] == input[i..i0] + [input[i0], input[i0 + 1], input[i0 + 2], input[i0 + 3]];
      }
      AsciiRun(input, i, i');
    }

    static method PutFour(target: array<Code>, size: nat, a: Code, b: Code, c: Code, d: Code) returns (size': nat)
      requires size + 3 < target.Length
      modifies target
      ensures size' == size + 4 && target[..size'] == old(target[..size]) + [a, b, c, d]
    {
      target[size] := a;
      target[size + 1] := b;
      target[size + 2] := c;
      target[size + 3] := d;
      size' := size + 4;
    }

    /** One start byte and what belongs to it. */
    method DecodeOne(input: seq<Byte>, target: array<Code>, i: nat, size: nat)
      returns (stored: bool, i': nat, size': nat, ghost codes: seq<Code>)
      requires interim.Length == 3 && interim[..] == EMPTY
      requires size <= i < |input| <= target.Length
      modifies interim, target
      ensures i < i' <= |input| && size' <= i' && target[..size'] == old(target[..size]) + codes
      ensures Valid() && (!stored ==> interim[..] == EMPTY)
      ensures Gives(input, i, codes, if stored then Progress(Pending(), []) else Feed([], input[i'..]))
    {
      var byte1 := input[i];
      if byte1 < 128 {
        Begins([], input, i);
        size' := Put(target, size, byte1);
        stored, i', codes := false, i + 1, [byte1];
      } else if 0xC0 <= byte1 < 0xE0 {
        stored, i', size', codes := Two(input, target, i, size);
      } else if 0xE0 <= byte1 < 0xF0 {
        stored, i', size', codes := Three(input, target, i, size);
      } else if 0xF0 <= byte1 < 0xF8 {
        stored, i', size', codes := Four(input, target, i, size);
      } else {
        Begins([], input, i);
        stored, i', size', codes := false, i + 1, size, [];
      }
    }

    static method Put(target: array<Code>, size: nat, codepoint: Code) returns (size': nat)
      requires size < target.Length
      modifies target
      ensures size' == size + 1 && target[..size'] == old(target[..size]) + [codepoint]
    {
      target[size] := codepoint;
      size' := size + 1;
    }

    /** Before each continuation byte: at the end of the input the bytes so far (0 for none) are
        stored, and a byte that does not continue the sequence is left for the next step. */
    method Await(input: seq<Byte>, i: nat, j: nat, ghost q: seq<Byte>, byte1: Byte, byte2: Byte, byte3: Byte)
      returns (more: bool, stored: bool)
      requires interim.Length == 3 && interim[..] == EMPTY
      requires Holding(input, i, q, j) && IsBytes(q, byte1, byte2, byte3) && (byte2 == 0 ==> byte3 == 0)
      modifies interim
      ensures more ==> j < |input| && IsContinuation(input[j]) && !stored
      ensures Valid() && (!stored ==> interim[..] == EMPTY)
      ensures !more ==> Gives(input, i, [], if stored then Progress(Pending(), []) else Feed([], input[j..]))
    {
      Stops(input, i, q, j);
      stored := j >= |input|;
      if stored {
        interim[0], interim[1], interim[2] := byte1, byte2, byte3;
        StoredBytes(interim[..], q, byte1, byte2, byte3);
        more := false;
      } else {
        more := 128 <= input[j] < 192;
      }
    }

    /** A two-byte sequence. */
    method Two(input: seq<Byte>, target: array<Code>, i: nat, size: nat)
      returns (stored: bool, i': nat, size': nat, ghost codes: seq<Code>)
      requires interim.Length == 3 && interim[..] == EMPTY
      requires size <= i < |input| <= target.Length && 0xC0 <= input[i] < 0xE0
      modifies interim, target
      ensures i < i' <= |input| && size' <= i' && target[..size'] == old(target[..size]) + codes
      ensures Valid() && (!stored ==> interim[..] == EMPTY)
      ensures Gives(input, i, codes, if stored then Progress(Pending(), []) else Feed([], input[i'..]))
    {
      i', size', codes := i + 1, size, [];
      var byte1: nat := input[i];
      Leads(input, i);
      var more;
      more, stored := Await(input, i, i', [byte1], byte1, 0, 0);
      if more {
        i', size', codes := Second(input, target, i, size, byte1);
      }
    }

    /** The last byte of a two-byte sequence; it is taken again after an overlong form. */
    static method Second(input: seq<Byte>, target: array<Code>, i: nat, size: nat, byte1: Byte)
      returns (i': nat, size': nat, ghost codes: seq<Code>)
      requires size <= i && i + 1 < |input| <= target.Length && 0xC0 <= byte1 < 0xE0
      requires Holding(input, i, [byte1], i + 1) && IsContinuation(input[i + 1])
      modifies target
      ensures i < i' <= |input| && size' <= i' && target[..size'] == old(target[..size]) + codes
      ensures Gives(input, i, codes, Feed([], input[i'..]))
    {
      i', size', codes := i + 2, size, [];
      var byte2: nat := input[i + 1];
      GoesOn(input, i, [byte1], i + 1, [byte1, byte2]);
      BitsOfPair(byte1, byte2);
      var codepoint := byte1 % 32 * 64 + byte2 % 64;
      if codepoint < 128 {
        i' := i' - 1;
        Begins([], input, i');
        return;
      }
      size' := Put(target, size, codepoint);
      codes := [codepoint];
    }

    /** A three-byte sequence. */
    method Three(input: seq<Byte>, target: array<Code>, i: nat, size: nat)
      returns (stored: bool, i': nat, size': nat, ghost codes: seq<Code>)
      requires interim.Length == 3 && interim[..] == EMPTY
      requires size <= i < |input| <= target.Length && 0xE0 <= input[i] < 0xF0
      modifies interim, target
      ensures i < i' <= |input| && size' <= i' && target[..size'] == old(target[..size]) + codes
      ensures Valid() && (!stored ==> interim[..] == EMPTY)
      ensures Gives(input, i, codes, if stored then Progress(Pending(), []) else Feed([], input[i'..]))
    {
      i', size', codes := i + 1, size, [];
      var byte1: nat := input[i];
      Leads(input, i);
      var more;
      more, stored := Await(input, i, i', [byte1], byte1, 0, 0);
      if !more {
        return;
      }
      var byte2: nat := input[i'];
      GoesOn(input, i, [byte1], i', [byte1, byte2]);
      i' := i' + 1;
      more, stored := Await(input, i, i', [byte1, byte2], byte1, byte2, 0);
      if !more {
        return;
      }
      var byte3: nat := input[i'];
      var codepoint := (byte1 % 16 * 64 + byte2 % 64) * 64 + byte3 % 64;
      GoesOnThree(input, i, i', byte1, byte2, byte3, codepoint);
      i' := i' + 1;
      size', codes := PutBasic(target, size, codepoint);
    }

    static method PutBasic(target: array<Code>, size: nat, codepoint: nat) returns (size': nat, ghost codes: seq<Code>)
      requires size < target.Length && codepoint <= 0xFFFF
      modifies target
      ensures size <= size' <= size + 1 && target[..size'] == old(target[..size]) + codes
      ensures codes == Accepted(3, codepoint)
    {
      if codepoint < 2048 || 55296 <= codepoint <= 57343 || codepoint == 65279 {
        return size, [];
      }
      size' := Put(target, size, codepoint);
      codes := [codepoint];
    }

    /** A four-byte sequence. */
    method Four(input: seq<Byte>, target: array<Code>, i: nat, size: nat)
      returns (stored: bool, i': nat, size': nat, ghost codes: seq<Code>)
      requires interim.Length == 3 && interim[..] == EMPTY
      requires size <= i < |input| <= target.Length && 0xF0 <= input[i] < 0xF8
      modifies interim, target
      ensures i < i' <= |input| && size' <= i' && target[..size'] == old(target[..size]) + codes
      ensures Valid() && (!stored ==> interim[..] == EMPTY)
      ensures Gives(input, i, codes, if stored then Progress(Pending(), []) else Feed([], input[i'..]))
    {
      i', size', codes := i + 1, size, [];
      var byte1: nat := input[i];
      Leads(input, i);
      var more;
      more, stored := Await(input, i, i', [byte1], byte1, 0, 0);
      if !more {
        return;
      }
      var byte2: nat := input[i'];
      GoesOn(input, i, [byte1], i', [byte1, byte2]);
      i' := i' + 1;
      more, stored := Await(input, i, i', [byte1, byte2], byte1, byte2, 0);
      if !more {
        return;
      }
      var byte3: nat := input[i'];
      GoesOn(input, i, [byte1, byte2], i', [byte1, byte2, byte3]);
      i' := i' + 1;
      stored, i', size', codes := Fourth(input, target, i, i', size, byte1, byte2, byte3);
    }

    /** The last byte of a four-byte sequence. */
    method Fourth(input: seq<Byte>, target: array<Code>, i: nat, j: nat, size: nat,
                  byte1: Byte, byte2: Byte, byte3: Byte)
      returns (stored: bool, i': nat, size': nat, ghost codes: seq<Code>)
      requires interim.Length == 3 && interim[..] == EMPTY
      requires size <= i < j <= |input| <= target.Length && 0xF0 <= byte1 < 0xF8
      requires Holding(input, i, [byte1, byte2, byte3], j) && IsContinuation(byte2) && IsContinuation(byte3)
      modifies interim, target
      ensures i < i' <= |input| && size' <= i' && target[..size'] == old(target[..size]) + codes
      ensures Valid() && (!stored ==> interim[..] == EMPTY)
      ensures Gives(input, i, codes, if stored then Progress(Pending(), []) else Feed([], input[i'..]))
    {
      i', size', codes := j, size, [];
      var more;
      more, stored := Await(input, i, j, [byte1, byte2, byte3], byte1, byte2, byte3);
      if !more {
        return;
      }
      var byte4 := input[j];
      i' := j + 1;
      var codepoint := ((byte1 % 8 * 64 + byte2 % 64) * 64 + byte3 % 64) * 64 + byte4 % 64;
      GoesOnFour(input, i, j, byte1, byte2, byte3, byte4, codepoint);
      size', codes := PutAstral(target, size, codepoint);
    }

    static method PutAstral(target: array<Code>, size: nat, codepoint: nat) returns (size': nat, ghost codes: seq<Code>)
      requires size < target.Length
      modifies target
      ensures size <= size' <= size + 1 && target[..size'] == old(target[..size]) + codes
      ensures codes == Accepted(4, codepoint)
    {
      if codepoint < 65536 || codepoint > 1114111 {
        return size, [];
      }
      size' := Put(target, size, codepoint);
      codes := [codepoint];
    }
  }
}
