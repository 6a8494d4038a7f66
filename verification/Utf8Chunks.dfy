/** Valid UTF-8 text in any list of chunks, through the decoder of xterm.js module 482: what is decoded is
    the text exactly when no cut leaves a continuation byte 0x80 pending. */
module Utf8Chunks {
  import opened Utf8
  import Utf16

  // ---------------------------------------------------------------- in the midst of a text

  /** What is pending and the bytes to come are a text, which begins with what is pending. */
  predicate Whole(p: seq<Byte>, bytes: seq<Byte>, text: seq<Scalar>) {
    IsPending(p) && p + bytes == EncodeAll(text) && (p != [] ==> text != [] && |p| < |Encode(text[0])|)
  }

  /** What is pending cannot be completed by the continuation bytes that come before a text. */
  predicate Torn(p: seq<Byte>, tail: seq<Byte>, bytes: seq<Byte>, text: seq<Scalar>) {
    IsPending(p) && p != [] && |p| + |tail| < Need(p[0]) && AllContinue(tail) && bytes == tail + EncodeAll(text)
  }

  /** What comes of a text comes of its first part and of the rest. */
  lemma {:induction false} MarksAddUp(text: seq<Scalar>, n: nat)
    requires n <= |text|
    ensures |Utf16.WithoutMarks(text)| == |Utf16.WithoutMarks(text[..n])| + |Utf16.WithoutMarks(text[n..])|
  {
    if n == 0 {
      assert text[0..] == text;
    } else {
      MarksAddUp(text[1..], n - 1);
      assert text[..n][1..] == text[1..][..n - 1] && text[1..][n - 1..] == text[n..];
    }
  }

  lemma FirstOfText(text: seq<Scalar>, m: nat)
    requires m < |text|
    ensures text[..m + 1][1..] == text[1..][..m] && text[m + 1..] == text[1..][m..]
  {
  }

  lemma BeginsFirst(a: seq<Byte>, b: seq<Byte>, head: seq<Byte>, rest: seq<Byte>)
    requires a + b == head + rest && |a| <= |head|
    ensures a == head[..|a|]
  {
    assert a == (a + b)[..|a|] && head[..|a|] == (head + rest)[..|a|];
  }

  /** What one call decodes of a text that begins afresh. */
  lemma {:induction false} TakesText(text: seq<Scalar>, a: seq<Byte>, b: seq<Byte>) returns (n: nat)
    requires a + b == EncodeAll(text)
    ensures n <= |text| && Feed([], a).codes == Utf16.WithoutMarks(text[..n])
    ensures Whole(Feed([], a).pending, b, text[n..])
    decreases text
  {
    if text == [] || a == [] {
      n := 0;
      assert a == [] && text[0..] == text;
    } else {
      var c, rest := text[0], text[1..];
      FeedEncoded(c);
      EncodeIsSequence(c);
      if |Encode(c)| <= |a| {
        var a' := SplitAfter(a, b, Encode(c), EncodeAll(rest));
        FeedConcat([], Encode(c), a');
        var m := TakesText(rest, a', b);
        n := m + 1;
        FirstOfText(text, m);
      } else {
        n := 0;
        assert text[0..] == text;
        BeginsFirst(a, b, Encode(c), EncodeAll(rest));
        FeedPart(Encode(c), |a|);
      }
    }
  }

  /** What one call decodes that continues a text. */
  lemma GoesOnWhole(p: seq<Byte>, b: seq<Byte>, b': seq<Byte>, text: seq<Scalar>) returns (n: nat)
    requires Whole(p, b + b', text)
    ensures n <= |text| && Feed(p, b).codes == Utf16.WithoutMarks(text[..n])
    ensures Whole(Feed(p, b).pending, b', text[n..])
  {
    assert p + (b + b') == p + b + b';
    n := TakesText(text, p + b, b');
    FeedConcat([], p, b);
    if p != [] {
      var e := Encode(text[0]);
      EncodeIsSequence(text[0]);
      BeginsFirst(p, b + b', e, EncodeAll(text[1..]));
      FeedPart(e, |p|);
    }
  }

  lemma FirstIsNoContinuation(bytes: seq<Byte>, more: seq<Byte>, text: seq<Scalar>)
    requires bytes != [] && bytes + more == EncodeAll(text)
    ensures !IsContinuation(bytes[0])
  {
    assert bytes[0] == (bytes + more)[0] == Encode(text[0])[0];
    EncodeIsSequence(text[0]);
  }

  /** A call that comes to a text after continuation bytes that do not complete the sequence `q`. */
  lemma ComesToText(q: seq<Byte>, tail: seq<Byte>, b: seq<Byte>, b': seq<Byte>, text: seq<Scalar>) returns (n: nat)
    requires IsPending(q) && q != [] && |q| + |tail| < Need(q[0]) && AllContinue(tail)
    requires b != [] && b + b' == EncodeAll(text)
    ensures n <= |text| && Feed(q, tail + b).codes == Utf16.WithoutMarks(text[..n])
    ensures Whole(Feed(q, tail + b).pending, b', text[n..])
  {
    FeedStarved(q, tail);
    FeedConcat(q, tail, b);
    FirstIsNoContinuation(b, b', text);
    Begins(q + tail, b, 0);
    assert b[0..] == b;
    n := TakesText(text, b, b');
  }

  /** A call that ends before the text does. */
  lemma StaysTorn(p: seq<Byte>, tail: seq<Byte>, b: seq<Byte>, b': seq<Byte>, text: seq<Scalar>)
    requires IsPending(p) && p != [] && AllContinue(tail) && |p| + |tail| <= Need(p[0])
    requires |Kept(p)| + |tail| < Need(p[0]) && 0 < |b| <= |tail| && b == tail[..|b|]
    requires b' == tail[|b|..] + EncodeAll(text)
    ensures Decoded(p, b).codes == [] && Torn(Decoded(p, b).pending, tail[|b|..], b', text)
  {
    FeedStarved(Kept(p), b);
    DecodedPending(p, b);
  }

  lemma TakesTorn(p: seq<Byte>, tail: seq<Byte>, b: seq<Byte>, b': seq<Byte>, text: seq<Scalar>)
    returns (torn: bool, n: nat)
    requires IsPending(p) && p != [] && AllContinue(tail) && |p| + |tail| <= Need(p[0])
    requires |Kept(p)| + |tail| < Need(p[0]) && b + b' == tail + EncodeAll(text) && b != []
    ensures n <= |text| && Decoded(p, b).codes == Utf16.WithoutMarks(text[..n])
    ensures torn ==> |b| <= |tail| && n == 0 && Torn(Decoded(p, b).pending, tail[|b|..], b', text)
    ensures !torn ==> Whole(Decoded(p, b).pending, b', text[n..])
  {
    torn := |b| <= |tail|;
    if torn {
      n := 0;
      var t := SplitAfter(tail, EncodeAll(text), b, b');
      assert t == tail[|b|..] && b == tail[..|b|];
      StaysTorn(p, tail, b, b', text);
    } else {
      var t := SplitAfter(b, b', tail, EncodeAll(text));
      FirstIsNoContinuation(t, b', text);
      assert t[0] in b;
      n := ComesToText(Kept(p), tail, t, b', text);
    }
  }

  // ---------------------------------------------------------------- any list of chunks

  /** However a text is cut, no more is decoded than the text, and less where a cut is not clean. */
  lemma {:induction false} AtMostTheText(p: seq<Byte>, chunks: seq<seq<Byte>>, text: seq<Scalar>)
    requires Whole(p, Utf16.Join(chunks), text)
    ensures |DecodeChunks(p, chunks).codes| <= |Utf16.WithoutMarks(text)|
    ensures !CleanCuts(p, chunks) ==> |DecodeChunks(p, chunks).codes| < |Utf16.WithoutMarks(text)|
    decreases |chunks|, 2
  {
    if chunks != [] {
      var b, more := chunks[0], chunks[1..];
      Utf16.JoinFront(b, more, chunks);
      if Clean(p) {
        CleanFirst(p, b, more, chunks, text);
      } else if b == [] {
        EmptyFirst(p, b, more, chunks, text);
      } else {
        UncleanFirst(p, b, more, chunks, text);
      }
    }
  }

  lemma CleanFirst(p: seq<Byte>, b: seq<Byte>, more: seq<seq<Byte>>, chunks: seq<seq<Byte>>, text: seq<Scalar>)
    requires Whole(p, b + Utf16.Join(more), text) && Clean(p) && chunks == [b] + more
    ensures |DecodeChunks(p, chunks).codes| <= |Utf16.WithoutMarks(text)|
    ensures !CleanCuts(p, chunks) ==> |DecodeChunks(p, chunks).codes| < |Utf16.WithoutMarks(text)|
    decreases |chunks|, 0
  {
    var first := Decoded(p, b);
    DecodedClean(p, b);
    var n := GoesOnWhole(p, b, Utf16.Join(more), text);
    AtMostTheText(first.pending, more, text[n..]);
    MarksAddUp(text, n);
  }

  lemma EmptyFirst(p: seq<Byte>, b: seq<Byte>, more: seq<seq<Byte>>, chunks: seq<seq<Byte>>, text: seq<Scalar>)
    requires Whole(p, b + Utf16.Join(more), text) && !Clean(p) && b == [] && chunks == [b] + more
    ensures |DecodeChunks(p, chunks).codes| < |Utf16.WithoutMarks(text)|
    decreases |chunks|, 0
  {
    FeedNothing(p);
    assert b + Utf16.Join(more) == Utf16.Join(more);
    AtMostTheText(p, more, text);
    assert more != [];
  }

  lemma UncleanFirst(p: seq<Byte>, b: seq<Byte>, more: seq<seq<Byte>>, chunks: seq<seq<Byte>>, text: seq<Scalar>)
    requires Whole(p, b + Utf16.Join(more), text) && !Clean(p) && b != [] && chunks == [b] + more
    ensures |DecodeChunks(p, chunks).codes| < |Utf16.WithoutMarks(text)|
    decreases |chunks|, 1
  {
    var c, rest := text[0], text[1..];
    var tail := SplitAfter(Encode(c), EncodeAll(rest), p, b + Utf16.Join(more));
    EncodeIsSequence(c);
    assert p[0] == (p + tail)[0] && forall i :: 0 <= i < |tail| ==> tail[i] == (p + tail)[|p| + i];
    NoMark(c, p, tail);
    AfterTorn(p, tail, b, more, chunks, rest);
  }

  /** One code point less: the sequence that is not completed is not decoded. */
  lemma AfterTorn(p: seq<Byte>, tail: seq<Byte>, b: seq<Byte>, more: seq<seq<Byte>>, chunks: seq<seq<Byte>>,
                  text: seq<Scalar>)
    requires IsPending(p) && p != [] && AllContinue(tail) && |p| + |tail| <= Need(p[0])
    requires |Kept(p)| + |tail| < Need(p[0]) && b + Utf16.Join(more) == tail + EncodeAll(text)
    requires b != [] && chunks == [b] + more
    ensures |DecodeChunks(p, chunks).codes| <= |Utf16.WithoutMarks(text)|
    decreases |chunks|, 0
  {
    var first := Decoded(p, b);
    var torn, n := TakesTorn(p, tail, b, Utf16.Join(more), text);
    if torn {
      StillTorn(first.pending, tail[|b|..], more, text);
    } else {
      AtMostTheText(first.pending, more, text[n..]);
      MarksAddUp(text, n);
    }
  }

  lemma {:induction false} StillTorn(p: seq<Byte>, tail: seq<Byte>, chunks: seq<seq<Byte>>, text: seq<Scalar>)
    requires Torn(p, tail, Utf16.Join(chunks), text)
    ensures |DecodeChunks(p, chunks).codes| <= |Utf16.WithoutMarks(text)|
    decreases |chunks|, 2
  {
    if chunks != [] {
      var b, more := chunks[0], chunks[1..];
      Utf16.JoinFront(b, more, chunks);
      if b == [] {
        FeedNothing(p);
            assert b + Utf16.Join(more) == Utf16.Join(more);
        StillTorn(p, tail, more, text);
      } else {
        AfterTorn(p, tail, b, more, chunks, text);
      }
    }
  }

  /** Valid text in any list of chunks gives what one call gives exactly when no cut leaves a continuation
      byte 0x80 pending; otherwise less of it comes out. */
  lemma ValidChunks(text: seq<Scalar>, chunks: seq<seq<Byte>>)
    requires Utf16.Join(chunks) == EncodeAll(text)
    ensures CleanCuts([], chunks) <==> DecodeChunks([], chunks) == Feed([], EncodeAll(text))
    ensures CleanCuts([], chunks) <==> DecodeChunks([], chunks).codes == Utf16.WithoutMarks(text)
    ensures !CleanCuts([], chunks) ==> |DecodeChunks([], chunks).codes| < |Utf16.WithoutMarks(text)|
  {
    DecodesValid(text);
    if CleanCuts([], chunks) {
      ChunkingIsInvisible([], chunks);
    } else {
      assert [] + EncodeAll(text) == EncodeAll(text);
      AtMostTheText([], chunks, text);
    }
  }
}
