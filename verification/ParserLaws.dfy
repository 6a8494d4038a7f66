/** Two laws of `parse` (xterm.js module 2015): its hand-written loops refine the machine that takes
    one table transition per code point, and it does not matter how its input is cut into chunks.

    Both fail in one way only. Inside a device control string the put loop also takes DEL, which the
    table ignores, so a DEL right after other payload is kept within a chunk and lost at the start
    of one. Each law is proved to hold exactly when this does not happen. Machines are compared with
    all that was ever handed to device control strings, which the parser itself does not remember;
    module `ParserSwallow` says when the difference shows outside. */
module ParserLaws {
  import opened Utf16
  import opened TransitionTable
  import opened ParserEvents
  import opened ParserMachine
  import DP = DcsParser

  // ---------------------------------------------------------------- states alone

  datatype Control = Control(state: nat, inPut: bool)

  function Control1(k: Control, c: Code): Control {
    if Swallows(k.state, k.inPut, c) then k else Control(Move(k.state, c), EntryFor(k.state, c).action == DCS_PUT)
  }

  /** The part of a cursor that does not depend on handlers, parameters or payloads. */
  function ControlAll(k: Control, codes: seq<Code>): Control {
    if codes == [] then k else Control1(ControlAll(k, codes[..|codes| - 1]), codes[|codes| - 1])
  }

  function ControlOf(k: Cursor): Control { Control(k.machine.state, k.inPut) }

  lemma {:induction false} FeedControl(env: Env, k: Cursor, codes: seq<Code>)
    requires Valid(k.machine)
    ensures ControlOf(Feed(env, k, codes)) == ControlAll(ControlOf(k), codes)
  {
    if codes != [] {
      FeedControl(env, k, codes[..|codes| - 1]);
    }
  }

  /** Position `p` holds a DEL that the put loop takes. */
  predicate SwallowAt(state: nat, codes: seq<Code>, p: nat)
    requires p < |codes|
  {
    var k := ControlAll(Control(state, false), codes[..p]);
    Swallows(k.state, k.inPut, codes[p])
  }

  predicate HasSwallow(state: nat, codes: seq<Code>) {
    exists p :: 0 <= p < |codes| && SwallowAt(state, codes, p)
  }

  /** In plain words: a DEL in a device control string whose predecessor in the chunk was payload. */
  lemma SwallowIsDelAfterPayload(state: nat, codes: seq<Code>, p: nat)
    requires p < |codes|
    ensures SwallowAt(state, codes, p) <==>
            && codes[p] == DEL && p > 0
            && var k := ControlAll(Control(state, false), codes[..p - 1]);
               k.state == DCS_PASSTHROUGH
               && (EntryFor(k.state, codes[p - 1]).action == DCS_PUT || SwallowAt(state, codes, p - 1))
  {
    if p > 0 {
      assert codes[..p][..p - 1] == codes[..p - 1];
      var k := ControlAll(Control(state, false), codes[..p - 1]);
      PutOnlyInString(k.state, codes[p - 1]);
    }
  }

  lemma PutOnlyInString(state: nat, c: Code)
    ensures EntryFor(state, c).action == DCS_PUT ==> state == DCS_PASSTHROUGH && Move(state, c) == state
  {
  }

  lemma HasSwallowExtends(state: nat, codes: seq<Code>, n: nat)
    requires |codes| == n + 1
    ensures HasSwallow(state, codes) <==> HasSwallow(state, codes[..n]) || SwallowAt(state, codes, n)
  {
    forall p: nat | p < n
      ensures SwallowAt(state, codes[..n], p) == SwallowAt(state, codes, p)
    {
      assert codes[..n][..p] == codes[..p];
    }
    if HasSwallow(state, codes[..n]) {
      var p: nat :| p < n && SwallowAt(state, codes[..n], p);
      assert SwallowAt(state, codes, p);
    }
  }

  // ---------------------------------------------------------------- payload counted

  /** Only the put action adds to what was fed to device control strings. */
  lemma StepFeeds(env: Env, m: Machine, c: Code)
    requires Valid(m)
    ensures |Step(env, m, c).fed| == |m.fed| + if EntryFor(m.state, c).action == DCS_PUT then 1 else 0
  {
  }

  /** Of two runs over the same states, the one that was ahead in payload stays ahead. */
  lemma {:induction false} StaysAhead(env: Env, j: Cursor, k: Cursor, codes: seq<Code>)
    requires Valid(j.machine) && Valid(k.machine)
    requires j.machine.state == k.machine.state && (k.inPut ==> j.inPut)
    requires |j.machine.fed| > |k.machine.fed|
    ensures var j', k' := Feed(env, j, codes), Feed(env, k, codes);
            && j'.machine.state == k'.machine.state && (k'.inPut ==> j'.inPut)
            && |j'.machine.fed| > |k'.machine.fed|
  {
    if codes != [] {
      var n := |codes| - 1;
      StaysAhead(env, j, k, codes[..n]);
      AdvanceAhead(env, Feed(env, j, codes[..n]), Feed(env, k, codes[..n]), codes[n]);
    }
  }

  lemma AdvanceAhead(env: Env, j: Cursor, k: Cursor, c: Code)
    requires Valid(j.machine) && Valid(k.machine)
    requires j.machine.state == k.machine.state && (k.inPut ==> j.inPut)
    requires |j.machine.fed| > |k.machine.fed|
    ensures var j', k' := Advance(env, j, c), Advance(env, k, c);
            && j'.machine.state == k'.machine.state && (k'.inPut ==> j'.inPut)
            && |j'.machine.fed| > |k'.machine.fed|
  {
    StepFeeds(env, j.machine, c);
    StepFeeds(env, k.machine, c);
  }

  // ---------------------------------------------------------------- the loops refine the table

  lemma {:induction false} RefinesUnlessSwallowed(env: Env, m: Machine, codes: seq<Code>)
    requires Valid(m)
    ensures var k := Feed(env, Cursor(m, false), codes);
            && k.machine.state == Run(env, m, codes).state
            && if HasSwallow(m.state, codes) then |k.machine.fed| > |Run(env, m, codes).fed|
               else k.machine == Run(env, m, codes)
  {
    if codes != [] {
      var n := |codes| - 1;
      var k, r := Feed(env, Cursor(m, false), codes[..n]), Run(env, m, codes[..n]);
      RefinesUnlessSwallowed(env, m, codes[..n]);
      HasSwallowExtends(m.state, codes, n);
      FeedControl(env, Cursor(m, false), codes[..n]);
      assert SwallowAt(m.state, codes, n) == Swallows(k.machine.state, k.inPut, codes[n]);
      RefinesStep(env, k, r, codes[n], Advance(env, k, codes[n]), Step(env, r, codes[n]));
    }
  }

  lemma RefinesStep(env: Env, k: Cursor, r: Machine, c: Code, k': Cursor, r': Machine)
    requires Valid(k.machine) && Valid(r) && k.machine.state == r.state
    requires k.machine == r || |k.machine.fed| > |r.fed|
    requires k' == Advance(env, k, c) && r' == Step(env, r, c)
    ensures k'.machine.state == r'.state
    ensures if k.machine == r && !Swallows(r.state, k.inPut, c) then k'.machine == r'
            else |k'.machine.fed| > |r'.fed|
  {
    StepFeeds(env, k.machine, c);
    StepFeeds(env, r, c);
    if Swallows(r.state, k.inPut, c) {
      SwallowKeeps(r.state, k.inPut, c);
    }
  }

  /** The table ignores what the loop takes, and stays where it is. */
  lemma SwallowKeeps(state: nat, inPut: bool, c: Code)
    requires Swallows(state, inPut, c)
    ensures EntryFor(state, c).action != DCS_PUT && Move(state, c) == state
  {
  }

  /** A call of `parse` does what one transition per code point does, exactly when no DEL is taken
      as payload. The machines agree in everything, what was handed to device control strings included. */
  lemma LoopsRefineTable(env: Env, m: Machine, codes: seq<Code>)
    requires Valid(m)
    ensures Parsed(env, m, codes) == Run(env, m, codes) <==> !HasSwallow(m.state, codes)
  {
    RefinesUnlessSwallowed(env, m, codes);
  }

  /** What the table ignores and the loop keeps: `a` and DEL in a device control string. The fallback is
      told of both, or all handlers collect both; the table, and two calls, leave it at `a`. */
  lemma DelMakesADifference(env: Env, m: Machine)
    requires Valid(m) && m.state == DCS_PASSTHROUGH
    ensures var one, two := Parsed(env, m, [97, DEL]), Parsed(env, Parsed(env, m, [97]), [DEL]);
            && two == Run(env, m, [97, DEL])
            && (m.dcs.active == [] ==>
                  one.log == m.log + [DcsData(m.dcs.ident, [97]), DcsData(m.dcs.ident, [DEL])]
                  && two.log == m.log + [DcsData(m.dcs.ident, [97])])
            && (m.dcs.active != [] ==>
                  one.dcs.active == CollectAll(m.dcs.active, [97, DEL])
                  && two.dcs.active == CollectAll(m.dcs.active, [97]))
  {
    DelTaken(env, m);
    DelIgnored(env, m);
    OneAndTwo(m, PutDcs(m, [97, DEL]), PutDcs(m, [97]));
  }

  lemma OneAndTwo(m: Machine, one: Machine, two: Machine)
    requires one == PutDcs(m, [97, DEL]) && two == PutDcs(m, [97])
    ensures m.dcs.active == [] ==>
              one.log == m.log + [DcsData(m.dcs.ident, [97]), DcsData(m.dcs.ident, [DEL])]
              && two.log == m.log + [DcsData(m.dcs.ident, [97])]
    ensures m.dcs.active != [] ==>
              one.dcs.active == CollectAll(m.dcs.active, [97, DEL])
              && two.dcs.active == CollectAll(m.dcs.active, [97])
  {
    UnitsSingle(97);
    UnitsPair(97, DEL);
    PutsText(m, [97], [97]);
    PutsText(m, [97, DEL], [97, DEL]);
    assert Split(DcsData(m.dcs.ident, [97, DEL])) == [DcsData(m.dcs.ident, [97]), DcsData(m.dcs.ident, [DEL])];
  }

  lemma DelTaken(env: Env, m: Machine)
    requires Valid(m) && m.state == DCS_PASSTHROUGH
    ensures Parsed(env, m, [97, DEL]) == PutDcs(m, [97, DEL])
  {
    FeedDcsPut(env, Cursor(m, false), [97, DEL]);
  }

  lemma DelIgnored(env: Env, m: Machine)
    requires Valid(m) && m.state == DCS_PASSTHROUGH
    ensures Run(env, m, [97, DEL]) == Parsed(env, Parsed(env, m, [97]), [DEL]) == PutDcs(m, [97])
  {
    FeedDcsPut(env, Cursor(m, false), [97]);
    FeedOne(env, Cursor(PutDcs(m, [97]), false), DEL);
    assert [97, DEL][..1] == [97] && [97][..0] == [];
    assert Run(env, m, [97]) == Step(env, Run(env, m, []), 97);
    assert Run(env, m, [97, DEL]) == Step(env, Run(env, m, [97]), DEL);
  }

  lemma PutsText(m: Machine, codes: seq<Code>, text: seq<Unit>)
    requires codes != [] && Units(codes) == text
    ensures var r := PutDcs(m, codes);
            if m.dcs.active == [] then r.log == m.log + Split(DcsData(m.dcs.ident, text))
            else r.dcs.active == CollectAll(m.dcs.active, text)
  {
    DP.PutSlice(DP.Run(m.dcs, m.log), codes);
  }

  // ---------------------------------------------------------------- chunks

  /** `b` starts with a DEL that the put loop would have taken had it still been running. */
  predicate CutsBeforeDel(state: nat, a: seq<Code>, b: seq<Code>) {
    b != [] && var k := ControlAll(Control(state, false), a); Swallows(k.state, k.inPut, b[0])
  }

  /** Two calls of `parse` do what one call on both inputs does, exactly when the cut does not fall
      between payload and a DEL. The machines agree in everything: state, parameters, identifiers,
      payloads, limit flags, the log of calls, and what was handed to device control strings. */
  lemma ChunksCompose(env: Env, m: Machine, a: seq<Code>, b: seq<Code>)
    requires Valid(m)
    ensures Parsed(env, Parsed(env, m, a), b) == Parsed(env, m, a + b) <==> !CutsBeforeDel(m.state, a, b)
  {
    var j := Feed(env, Cursor(m, false), a);
    FeedConcat(env, Cursor(m, false), a, b);
    FeedControl(env, Cursor(m, false), a);
    if b != [] {
      FlagMatters(env, j, b);
    }
  }

  lemma FeedFirst(env: Env, k: Cursor, c: Code, rest: seq<Code>, codes: seq<Code>)
    requires Valid(k.machine) && codes == [c] + rest
    ensures Feed(env, k, codes) == Feed(env, Advance(env, k, c), rest)
  {
    FeedConcat(env, k, [c], rest);
    FeedOne(env, k, c);
  }

  /** The flag matters to what follows exactly when a DEL comes first. */
  lemma FlagMatters(env: Env, j: Cursor, b: seq<Code>)
    requires Valid(j.machine) && b != []
    ensures Feed(env, Cursor(j.machine, false), b).machine == Feed(env, j, b).machine
            <==> !Swallows(j.machine.state, j.inPut, b[0])
  {
    var k := Cursor(j.machine, false);
    FeedFirst(env, j, b[0], b[1..], b);
    FeedFirst(env, k, b[0], b[1..], b);
    if Swallows(j.machine.state, j.inPut, b[0]) {
      RefinesStep(env, j, j.machine, b[0], Advance(env, j, b[0]), Step(env, j.machine, b[0]));
      SwallowKeeps(j.machine.state, j.inPut, b[0]);
      StaysAhead(env, Advance(env, j, b[0]), Advance(env, k, b[0]), b[1..]);
    } else {
      assert Advance(env, j, b[0]) == Advance(env, k, b[0]);
    }
  }

  function ParsedChunks(env: Env, m: Machine, chunks: seq<seq<Code>>): (r: Machine)
    requires Valid(m)
    ensures Valid(r)
  {
    if chunks == [] then m else Parsed(env, ParsedChunks(env, m, chunks[..|chunks| - 1]), chunks[|chunks| - 1])
  }

  lemma RunConcat(env: Env, m: Machine, a: seq<Code>, b: seq<Code>)
    requires Valid(m)
    ensures Run(env, m, a + b) == Run(env, Run(env, m, a), b)
  {
    RunRest(env, m, a, Run(env, m, a), b, a + b);
  }

  lemma {:induction false} RunRest(env: Env, m: Machine, a: seq<Code>, m': Machine, b: seq<Code>, ab: seq<Code>)
    requires Valid(m) && m' == Run(env, m, a) && ab == a + b
    ensures Run(env, m, ab) == Run(env, m', b)
    decreases |b|
  {
    if b == [] {
      assert ab == a;
    } else {
      var front, last := b[..|b| - 1], b[|b| - 1];
      assert ab[..|ab| - 1] == a + front && ab[|ab| - 1] == last;
      RunRest(env, m, a, m', front, ab[..|ab| - 1]);
      RunLast(env, m, ab, Run(env, m', front), last);
      RunLast(env, m', b, Run(env, m', front), last);
    }
  }

  lemma RunLast(env: Env, m: Machine, codes: seq<Code>, before: Machine, last: Code)
    requires Valid(m) && codes != [] && last == codes[|codes| - 1] && before == Run(env, m, codes[..|codes| - 1])
    ensures Valid(before) && Run(env, m, codes) == Step(env, before, last)
  {
  }

  lemma {:induction false} ControlConcat(k: Control, a: seq<Code>, b: seq<Code>)
    ensures ControlAll(k, a + b) == ControlAll(ControlAll(k, a), b)
  {
    if b == [] {
      assert a + b == a;
    } else {
      var n := |b| - 1;
      assert (a + b)[..|a + b| - 1] == a + b[..n] && (a + b)[|a + b| - 1] == b[n];
      ControlConcat(k, a, b[..n]);
    }
  }

  /** The flag can only be lost by starting afresh. */
  lemma {:induction false} FreshControl(k: Control, codes: seq<Code>)
    ensures var fresh', full := ControlAll(Control(k.state, false), codes), ControlAll(k, codes);
            fresh'.state == full.state && (fresh'.inPut ==> full.inPut)
  {
    if codes != [] {
      var n := |codes| - 1;
      FreshControl(k, codes[..n]);
      PutOnlyInString(ControlAll(k, codes[..n]).state, codes[n]);
    }
  }

  lemma SwallowOfPart(state: nat, a: seq<Code>, b: seq<Code>)
    ensures HasSwallow(state, a) ==> HasSwallow(state, a + b)
    ensures HasSwallow(ControlAll(Control(state, false), a).state, b) ==> HasSwallow(state, a + b)
  {
    if HasSwallow(state, a) {
      var p: nat :| p < |a| && SwallowAt(state, a, p);
      assert (a + b)[..p] == a[..p];
      assert SwallowAt(state, a + b, p);
    }
    var k := ControlAll(Control(state, false), a);
    if HasSwallow(k.state, b) {
      var p: nat :| p < |b| && SwallowAt(k.state, b, p);
      assert (a + b)[..|a| + p] == a + b[..p];
      ControlConcat(Control(state, false), a, b[..p]);
      FreshControl(k, b[..p]);
      assert SwallowAt(state, a + b, |a| + p);
    }
  }

  /** Any list of chunks, and one transition per code point: all the same where no DEL is taken. */
  lemma {:induction false} ChunkingIsInvisible(env: Env, m: Machine, chunks: seq<seq<Code>>)
    requires Valid(m) && !HasSwallow(m.state, Join(chunks))
    ensures ParsedChunks(env, m, chunks) == Run(env, m, Join(chunks))
    ensures Parsed(env, m, Join(chunks)) == Run(env, m, Join(chunks))
  {
    LoopsRefineTable(env, m, Join(chunks));
    if chunks != [] {
      var n := |chunks| - 1;
      var before := Join(chunks[..n]);
      SwallowOfPart(m.state, before, chunks[n]);
      ChunkingIsInvisible(env, m, chunks[..n]);
      RefinesUnlessSwallowed(env, m, before);
      FeedControl(env, Cursor(m, false), before);
      LoopsRefineTable(env, ParsedChunks(env, m, chunks[..n]), chunks[n]);
      RunConcat(env, m, before, chunks[n]);
    }
  }
}
