/** Whole sequences (xterm.js module 2015, with 8742, 6242 and 6351), in the forms of section 5.4 of
    ECMA-48: a control sequence, an escape sequence or a control string reaches the handlers registered
    for its bytes, the one registered last first, with exactly the parameters and the text that were
    written. */
module ParserDelivery {
  import opened Utf16
  import opened TransitionTable
  import opened ParserEvents
  import opened ParserMachine
  import opened ParserIdentifiers
  import PL = ParamList
  import OP = OscParser
  import DP = DcsParser

  const ESC: Code := 27

  // ---------------------------------------------------------------- who is asked

  /** The calls in the order in which they are made: the handler registered last comes first. */
  function CsiCalls(handlers: seq<Handler>, params: PL.List): seq<Event> {
    seq(|handlers|, i requires 0 <= i < |handlers| => CsiCall(handlers[|handlers| - 1 - i], params))
  }

  function EscCalls(handlers: seq<Handler>): seq<Event> {
    seq(|handlers|, i requires 0 <= i < |handlers| => EscCall(handlers[|handlers| - 1 - i]))
  }

  function OscCalls(handlers: seq<Handler>, text: seq<Unit>): seq<Event> {
    seq(|handlers|, i requires 0 <= i < |handlers| => OscCall(handlers[|handlers| - 1 - i], text))
  }

  function DcsCalls(handlers: seq<Handler>, text: seq<Unit>, params: PL.List): seq<Event> {
    seq(|handlers|, i requires 0 <= i < |handlers| => DcsCall(handlers[|handlers| - 1 - i], text, params))
  }

  lemma {:induction false} CsiInTurn(env: Env, handlers: seq<Handler>, n: nat, ident: int, params: PL.List,
                                     log: seq<Event>)
    requires n <= |handlers|
    ensures InTurn(env, CsiCalls(handlers[..n], params), [CsiFallback(ident, params)], log,
                   AskCsi(env, handlers, n, ident, params, log))
  {
    var rest := [CsiFallback(ident, params)];
    if n == 0 {
      assert CsiCalls(handlers[..0], params) == [];
      NoneInTurn(env, rest, log);
    } else {
      var call, calls := CsiCall(handlers[n - 1], params), CsiCalls(handlers[..n - 1], params);
      assert CsiCalls(handlers[..n], params) == [call] + calls;
      if env.accepts(log, call) {
        AcceptedInTurn(env, [call] + calls, rest, log);
      } else {
        CsiInTurn(env, handlers, n - 1, ident, params, log + [call]);
        RefusedInTurn(env, call, calls, rest, log, AskCsi(env, handlers, n, ident, params, log));
      }
    }
  }

  lemma {:induction false} EscInTurn(env: Env, handlers: seq<Handler>, n: nat, ident: int, log: seq<Event>)
    requires n <= |handlers|
    ensures InTurn(env, EscCalls(handlers[..n]), [EscFallback(ident)], log, AskEsc(env, handlers, n, ident, log))
  {
    var rest := [EscFallback(ident)];
    if n == 0 {
      assert EscCalls(handlers[..0]) == [];
      NoneInTurn(env, rest, log);
    } else {
      var call, calls := EscCall(handlers[n - 1]), EscCalls(handlers[..n - 1]);
      assert EscCalls(handlers[..n]) == [call] + calls;
      if env.accepts(log, call) {
        AcceptedInTurn(env, [call] + calls, rest, log);
      } else {
        EscInTurn(env, handlers, n - 1, ident, log + [call]);
        RefusedInTurn(env, call, calls, rest, log, AskEsc(env, handlers, n, ident, log));
      }
    }
  }

  /** What handlers that have just begun have collected of a text. */
  lemma CollectedAt(handlers: seq<Handler>, active: seq<Collector>, text: seq<Unit>, i: nat)
    requires active == CollectAll(FreshCollectors(handlers), text) && i < |handlers|
    ensures |active| == |handlers|
    ensures active[i] == if |text| > PAYLOAD_LIMIT then Collector(handlers[i], [], true)
                         else Collector(handlers[i], text, false)
  {
    assert [] + text == text;
  }

  lemma {:induction false} OscPassedOver(env: Env, active: seq<Collector>, n: nat, log: seq<Event>)
    requires n <= |active| && forall i :: 0 <= i < |active| ==> active[i].hitLimit
    ensures OP.Ask(env, active, n, log) == log
  {
    if n > 0 {
      OscPassedOver(env, active, n - 1, log);
    }
  }

  lemma {:induction false} DcsPassedOver(env: Env, params: PL.List, active: seq<Collector>, n: nat, log: seq<Event>)
    requires n <= |active| && forall i :: 0 <= i < |active| ==> active[i].hitLimit
    ensures DP.Ask(env, params, active, n, log) == log
  {
    if n > 0 {
      DcsPassedOver(env, params, active, n - 1, log);
    }
  }

  lemma {:induction false} OscInTurn(env: Env, handlers: seq<Handler>, active: seq<Collector>, n: nat,
                                     text: seq<Unit>, log: seq<Event>)
    requires n <= |handlers| == |active|
    requires forall i :: 0 <= i < |active| ==> active[i] == Collector(handlers[i], text, false)
    ensures InTurn(env, OscCalls(handlers[..n], text), [], log, OP.Ask(env, active, n, log))
  {
    if n == 0 {
      assert OscCalls(handlers[..0], text) == [];
      NoneInTurn(env, [], log);
      assert log + [] == log;
    } else {
      var call, calls := OscCall(handlers[n - 1], text), OscCalls(handlers[..n - 1], text);
      assert OscCalls(handlers[..n], text) == [call] + calls;
      if env.accepts(log, call) {
        AcceptedInTurn(env, [call] + calls, [], log);
      } else {
        OscInTurn(env, handlers, active, n - 1, text, log + [call]);
        RefusedInTurn(env, call, calls, [], log, OP.Ask(env, active, n, log));
      }
    }
  }

  lemma {:induction false} DcsInTurn(env: Env, params: PL.List, handlers: seq<Handler>, active: seq<Collector>, n: nat,
                                     text: seq<Unit>, log: seq<Event>)
    requires n <= |handlers| == |active|
    requires forall i :: 0 <= i < |active| ==> active[i] == Collector(handlers[i], text, false)
    ensures InTurn(env, DcsCalls(handlers[..n], text, params), [], log, DP.Ask(env, params, active, n, log))
  {
    if n == 0 {
      assert DcsCalls(handlers[..0], text, params) == [];
      NoneInTurn(env, [], log);
      assert log + [] == log;
    } else {
      var call, calls := DcsCall(handlers[n - 1], text, params), DcsCalls(handlers[..n - 1], text, params);
      assert DcsCalls(handlers[..n], text, params) == [call] + calls;
      if env.accepts(log, call) {
        AcceptedInTurn(env, [call] + calls, [], log);
      } else {
        DcsInTurn(env, params, handlers, active, n - 1, text, log + [call]);
        RefusedInTurn(env, call, calls, [], log, DP.Ask(env, params, active, n, log));
      }
    }
  }

  // ---------------------------------------------------------------- one code point at a time

  lemma Takes(env: Env, k: Cursor, c: Code, rest: seq<Code>, k': Cursor)
    requires Valid(k.machine) && k' == Advance(env, k, c)
    ensures Feed(env, k, [c] + rest) == Feed(env, k', rest)
  {
    FeedOne(env, k, c);
    FeedConcat(env, k, [c], rest);
  }

  /** A sequence begins with a C1 control, anywhere, or with ESC and a second byte, which ends whatever
      was being parsed, unless that is a control string. */
  predicate Introduces(state: nat, intro: seq<Code>, second: Code, control: Code) {
    intro == [control] || (intro == [ESC, second] && state != OSC_STRING && state != DCS_PASSTHROUGH)
  }

  /** What ESC leaves: one parameter of value zero, and nothing collected. */
  function Afresh(m: Machine, state: nat): Machine
    requires Valid(m)
  {
    m.(state := state, collect := 0, params := PL.AddParam(PL.Reset(m.params), 0))
  }

  lemma Escapes(env: Env, k: Cursor)
    requires Valid(k.machine) && k.machine.state != OSC_STRING && k.machine.state != DCS_PASSTHROUGH
    ensures Advance(env, k, ESC) == Cursor(Afresh(k.machine, ESCAPE), false)
  {
    EscapeEntry(k.machine.state);
    Acts(env, k, ESC, Transition(CLEAR, ESCAPE), Afresh(k.machine, k.machine.state));
  }

  lemma EscapeEntry(state: nat)
    requires state < STATES && state != OSC_STRING && state != DCS_PASSTHROUGH
    ensures EntryFor(state, ESC) == Transition(CLEAR, ESCAPE)
  {
  }

  /** CSI and DCS, in either form. */
  lemma Begins(env: Env, m: Machine, intro: seq<Code>, entry: nat, rest: seq<Code>, k: Cursor)
    requires Valid(m) && (entry == CSI_ENTRY || entry == DCS_ENTRY) && k == Cursor(Afresh(m, entry), false)
    requires if entry == CSI_ENTRY then Introduces(m.state, intro, 91, 155) else Introduces(m.state, intro, 80, 144)
    ensures Valid(k.machine) && Feed(env, Cursor(m, false), intro + rest) == Feed(env, k, rest)
  {
    if |intro| == 1 {
      BeginsAtOnce(env, Cursor(m, false), intro[0], entry);
      assert intro == [intro[0]];
      Takes(env, Cursor(m, false), intro[0], rest, k);
    } else {
      assert intro + rest == [ESC] + ([intro[1]] + rest);
      BeginsInTwo(env, Cursor(m, false), Cursor(Afresh(m, ESCAPE), false), intro[1], entry, rest, k);
    }
  }

  lemma BeginsInTwo(env: Env, k0: Cursor, k1: Cursor, c: Code, entry: nat, rest: seq<Code>, k: Cursor)
    requires Valid(k0.machine) && k0.machine.state != OSC_STRING && k0.machine.state != DCS_PASSTHROUGH && !k0.inPut
    requires k1 == Cursor(Afresh(k0.machine, ESCAPE), false) && k == Cursor(Afresh(k0.machine, entry), false)
    requires (c == 91 && entry == CSI_ENTRY) || (c == 80 && entry == DCS_ENTRY)
    ensures Valid(k.machine) && Feed(env, k0, [ESC] + ([c] + rest)) == Feed(env, k, rest)
  {
    Escapes(env, k0);
    BeginsThen(env, k1, c, entry);
    Takes(env, k0, ESC, [c] + rest, k1);
    Takes(env, k1, c, rest, k);
  }

  lemma BeginsAtOnce(env: Env, k: Cursor, c: Code, entry: nat)
    requires Valid(k.machine) && !k.inPut
    requires (c == 155 && entry == CSI_ENTRY) || (c == 144 && entry == DCS_ENTRY)
    ensures Advance(env, k, c) == Cursor(Afresh(k.machine, entry), false)
  {
    ControlEntry(k.machine.state, c, entry);
    Acts(env, k, c, Transition(CLEAR, entry), Afresh(k.machine, k.machine.state));
  }

  lemma ControlEntry(state: nat, c: Code, entry: nat)
    requires state < STATES && ((c == 155 && entry == CSI_ENTRY) || (c == 144 && entry == DCS_ENTRY))
    ensures EntryFor(state, c) == Transition(CLEAR, entry)
  {
  }

  lemma BeginsThen(env: Env, k: Cursor, c: Code, entry: nat)
    requires Valid(k.machine) && k.machine.state == ESCAPE
    requires (c == 91 && entry == CSI_ENTRY) || (c == 80 && entry == DCS_ENTRY)
    ensures Advance(env, k, c) == Cursor(Afresh(k.machine, entry), false)
  {
  }

  // ---------------------------------------------------------------- parameters

  /** The text of a parameter list, without the `;` that the store writes before the first parameter. */
  function ParamText(items: seq<PL.Param>): seq<PL.Byte>
    requires PL.Writable(items)
  {
    if items == [] then []
    else
      WriteBegins(items);
      PL.Write(items)[1..]
  }

  lemma {:induction false} WriteBegins(items: seq<PL.Param>)
    requires PL.Writable(items) && items != []
    ensures |PL.Write(items)| > 1 && PL.Write(items)[0] == 59
  {
    var n := |items| - 1;
    if n > 0 {
      WriteBegins(items[..n]);
    } else {
      assert items[..n] == [];
    }
  }

  /** Where nothing is written, there is one parameter of value zero. */
  function Given(written: seq<PL.Param>): seq<PL.Param> {
    if written == [] then [PL.Param(0, [])] else written
  }

  /** The store after a sequence with these parameters. */
  function Store(p: PL.List, written: seq<PL.Param>): (r: PL.List)
    requires PL.Valid(p) && PL.Writable(written)
    ensures PL.Valid(r)
  {
    PL.FeedAll(PL.AddParam(PL.Reset(p), 0), ParamText(written))
  }

  /** It holds what was written, as far as that fits. */
  lemma StoreHolds(p: PL.List, written: seq<PL.Param>)
    requires PL.Valid(p) && PL.Writable(written)
    ensures var r := Store(p, written);
            && r.items == PL.Kept(Given(written), p.maxLength, p.maxSubs)
            && r.maxLength == p.maxLength && r.maxSubs == p.maxSubs
  {
    var q, text := PL.Reset(p), ParamText(written);
    if written == [] {
      var zero := PL.Param(0, []);
      PL.KeptMore([], zero, [zero], p.maxLength, p.maxSubs);
    } else {
      WriteBegins(written);
      assert PL.Write(written) == [59] + text;
      BeginsAfterSeparator(q, text);
      PL.ReadsWhatFits(q, written);
    }
  }

  lemma BeginsAfterSeparator(q: PL.List, text: seq<PL.Byte>)
    requires PL.Valid(q)
    ensures PL.FeedAll(q, [59] + text) == PL.FeedAll(PL.AddParam(q, 0), text)
  {
    assert [59][..0] == [];
    assert PL.FeedAll(q, [59]) == PL.AddParam(q, 0);
    PL.FeedAllConcat(q, [59], text);
  }

  // ---------------------------------------------------------------- headers

  function AfterMarks(state: nat): nat {
    if state == CSI_ENTRY || state == CSI_PARAM || state == CSI_INTERMEDIATE then CSI_INTERMEDIATE
    else if state == ESCAPE || state == ESCAPE_INTERMEDIATE then ESCAPE_INTERMEDIATE
    else DCS_INTERMEDIATE
  }

  predicate TakesMarks(state: nat) {
    TakesParams(state) || state == CSI_INTERMEDIATE || state == DCS_INTERMEDIATE || state == ESCAPE
    || state == ESCAPE_INTERMEDIATE
  }

  lemma GathersPrefix(env: Env, k: Cursor, prefix: seq<Code>)
    requires Valid(k.machine) && (k.machine.state == CSI_ENTRY || k.machine.state == DCS_ENTRY)
    requires !k.inPut && k.machine.collect == 0 && ArePrefix(prefix)
    ensures Feed(env, k, prefix)
            == Cursor(k.machine.(state := if prefix == [] then k.machine.state else AfterParams(k.machine.state),
                                 collect := Ident(prefix)), false)
  {
    if prefix != [] {
      assert prefix == [prefix[0]];
      IdentOne(prefix[0]);
      FeedOne(env, k, prefix[0]);
    }
  }

  lemma AdvanceMark(env: Env, k: Cursor, c: Code, seen: seq<Code>, k': Cursor)
    requires Valid(k.machine) && TakesMarks(k.machine.state) && 32 <= c <= 47 && k.machine.collect == Ident(seen)
    requires k' == Cursor(k.machine.(state := AfterMarks(k.machine.state), collect := Ident(seen + [c])), false)
    ensures Advance(env, k, c) == k'
  {
    Collects(seen, c);
  }

  function Marked(k: Cursor, seen: seq<Code>, marks: seq<Code>): Cursor {
    Cursor(k.machine.(state := if marks == [] then k.machine.state else AfterMarks(k.machine.state),
                      collect := Ident(seen + marks)), false)
  }

  lemma {:induction false} GathersMarks(env: Env, k: Cursor, seen: seq<Code>, marks: seq<Code>, k': Cursor)
    requires Valid(k.machine) && TakesMarks(k.machine.state) && !k.inPut && k.machine.collect == Ident(seen)
    requires AreMarks(marks) && k' == Marked(k, seen, marks)
    ensures Feed(env, k, marks) == k'
  {
    if marks == [] {
      assert seen + [] == seen;
    } else {
      var n := |marks| - 1;
      var front, c := marks[..n], marks[n];
      var k1 := Marked(k, seen, front);
      assert marks == front + [c];
      GathersMarks(env, k, seen, front, k1);
      MarkMore(k, seen, front, c, marks, k1, k');
      AdvanceMark(env, k1, c, seen + front, k');
      FeedLast(env, k, marks, k1, c);
    }
  }

  lemma MarkMore(k: Cursor, seen: seq<Code>, front: seq<Code>, c: Code, marks: seq<Code>, k1: Cursor, k': Cursor)
    requires TakesMarks(k.machine.state) && marks == front + [c] && k1 == Marked(k, seen, front)
    requires k' == Marked(k, seen, marks)
    ensures TakesMarks(k1.machine.state) && k1.machine.collect == Ident(seen + front)
    ensures k'
            == Cursor(k1.machine.(state := AfterMarks(k1.machine.state), collect := Ident(seen + front + [c])), false)
  {
    assert seen + marks == seen + front + [c];
  }

  /** The machine before the final byte of a control sequence, or of what introduces a device control string. */
  function Gathered(m: Machine, entry: nat, h: Header, written: seq<PL.Param>): Machine
    requires Valid(m) && PL.Writable(written)
  {
    m.(state := if h.marks != [] then AfterMarks(entry)
                else if h.prefix != [] || written != [] then AfterParams(entry)
                else entry,
       collect := Ident(h.prefix + h.marks),
       params := Store(m.params, written))
  }

  /** Prefix, parameters and intermediate bytes. */
  function Opening(h: Header, written: seq<PL.Param>): seq<Code>
    requires PL.Writable(written)
  {
    h.prefix + (ParamText(written) + h.marks)
  }

  lemma Gathers(env: Env, m: Machine, entry: nat, h: Header, written: seq<PL.Param>, k: Cursor, k': Cursor)
    requires Valid(m) && (entry == CSI_ENTRY || entry == DCS_ENTRY) && IsHeader(h, 64) && PL.Writable(written)
    requires k == Cursor(Afresh(m, entry), false) && k' == Cursor(Gathered(m, entry, h, written), false)
    ensures Valid(k'.machine) && Feed(env, k, Opening(h, written)) == k'
  {
    var state := if h.prefix == [] then entry else AfterParams(entry);
    var k1 := Cursor(Afresh(m, state).(collect := Ident(h.prefix)), false);
    BeginsPrefixed(env, m, entry, h.prefix, k, k1);
    GathersAfter(env, m, entry, h, written, k1, k');
    Chains(env, k, h.prefix, k1, ParamText(written) + h.marks, k');
  }

  lemma BeginsPrefixed(env: Env, m: Machine, entry: nat, prefix: seq<Code>, k: Cursor, k1: Cursor)
    requires Valid(m) && (entry == CSI_ENTRY || entry == DCS_ENTRY) && ArePrefix(prefix)
    requires k == Cursor(Afresh(m, entry), false)
    requires k1 == Cursor(Afresh(m, if prefix == [] then entry else AfterParams(entry))
                          .(collect := Ident(prefix)), false)
    ensures Valid(k1.machine) && Feed(env, k, prefix) == k1
  {
    GathersPrefix(env, k, prefix);
  }

  lemma Chains(env: Env, k: Cursor, a: seq<Code>, k1: Cursor, b: seq<Code>, k2: Cursor)
    requires Valid(k.machine) && Feed(env, k, a) == k1 && Feed(env, k1, b) == k2
    ensures Feed(env, k, a + b) == k2
  {
    FeedConcat(env, k, a, b);
  }

  lemma GathersAfter(env: Env, m: Machine, entry: nat, h: Header, written: seq<PL.Param>, k1: Cursor, k': Cursor)
    requires Valid(m) && (entry == CSI_ENTRY || entry == DCS_ENTRY) && IsHeader(h, 64) && PL.Writable(written)
    requires k' == Cursor(Gathered(m, entry, h, written), false)
    requires k1 == Cursor(Afresh(m, if h.prefix == [] then entry else AfterParams(entry))
                          .(collect := Ident(h.prefix)), false)
    ensures Valid(k1.machine) && Valid(k'.machine) && Feed(env, k1, ParamText(written) + h.marks) == k'
  {
    var state := if h.prefix == [] then entry else AfterParams(entry);
    var k2 := Cursor(k1.machine.(state := if written != [] then AfterParams(state) else state,
                                 params := Store(m.params, written)), false);
    GathersRest(env, k1, PL.Reset(m.params), h.prefix, written, ParamText(written), h.marks, k2);
    GatheredIs(m, entry, h, written, k2, k');
  }

  lemma GatheredIs(m: Machine, entry: nat, h: Header, written: seq<PL.Param>, k: Cursor, k': Cursor)
    requires Valid(m) && PL.Writable(written) && (entry == CSI_ENTRY || entry == DCS_ENTRY)
    requires k' == Cursor(Gathered(m, entry, h, written), false)
    requires k.machine.state == if h.prefix == [] && written == [] then entry else AfterParams(entry)
    requires k.machine == m.(state := k.machine.state, collect := k.machine.collect,
                             params := Store(m.params, written))
    ensures k' == Marked(k, h.prefix, h.marks)
  {
    SameAfterMarks(entry);
    if h.marks == [] {
      assert k'.machine.state == k.machine.state;
    } else {
      assert k'.machine.state == AfterMarks(k.machine.state);
    }
  }

  lemma SameAfterMarks(entry: nat)
    requires entry == CSI_ENTRY || entry == DCS_ENTRY
    ensures AfterMarks(AfterParams(entry)) == AfterMarks(entry)
  {
  }

  lemma GathersRest(env: Env, k: Cursor, q: PL.List, prefix: seq<Code>, written: seq<PL.Param>, text: seq<PL.Byte>,
                    marks: seq<Code>, k': Cursor)
    requires Valid(k.machine) && TakesParams(k.machine.state) && !k.inPut && k.machine.collect == Ident(prefix)
    requires PL.Valid(q) && q == PL.Reset(q) && k.machine.params == PL.AddParam(q, 0)
    requires PL.Writable(written) && text == ParamText(written) && AreMarks(marks)
    requires k' == Cursor(k.machine.(state := if written != [] then AfterParams(k.machine.state) else k.machine.state,
                                     params := Store(q, written)), false)
    ensures Valid(k'.machine) && Feed(env, k, text + marks) == Marked(k', prefix, marks)
  {
    GathersParams(env, k, q, written, text, k');
    FeedConcat(env, k, text, marks);
    GathersMarks(env, k', prefix, marks, Marked(k', prefix, marks));
  }

  lemma GathersParams(env: Env, k: Cursor, q: PL.List, written: seq<PL.Param>, text: seq<PL.Byte>, k': Cursor)
    requires Valid(k.machine) && TakesParams(k.machine.state) && !k.inPut
    requires PL.Valid(q) && q == PL.Reset(q) && k.machine.params == PL.AddParam(q, 0)
    requires PL.Writable(written) && text == ParamText(written)
    requires k' == Cursor(k.machine.(state := if written != [] then AfterParams(k.machine.state) else k.machine.state,
                                     params := Store(q, written)), false)
    ensures Valid(k'.machine) && Feed(env, k, text) == k'
  {
    if written != [] {
      WriteBegins(written);
      FeedParams(env, k, text);
    }
  }

  // ---------------------------------------------------------------- control sequences

  lemma DispatchesCsi(env: Env, k: Cursor, seen: seq<Code>, c: Code)
    requires Valid(k.machine) && 64 <= c <= 126 && k.machine.collect == Ident(seen)
    requires k.machine.state == CSI_ENTRY || k.machine.state == CSI_PARAM || k.machine.state == CSI_INTERMEDIATE
    ensures Advance(env, k, c) == Cursor(DispatchCsi(env, k.machine, Ident(seen + [c])).(state := GROUND), false)
  {
    Collects(seen, c);
    CsiEntry(k.machine.state, c);
    Acts(env, k, c, Transition(CSI_DISPATCH, GROUND), DispatchCsi(env, k.machine, Ident(seen + [c])));
  }

  lemma CsiEntry(state: nat, c: Code)
    requires 64 <= c <= 126 && (state == CSI_ENTRY || state == CSI_PARAM || state == CSI_INTERMEDIATE)
    ensures EntryFor(state, c) == Transition(CSI_DISPATCH, GROUND)
  {
  }

  /** A control sequence with any prefix, parameters and intermediate bytes: the handlers registered for
      prefix, intermediates and final byte are asked in turn, the last one first, with the parameters as
      written, and the fallback is told where none accepts. */
  lemma CsiDelivered(env: Env, m: Machine, intro: seq<Code>, h: Header, written: seq<PL.Param>)
    requires Valid(m) && Introduces(m.state, intro, 91, 155) && IsHeader(h, 64) && PL.Writable(written)
    ensures var ident, params := Ident(Bytes(h)), Store(m.params, written);
            var end := Parsed(env, m, intro + (Opening(h, written) + [h.final]));
            && params.items == PL.Kept(Given(written), m.params.maxLength, m.params.maxSubs)
            && end == m.(state := GROUND, collect := Ident(h.prefix + h.marks), params := params, log := end.log)
            && InTurn(env, CsiCalls(Registered(env.csi, ident), params), [CsiFallback(ident, params)], m.log, end.log)
  {
    StoreHolds(m.params, written);
    var k, k' := Cursor(Afresh(m, CSI_ENTRY), false), Cursor(Gathered(m, CSI_ENTRY, h, written), false);
    Begins(env, m, intro, CSI_ENTRY, Opening(h, written) + [h.final], k);
    Gathers(env, m, CSI_ENTRY, h, written, k, k');
    FeedConcat(env, k, Opening(h, written), [h.final]);
    CsiFrom(env, k', h.prefix + h.marks, h.final, Ident(Bytes(h)));
  }

  lemma CsiFrom(env: Env, k: Cursor, seen: seq<Code>, c: Code, ident: int)
    requires Valid(k.machine) && 64 <= c <= 126 && k.machine.collect == Ident(seen) && ident == Ident(seen + [c])
    requires k.machine.state == CSI_ENTRY || k.machine.state == CSI_PARAM || k.machine.state == CSI_INTERMEDIATE
    ensures var end := Feed(env, k, [c]).machine;
            && end == k.machine.(state := GROUND, log := end.log)
            && InTurn(env, CsiCalls(Registered(env.csi, ident), k.machine.params),
                      [CsiFallback(ident, k.machine.params)], k.machine.log, end.log)
  {
    FeedOne(env, k, c);
    DispatchesCsi(env, k, seen, c);
    var handlers := Registered(env.csi, ident);
    assert handlers[..|handlers|] == handlers;
    CsiInTurn(env, handlers, |handlers|, ident, k.machine.params, k.machine.log);
  }

  // ---------------------------------------------------------------- escape sequences

  /** What may follow ESC and intermediate bytes; without those, some bytes begin something longer. */
  predicate EndsEscape(marks: seq<Code>, c: Code) {
    48 <= c <= 126 && (marks == [] ==> c != 80 && c != 88 && c != 91 && c != 93 && c != 94 && c != 95)
  }

  lemma DispatchesEsc(env: Env, k: Cursor, seen: seq<Code>, c: Code)
    requires Valid(k.machine) && EndsEscape(seen, c) && k.machine.collect == Ident(seen)
    requires k.machine.state == if seen == [] then ESCAPE else ESCAPE_INTERMEDIATE
    ensures Advance(env, k, c) == Cursor(DispatchEsc(env, k.machine, Ident(seen + [c])).(state := GROUND), false)
  {
    Collects(seen, c);
  }

  /** The same for an escape sequence. */
  lemma EscDelivered(env: Env, m: Machine, marks: seq<Code>, final: Code)
    requires Valid(m) && m.state != OSC_STRING && m.state != DCS_PASSTHROUGH
    requires AreMarks(marks) && EndsEscape(marks, final)
    ensures var ident := Ident(marks + [final]);
            var end := Parsed(env, m, [ESC] + (marks + [final]));
            && end == Afresh(m, GROUND).(collect := Ident(marks), log := end.log)
            && InTurn(env, EscCalls(Registered(env.esc, ident)), [EscFallback(ident)], m.log, end.log)
  {
    var k := Cursor(Afresh(m, ESCAPE), false);
    Escapes(env, Cursor(m, false));
    Takes(env, Cursor(m, false), ESC, marks + [final], k);
    EscEnds(env, k, marks, final);
    var handlers := Registered(env.esc, Ident(marks + [final]));
    assert handlers[..|handlers|] == handlers;
    EscInTurn(env, handlers, |handlers|, Ident(marks + [final]), m.log);
  }

  lemma EscEnds(env: Env, k: Cursor, marks: seq<Code>, final: Code)
    requires Valid(k.machine) && k.machine.state == ESCAPE && !k.inPut && k.machine.collect == 0
    requires AreMarks(marks) && EndsEscape(marks, final)
    ensures Feed(env, k, marks + [final]).machine
            == DispatchEsc(env, k.machine.(collect := Ident(marks)), Ident(marks + [final])).(state := GROUND)
  {
    var k' := Cursor(k.machine.(state := if marks == [] then ESCAPE else ESCAPE_INTERMEDIATE,
                                collect := Ident(marks)), false);
    assert [] + marks == marks;
    GathersMarks(env, k, [], marks, k');
    FeedConcat(env, k, marks, [final]);
    FeedOne(env, k', final);
    DispatchesEsc(env, k', marks, final);
  }

  // ---------------------------------------------------------------- device control strings

  /** What a handler of device control strings is given: a lone zero counts as no parameters. */
  function HookedWith(params: PL.List): PL.List {
    if |params.items| > 1 || (|params.items| == 1 && params.items[0].value != 0) then params
    else PL.List(32, 32, [PL.Param(0, [])], false, false, false)
  }

  /** What is reported of a device control string: handlers are offered its text at the end, unless it
      is too long or was aborted; where there are none, the fallback hears of every part. */
  ghost predicate DcsHeard(env: Env, ident: int, params: PL.List, text: seq<Unit>, end: Code, before: seq<Event>,
                           after: seq<Event>)
  {
    var handlers := Registered(env.dcs, ident);
    if handlers == [] then
      after == before + [DcsHook(ident, params)]
               + seq(|text|, i requires 0 <= i < |text| => DcsData(ident, [text[i]]))
               + [DcsUnhook(ident, end != 24 && end != 26)]
    else if end == 24 || end == 26 || |text| > PAYLOAD_LIMIT then after == before
    else InTurn(env, DcsCalls(handlers, text, HookedWith(params)), [], before, after)
  }

  lemma HooksDcs(env: Env, k: Cursor, seen: seq<Code>, c: Code)
    requires Valid(k.machine) && 64 <= c <= 126 && k.machine.collect == Ident(seen)
    requires k.machine.state == DCS_ENTRY || k.machine.state == DCS_PARAM || k.machine.state == DCS_INTERMEDIATE
    ensures Advance(env, k, c)
            == Cursor(WithDcs(k.machine, DP.HookRun(env, DP.Run(k.machine.dcs, k.machine.log), Ident(seen + [c]),
                                                    k.machine.params)).(state := DCS_PASSTHROUGH), false)
  {
    Collects(seen, c);
    HookEntry(k.machine.state, c);
    Acts(env, k, c, Transition(DCS_HOOK, DCS_PASSTHROUGH), HookDcs(env, k.machine, c));
  }

  lemma HookEntry(state: nat, c: Code)
    requires 64 <= c <= 126 && (state == DCS_ENTRY || state == DCS_PARAM || state == DCS_INTERMEDIATE)
    ensures EntryFor(state, c) == Transition(DCS_HOOK, DCS_PASSTHROUGH)
  {
  }

  predicate EndsString(c: Code) { c == 24 || c == 26 || c == ESC || c == 156 }

  lemma UnhooksDcs(env: Env, k: Cursor, c: Code)
    requires Valid(k.machine) && k.machine.state == DCS_PASSTHROUGH && EndsString(c)
    ensures Advance(env, k, c).machine == UnhookDcs(env, k.machine, c).(state := if c == ESC then ESCAPE else GROUND)
  {
    UnhookEntry(c);
    UnhooksFrom(env, k, c, Transition(DCS_UNHOOK, GROUND));
  }

  lemma UnhookEntry(c: Code)
    requires EndsString(c)
    ensures EntryFor(DCS_PASSTHROUGH, c) == Transition(DCS_UNHOOK, GROUND)
  {
  }

  lemma UnhooksFrom(env: Env, k: Cursor, c: Code, t: Transition)
    requires Valid(k.machine) && c != DEL && t == EntryFor(k.machine.state, c) && t == Transition(DCS_UNHOOK, GROUND)
    ensures Advance(env, k, c).machine == UnhookDcs(env, k.machine, c).(state := if c == ESC then ESCAPE else GROUND)
  {
  }

  /** The payload and the end. */
  lemma DcsEnds(env: Env, k: Cursor, text: seq<Code>, end: Code, r: DP.Run)
    requires Valid(k.machine) && k.machine.state == DCS_PASSTHROUGH && !k.inPut && EndsString(end)
    requires (text != [] ==> text[0] != DEL) && forall i :: 0 <= i < |text| ==> DcsReadsOn(text[i])
    requires r == DP.PutAll(DP.Run(k.machine.dcs, k.machine.log), text)
    ensures var m := Feed(env, k, text + [end]).machine;
            && m.state == (if end == ESC then ESCAPE else GROUND)
            && DP.Run(m.dcs, m.log) == DP.UnhookRun(env, r, end != 24 && end != 26)
  {
    var k' := Feed(env, k, text);
    if text != [] {
      FeedDcsPut(env, k, text);
    }
    FeedConcat(env, k, text, [end]);
    FeedOne(env, k', end);
    UnhooksDcs(env, k', end);
    assert DP.Run(r.dcs, r.log) == r;
  }

  /** What the string takes of a text: a DEL is ignored at the beginning, and later it is not. */
  function Payload(text: seq<Code>): seq<Code> {
    if text != [] && text[0] == DEL then Payload(text[1..]) else text
  }

  lemma {:induction false} DcsTakes(env: Env, k: Cursor, text: seq<Code>, end: Code, r: DP.Run)
    requires Valid(k.machine) && k.machine.state == DCS_PASSTHROUGH && !k.inPut && EndsString(end)
    requires forall i :: 0 <= i < |text| ==> DcsReadsOn(text[i])
    requires r == DP.PutAll(DP.Run(k.machine.dcs, k.machine.log), Payload(text))
    ensures var m := Feed(env, k, text + [end]).machine;
            && m.state == (if end == ESC then ESCAPE else GROUND)
            && DP.Run(m.dcs, m.log) == DP.UnhookRun(env, r, end != 24 && end != 26)
    decreases |text|
  {
    if text != [] && text[0] == DEL {
      IgnoresDel(env, k);
      assert text + [end] == [DEL] + (text[1..] + [end]);
      Takes(env, k, DEL, text[1..] + [end], k);
      DcsTakes(env, k, text[1..], end, r);
    } else {
      DcsEnds(env, k, text, end, r);
    }
  }

  lemma IgnoresDel(env: Env, k: Cursor)
    requires Valid(k.machine) && k.machine.state == DCS_PASSTHROUGH && !k.inPut
    ensures Advance(env, k, DEL) == k
  {
    assert EntryFor(DCS_PASSTHROUGH, DEL) == Transition(IGNORE, DCS_PASSTHROUGH);
    Acts(env, k, DEL, Transition(IGNORE, DCS_PASSTHROUGH), k.machine);
  }

  lemma HearsDcs(env: Env, r: DP.Run, ident: int, params: PL.List, codes: seq<Code>, end: Code, hooked: DP.Run)
    requires hooked == DP.HookRun(env, r, ident, params)
    ensures var after := DP.UnhookRun(env, DP.PutAll(hooked, codes), end != 24 && end != 26);
            after.dcs == DP.INITIAL && DcsHeard(env, ident, params, Units(codes), end, r.log, after.log)
  {
    var handlers, text := Registered(env.dcs, ident), Units(codes);
    PutsDcs(hooked, handlers, codes, text);
    if handlers != [] {
      var active := CollectAll(FreshCollectors(handlers), text);
      forall i | 0 <= i < |handlers|
        ensures active[i] == if |text| > PAYLOAD_LIMIT then Collector(handlers[i], [], true)
                             else Collector(handlers[i], text, false)
      {
        CollectedAt(handlers, active, text, i);
      }
      assert handlers[..|handlers|] == handlers;
      if |text| > PAYLOAD_LIMIT {
        DcsPassedOver(env, HookedWith(params), active, |handlers|, r.log);
      } else {
        DcsInTurn(env, HookedWith(params), handlers, active, |handlers|, text, r.log);
      }
    }
  }

  lemma PutsDcs(hooked: DP.Run, handlers: seq<Handler>, codes: seq<Code>, text: seq<Unit>)
    requires text == Units(codes) && hooked.dcs.active == FreshCollectors(handlers)
    ensures DP.PutAll(hooked, codes)
            == if handlers != [] then hooked.(dcs := hooked.dcs.(active := CollectAll(hooked.dcs.active, text)))
               else hooked.(log := hooked.log + seq(|text|, i requires 0 <= i < |text| =>
                                                              DcsData(hooked.dcs.ident, [text[i]])))
  {
    var data := seq(|text|, i requires 0 <= i < |text| => DcsData(hooked.dcs.ident, [text[i]]));
    assert Split(DcsData(hooked.dcs.ident, text)) == data;
    if codes == [] {
      assert CollectAll(hooked.dcs.active, []) == hooked.dcs.active;
      assert hooked.log + data == hooked.log;
    } else {
      DP.PutSlice(hooked, codes);
    }
  }

  /** A device control string: it is hooked under the identifier of prefix, intermediates and final byte,
      with the parameters as written, and reported with its text when it ends, but for a DEL before all else. */
  lemma DcsDelivered(env: Env, m: Machine, intro: seq<Code>, h: Header, written: seq<PL.Param>, text: seq<Code>,
                     end: Code)
    requires Valid(m) && Introduces(m.state, intro, 80, 144) && IsHeader(h, 64) && PL.Writable(written)
    requires EndsString(end) && forall i :: 0 <= i < |text| ==> DcsReadsOn(text[i])
    ensures var ident, params := Ident(Bytes(h)), Store(m.params, written);
            var m' := Parsed(env, m, intro + (Opening(h, written) + ([h.final] + (text + [end]))));
            && params.items == PL.Kept(Given(written), m.params.maxLength, m.params.maxSubs)
            && m'.state == (if end == ESC then ESCAPE else GROUND) && m'.dcs == DP.INITIAL
            && DcsHeard(env, ident, params, Units(Payload(text)), end, m.log, m'.log)
  {
    StoreHolds(m.params, written);
    var k, k' := Cursor(Afresh(m, DCS_ENTRY), false), Cursor(Gathered(m, DCS_ENTRY, h, written), false);
    var rest := [h.final] + (text + [end]);
    Begins(env, m, intro, DCS_ENTRY, Opening(h, written) + rest, k);
    Gathers(env, m, DCS_ENTRY, h, written, k, k');
    GatheredForDcs(m, h, written, k'.machine);
    FeedConcat(env, k, Opening(h, written), rest);
    DcsFrom(env, k', h.prefix + h.marks, h.final, text, end);
  }

  lemma GatheredForDcs(m: Machine, h: Header, written: seq<PL.Param>, m': Machine)
    requires Valid(m) && PL.Writable(written) && m' == Gathered(m, DCS_ENTRY, h, written)
    ensures m'.state == DCS_ENTRY || m'.state == DCS_PARAM || m'.state == DCS_INTERMEDIATE
    ensures m'.collect == Ident(h.prefix + h.marks) && m'.log == m.log
  {
  }

  lemma DcsFrom(env: Env, k: Cursor, seen: seq<Code>, c: Code, text: seq<Code>, end: Code)
    requires Valid(k.machine) && !k.inPut && 64 <= c <= 126 && k.machine.collect == Ident(seen) && EndsString(end)
    requires k.machine.state == DCS_ENTRY || k.machine.state == DCS_PARAM || k.machine.state == DCS_INTERMEDIATE
    requires forall i :: 0 <= i < |text| ==> DcsReadsOn(text[i])
    ensures var m := Feed(env, k, [c] + (text + [end])).machine;
            && m.state == (if end == ESC then ESCAPE else GROUND) && m.dcs == DP.INITIAL
            && DcsHeard(env, Ident(seen + [c]), k.machine.params, Units(Payload(text)), end, k.machine.log, m.log)
  {
    var ident, r := Ident(seen + [c]), DP.Run(k.machine.dcs, k.machine.log);
    var hooked := DP.HookRun(env, r, ident, k.machine.params);
    var k' := Cursor(WithDcs(k.machine, hooked).(state := DCS_PASSTHROUGH), false);
    HooksDcs(env, k, seen, c);
    Takes(env, k, c, text + [end], k');
    assert DP.Run(k'.machine.dcs, k'.machine.log) == hooked;
    DcsTakes(env, k', text, end, DP.PutAll(hooked, Payload(text)));
    HearsDcs(env, r, ident, k.machine.params, Payload(text), end, hooked);
  }

  // ---------------------------------------------------------------- operating system commands

  /** What is reported of an operating system command; the same rules as for a device control string. */
  ghost predicate OscHeard(env: Env, id: int, text: seq<Unit>, end: Code, before: seq<Event>, after: seq<Event>) {
    var handlers := Registered(env.osc, id);
    if handlers == [] then
      after == before + [OscStart(id)] + seq(|text|, i requires 0 <= i < |text| => OscData(id, [text[i]]))
               + [OscEnd(id, end != 24 && end != 26)]
    else if end == 24 || end == 26 || |text| > PAYLOAD_LIMIT then after == before
    else InTurn(env, OscCalls(handlers, text), [], before, after)
  }

  lemma HearsOsc(env: Env, begun: OP.Run, id: int, codes: seq<Code>, end: Code, log: seq<Event>)
    requires begun == OP.Begin(env, OP.Run(OP.Osc(OP.Payload, id, []), log))
    ensures var after := OP.Finish(env, OP.PutAll(env, begun, codes), end != 24 && end != 26);
            after.osc == OP.INITIAL && OscHeard(env, id, Units(codes), end, log, after.log)
  {
    var handlers, text := Registered(env.osc, id), Units(codes);
    PutsOsc(env, begun, handlers, codes, text);
    if handlers != [] {
      var active := CollectAll(FreshCollectors(handlers), text);
      forall i | 0 <= i < |handlers|
        ensures active[i] == if |text| > PAYLOAD_LIMIT then Collector(handlers[i], [], true)
                             else Collector(handlers[i], text, false)
      {
        CollectedAt(handlers, active, text, i);
      }
      assert handlers[..|handlers|] == handlers;
      if |text| > PAYLOAD_LIMIT {
        OscPassedOver(env, active, |handlers|, log);
      } else {
        OscInTurn(env, handlers, active, |handlers|, text, log);
      }
    }
  }

  lemma PutsOsc(env: Env, begun: OP.Run, handlers: seq<Handler>, codes: seq<Code>, text: seq<Unit>)
    requires text == Units(codes) && begun.osc.active == FreshCollectors(handlers) && begun.osc.phase == OP.Payload
    ensures OP.PutAll(env, begun, codes)
            == if handlers != [] then begun.(osc := begun.osc.(active := CollectAll(begun.osc.active, text)))
               else begun.(log := begun.log + seq(|text|, i requires 0 <= i < |text| =>
                                                            OscData(begun.osc.id, [text[i]])))
  {
    var data := seq(|text|, i requires 0 <= i < |text| => OscData(begun.osc.id, [text[i]]));
    assert Split(OscData(begun.osc.id, text)) == data;
    if codes == [] {
      assert CollectAll(begun.osc.active, []) == begun.osc.active;
      assert begun.log + data == begun.log;
    } else {
      OP.PutSlice(env, begun, codes);
    }
  }

  /** The identifier that digits stand for; -1 is that of none. */
  function Identified(digits: seq<PL.Digit>): int { if digits == [] then -1 else PL.Decimal(digits) }

  lemma {:induction false} PutsDigits(env: Env, r: OP.Run, digits: seq<PL.Digit>, text: seq<Code>)
    requires r.osc == OP.INITIAL.(phase := OP.Ident) && text == PL.Ascii(digits)
    ensures OP.PutAll(env, r, text) == r.(osc := r.osc.(id := Identified(digits)))
  {
    if digits != [] {
      var n := |digits| - 1;
      var front := digits[..n];
      assert text[..n] == PL.Ascii(front) && text[n] == 48 + digits[n] as int;
      PutsDigits(env, r, front, text[..n]);
      assert PL.Decimal(digits) == 10 * PL.Decimal(front) + digits[n];
    }
  }

  /** OSC, in either form. */
  lemma OscBegins(env: Env, m: Machine, intro: seq<Code>, rest: seq<Code>) returns (k: Cursor)
    requires Valid(m) && Introduces(m.state, intro, 93, 157)
    ensures Valid(k.machine) && Feed(env, Cursor(m, false), intro + rest) == Feed(env, k, rest)
    ensures k.machine.state == OSC_STRING && k.machine.osc == OP.INITIAL.(phase := OP.Ident) && k.machine.log == m.log
  {
    if |intro| == 1 {
      k := Cursor(StartOsc(m).(state := OSC_STRING), false);
      EntersOsc(env, Cursor(m, false), 157);
      assert intro == [157];
      Takes(env, Cursor(m, false), 157, rest, k);
    } else {
      k := Cursor(StartOsc(Afresh(m, ESCAPE)).(state := OSC_STRING), false);
      assert intro + rest == [ESC] + ([93] + rest);
      OscBeginsInTwo(env, Cursor(m, false), Cursor(Afresh(m, ESCAPE), false), rest, k);
    }
  }

  lemma OscBeginsInTwo(env: Env, k0: Cursor, k1: Cursor, rest: seq<Code>, k: Cursor)
    requires Valid(k0.machine) && k0.machine.state != OSC_STRING && k0.machine.state != DCS_PASSTHROUGH && !k0.inPut
    requires k1 == Cursor(Afresh(k0.machine, ESCAPE), false)
    requires k == Cursor(StartOsc(k1.machine).(state := OSC_STRING), false)
    ensures Valid(k.machine) && Feed(env, k0, [ESC] + ([93] + rest)) == Feed(env, k, rest)
  {
    Escapes(env, k0);
    EntersOsc(env, k1, 93);
    Takes(env, k0, ESC, [93] + rest, k1);
    Takes(env, k1, 93, rest, k);
  }

  lemma EntersOsc(env: Env, k: Cursor, c: Code)
    requires Valid(k.machine) && !k.inPut && (c == 157 || (c == 93 && k.machine.state == ESCAPE))
    ensures Advance(env, k, c) == Cursor(StartOsc(k.machine).(state := OSC_STRING), false)
  {
    assert EntryFor(k.machine.state, c) == Transition(OSC_START, OSC_STRING);
    Acts(env, k, c, Transition(OSC_START, OSC_STRING), StartOsc(k.machine));
  }

  lemma EndsOsc(env: Env, k: Cursor, c: Code)
    requires Valid(k.machine) && k.machine.state == OSC_STRING && (c == 7 || EndsString(c))
    ensures Advance(env, k, c).machine == EndOsc(env, k.machine, c).(state := if c == ESC then ESCAPE else GROUND)
  {
    EndOscEntry(c);
    EndsOscFrom(env, k, c, Transition(OSC_END, GROUND));
  }

  lemma EndOscEntry(c: Code)
    requires c == 7 || EndsString(c)
    ensures EntryFor(OSC_STRING, c) == Transition(OSC_END, GROUND)
  {
  }

  lemma EndsOscFrom(env: Env, k: Cursor, c: Code, t: Transition)
    requires Valid(k.machine) && c != DEL && t == EntryFor(k.machine.state, c) && t == Transition(OSC_END, GROUND)
    ensures Advance(env, k, c).machine == EndOsc(env, k.machine, c).(state := if c == ESC then ESCAPE else GROUND)
  {
  }

  lemma OscEnds(env: Env, k: Cursor, content: seq<Code>, end: Code, r: OP.Run)
    requires Valid(k.machine) && k.machine.state == OSC_STRING && (end == 7 || EndsString(end))
    requires forall i :: 0 <= i < |content| ==> OscReadsOn(content[i])
    requires r == OP.PutAll(env, OP.Run(k.machine.osc, k.machine.log), content)
    ensures var m := Feed(env, k, content + [end]).machine;
            && m.state == (if end == ESC then ESCAPE else GROUND)
            && OP.Run(m.osc, m.log) == OP.Finish(env, r, end != 24 && end != 26)
  {
    var k' := Feed(env, k, content);
    if content != [] {
      FeedOscPut(env, k, content);
    }
    FeedConcat(env, k, content, [end]);
    FeedOne(env, k', end);
    EndsOsc(env, k', end);
    assert OP.Run(r.osc, r.log) == r;
  }

  /** A command is what its content is put into. */
  function Opened(log: seq<Event>): OP.Run { OP.Run(OP.INITIAL.(phase := OP.Ident), log) }

  predicate Closed(m: Machine, end: Code, r: OP.Run) {
    m.state == (if end == ESC then ESCAPE else GROUND) && OP.Run(m.osc, m.log) == r
  }

  lemma OscPasses(env: Env, m: Machine, intro: seq<Code>, content: seq<Code>, end: Code, r: OP.Run)
    requires Valid(m) && Introduces(m.state, intro, 93, 157) && (end == 7 || EndsString(end))
    requires forall i :: 0 <= i < |content| ==> OscReadsOn(content[i])
    requires r == OP.PutAll(env, Opened(m.log), content)
    ensures Closed(Parsed(env, m, intro + (content + [end])), end, OP.Finish(env, r, end != 24 && end != 26))
  {
    var k := OscBegins(env, m, intro, content + [end]);
    OscEnds(env, k, content, end, r);
  }

  /** An identifier, `;` and a text: the handlers of the identifier are offered exactly that text. */
  lemma OscDelivered(env: Env, m: Machine, intro: seq<Code>, digits: seq<PL.Digit>, text: seq<Code>, end: Code)
    requires Valid(m) && Introduces(m.state, intro, 93, 157) && (end == 7 || EndsString(end))
    requires forall i :: 0 <= i < |text| ==> OscReadsOn(text[i])
    ensures var m' := Parsed(env, m, intro + ((PL.Ascii(digits) + ([59] + text)) + [end]));
            && m'.state == (if end == ESC then ESCAPE else GROUND) && m'.osc == OP.INITIAL
            && OscHeard(env, Identified(digits), Units(text), end, m.log, m'.log)
  {
    var ident: seq<Code>, id := PL.Ascii(digits), Identified(digits);
    var begun := OP.Begin(env, OP.Run(OP.Osc(OP.Payload, id, []), m.log));
    PutsIdentifier(env, Opened(m.log), digits, ident, [59] + text);
    PutsText(env, Opened(m.log).(osc := OP.Osc(OP.Ident, id, [])), text, begun);
    OscPasses(env, m, intro, ident + ([59] + text), end, OP.PutAll(env, begun, text));
    HearsOsc(env, begun, id, text, end, m.log);
  }

  lemma PutsIdentifier(env: Env, r: OP.Run, digits: seq<PL.Digit>, ident: seq<Code>, rest: seq<Code>)
    requires r.osc == OP.INITIAL.(phase := OP.Ident) && ident == PL.Ascii(digits)
    ensures OP.PutAll(env, r, ident + rest)
            == OP.PutAll(env, r.(osc := OP.Osc(OP.Ident, Identified(digits), [])), rest)
  {
    PutsDigits(env, r, digits, ident);
    OP.PutAllConcat(env, r, ident, rest);
  }

  lemma PutsText(env: Env, named: OP.Run, text: seq<Code>, begun: OP.Run)
    requires named.osc.phase == OP.Ident && begun == OP.Begin(env, named.(osc := named.osc.(phase := OP.Payload)))
    ensures OP.PutAll(env, named, [59] + text) == OP.PutAll(env, begun, text)
  {
    assert [59][..0] == [];
    assert OP.PutAll(env, named, [59]) == begun;
    OP.PutAllConcat(env, named, [59], text);
  }

  /** Without `;` the text is empty. */
  lemma OscBare(env: Env, m: Machine, intro: seq<Code>, digits: seq<PL.Digit>, end: Code)
    requires Valid(m) && Introduces(m.state, intro, 93, 157) && (end == 7 || EndsString(end))
    ensures var m' := Parsed(env, m, intro + (PL.Ascii(digits) + [end]));
            && m'.state == (if end == ESC then ESCAPE else GROUND) && m'.osc == OP.INITIAL
            && OscHeard(env, Identified(digits), [], end, m.log, m'.log)
  {
    var id, named := Identified(digits), OP.Run(OP.Osc(OP.Ident, Identified(digits), []), m.log);
    PutsDigits(env, Opened(m.log), digits, PL.Ascii(digits));
    OscPasses(env, m, intro, PL.Ascii(digits), end, named);
    FinishesBare(env, named, OP.Begin(env, OP.Run(OP.Osc(OP.Payload, id, []), m.log)), end);
    HearsOsc(env, OP.Begin(env, OP.Run(OP.Osc(OP.Payload, id, []), m.log)), id, [], end, m.log);
  }

  lemma FinishesBare(env: Env, named: OP.Run, begun: OP.Run, end: Code)
    requires named.osc.phase == OP.Ident && begun == OP.Begin(env, named.(osc := named.osc.(phase := OP.Payload)))
    ensures OP.Finish(env, named, end != 24 && end != 26)
            == OP.Finish(env, OP.PutAll(env, begun, []), end != 24 && end != 26)
  {
  }

  /** An identifier that is no number: nothing is reported of the command. */
  lemma OscMalformed(env: Env, m: Machine, intro: seq<Code>, digits: seq<PL.Digit>, c: Code, rest: seq<Code>, end: Code)
    requires Valid(m) && Introduces(m.state, intro, 93, 157) && (end == 7 || EndsString(end))
    requires OscReadsOn(c) && (c < 48 || 57 < c) && c != 59 && forall i :: 0 <= i < |rest| ==> OscReadsOn(rest[i])
    ensures var m' := Parsed(env, m, intro + ((PL.Ascii(digits) + ([c] + rest)) + [end]));
            m'.state == (if end == ESC then ESCAPE else GROUND) && m'.osc == OP.INITIAL && m'.log == m.log
  {
    var named := OP.Run(OP.Osc(OP.Ident, Identified(digits), []), m.log);
    var aborted := OP.Run(OP.Osc(OP.Aborted, Identified(digits), []), m.log);
    PutsIdentifier(env, Opened(m.log), digits, PL.Ascii(digits), [c] + rest);
    PutsWrong(env, named, c, rest, aborted);
    OscPasses(env, m, intro, PL.Ascii(digits) + ([c] + rest), end, aborted);
  }

  lemma PutsWrong(env: Env, named: OP.Run, c: Code, rest: seq<Code>, aborted: OP.Run)
    requires named.osc.phase == OP.Ident && (c < 48 || 57 < c) && c != 59
    requires aborted == named.(osc := named.osc.(phase := OP.Aborted))
    ensures OP.PutAll(env, named, [c] + rest) == aborted
  {
    assert [c][..0] == [];
    assert OP.PutAll(env, named, [c]) == aborted;
    OP.PutAllConcat(env, named, [c], rest);
    OP.PutAborted(env, aborted, rest);
  }

  // ---------------------------------------------------------------- text and controls

  /** Outside of sequences, text is printed as it is written. */
  lemma TextPrinted(env: Env, m: Machine, text: seq<Code>)
    requires Valid(m) && m.state == GROUND && forall i :: 0 <= i < |text| ==> Prints(text[i])
    ensures Parsed(env, m, text)
            == m.(log := m.log + seq(|text|, i requires 0 <= i < |text| => Print([text[i]])))
  {
    var printed := seq(|text|, i requires 0 <= i < |text| => Print([text[i]]));
    assert Split(Print(text)) == printed;
    if text == [] {
      assert m.log + printed == m.log;
    } else {
      FeedPrint(env, Cursor(m, false), text);
    }
  }

  /** How a control character is reported. */
  function Executed(env: Env, c: Code): Event { if c in env.execute then Execute(c) else ExecuteFallback(c) }

  lemma Executes(env: Env, k: Cursor, c: Code, next: nat, rest: seq<Code>, k': Cursor)
    requires Valid(k.machine) && c != DEL && EntryFor(k.machine.state, c) == Transition(EXECUTE, next)
    requires k' == Cursor(k.machine.(state := next, log := k.machine.log + [Executed(env, c)]), false)
    ensures Valid(k'.machine) && Feed(env, k, [c] + rest) == Feed(env, k', rest)
  {
    Acts(env, k, c, Transition(EXECUTE, next), k.machine.(log := k.machine.log + [Executed(env, c)]));
    Takes(env, k, c, rest, k');
  }

  lemma ExecuteEntry(state: nat, c: Code)
    requires IsExecutable(c) && state <= CSI_IGNORE
    ensures EntryFor(state, c) == Transition(EXECUTE, state)
  {
  }

  /** A control character in the midst of a sequence is executed there and then, and the sequence goes
      on as if it had not been there. */
  lemma ExecutedAmidst(env: Env, m: Machine, a: seq<Code>, c: Code, b: seq<Code>)
    requires Valid(m) && IsExecutable(c) && Parsed(env, m, a).state <= CSI_IGNORE
    ensures var k := Feed(env, Cursor(m, false), a);
            Parsed(env, m, a + ([c] + b))
            == Feed(env, Cursor(k.machine.(log := k.machine.log + [Executed(env, c)]), false), b).machine
  {
    var k := Feed(env, Cursor(m, false), a);
    FeedConcat(env, Cursor(m, false), a, [c] + b);
    ExecuteEntry(k.machine.state, c);
    Executes(env, k, c, k.machine.state, b, Cursor(k.machine.(log := k.machine.log + [Executed(env, c)]), false));
  }

  /** The C1 controls that begin nothing. */
  predicate IsC1(c: Code) { 128 <= c <= 154 && c != 144 && c != 152 }

  /** CAN, SUB and C1 controls are executed too, and give up a sequence before its final byte. */
  lemma Abandoned(env: Env, m: Machine, a: seq<Code>, c: Code, b: seq<Code>)
    requires Valid(m) && (c == 24 || c == 26 || IsC1(c))
    requires Parsed(env, m, a).state != OSC_STRING && Parsed(env, m, a).state != DCS_PASSTHROUGH
    ensures var k := Feed(env, Cursor(m, false), a);
            Parsed(env, m, a + ([c] + b))
            == Parsed(env, k.machine.(state := GROUND, log := k.machine.log + [Executed(env, c)]), b)
  {
    var k := Feed(env, Cursor(m, false), a);
    FeedConcat(env, Cursor(m, false), a, [c] + b);
    AbandonEntry(k.machine.state, c);
    var m' := k.machine.(state := GROUND, log := k.machine.log + [Executed(env, c)]);
    Executes(env, k, c, GROUND, b, Cursor(m', false));
  }

  lemma AbandonEntry(state: nat, c: Code)
    requires state < STATES && state != OSC_STRING && state != DCS_PASSTHROUGH && (c == 24 || c == 26 || IsC1(c))
    ensures EntryFor(state, c) == Transition(EXECUTE, GROUND)
  {
  }

  /** Where a code point has no place at all: DEL in plain text, and whatever is beyond the C1 controls
      within a sequence or its header. */
  predicate Unexpected(state: nat, c: Code) {
    if state == GROUND then c == DEL
    else c >= 160 && (state <= CSI_INTERMEDIATE || state == SOS_PM_APC_STRING || state == DCS_ENTRY
                      || state == DCS_PARAM || state == DCS_INTERMEDIATE)
  }

  lemma UnexpectedEntry(state: nat, c: Code)
    requires Unexpected(state, c)
    ensures EntryFor(state, c) == Transition(ERROR, GROUND)
  {
  }

  /** Such a code point is reported with what was being parsed, which is given up. */
  lemma UnexpectedReported(env: Env, m: Machine, a: seq<Code>, c: Code, b: seq<Code>)
    requires Valid(m) && Unexpected(Parsed(env, m, a).state, c)
    ensures var k := Feed(env, Cursor(m, false), a);
            var error := Error(c, k.machine.state, k.machine.collect, k.machine.params);
            Parsed(env, m, a + ([c] + b)) == Parsed(env, k.machine.(state := GROUND, log := k.machine.log + [error]), b)
  {
    var k := Feed(env, Cursor(m, false), a);
    var reported := k.machine.(log := k.machine.log + [Error(c, k.machine.state, k.machine.collect, k.machine.params)]);
    FeedConcat(env, Cursor(m, false), a, [c] + b);
    UnexpectedEntry(k.machine.state, c);
    Acts(env, k, c, Transition(ERROR, GROUND), reported);
    Takes(env, k, c, b, Cursor(reported.(state := GROUND), false));
  }

  // ---------------------------------------------------------------- what is ignored

  lemma {:induction false} Stays(env: Env, k: Cursor, codes: seq<Code>)
    requires Valid(k.machine) && !k.inPut
    requires forall i :: 0 <= i < |codes| ==> EntryFor(k.machine.state, codes[i]) == Transition(IGNORE, k.machine.state)
    ensures Feed(env, k, codes) == k
  {
    if codes != [] {
      var n := |codes| - 1;
      Stays(env, k, codes[..n]);
      Acts(env, k, codes[n], Transition(IGNORE, k.machine.state), k.machine);
      FeedLast(env, k, codes, k, codes[n]);
    }
  }

  lemma Ignores(env: Env, k: Cursor, c: Code, next: nat, k': Cursor)
    requires Valid(k.machine) && c != DEL && EntryFor(k.machine.state, c) == Transition(IGNORE, next)
    requires k' == Cursor(k.machine.(state := next), false)
    ensures Valid(k'.machine) && Advance(env, k, c) == k'
  {
    Acts(env, k, c, Transition(IGNORE, next), k.machine);
  }

  /** From a code point that begins it to the one that ends it. */
  lemma PassesOver(env: Env, k: Cursor, c: Code, state: nat, text: seq<Code>, end: Code)
    requires Valid(k.machine) && c != DEL && end != DEL && EntryFor(k.machine.state, c) == Transition(IGNORE, state)
    requires forall i :: 0 <= i < |text| ==> EntryFor(state, text[i]) == Transition(IGNORE, state)
    requires EntryFor(state, end) == Transition(IGNORE, GROUND)
    ensures Feed(env, k, [c] + (text + [end])) == Cursor(k.machine.(state := GROUND), false)
  {
    var k' := Cursor(k.machine.(state := state), false);
    Ignores(env, k, c, state, k');
    Takes(env, k, c, text + [end], k');
    Stays(env, k', text);
    FeedConcat(env, k', text, [end]);
    FeedOne(env, k', end);
    Ignores(env, k', end, GROUND, Cursor(k.machine.(state := GROUND), false));
  }

  /** SOS, PM and APC strings are passed over up to the ST. */
  lemma StringsIgnored(env: Env, m: Machine, second: Code, text: seq<Code>)
    requires Valid(m) && m.state != OSC_STRING && m.state != DCS_PASSTHROUGH
    requires second == 88 || second == 94 || second == 95
    requires forall i :: 0 <= i < |text| ==> IsExecutable(text[i]) || 32 <= text[i] <= 127
    ensures Parsed(env, m, [ESC] + ([second] + (text + [156]))) == Afresh(m, GROUND)
  {
    var k := Cursor(Afresh(m, ESCAPE), false);
    Escapes(env, Cursor(m, false));
    Takes(env, Cursor(m, false), ESC, [second] + (text + [156]), k);
    IgnoredIn(SOS_PM_APC_STRING, text, 156);
    StringEntry(second);
    PassesOver(env, k, second, SOS_PM_APC_STRING, text, 156);
  }

  lemma StringEntry(c: Code)
    requires c == 88 || c == 94 || c == 95
    ensures EntryFor(ESCAPE, c) == Transition(IGNORE, SOS_PM_APC_STRING)
  {
  }

  lemma IgnoredIn(state: nat, text: seq<Code>, end: Code)
    requires state == SOS_PM_APC_STRING || state == DCS_IGNORE
    requires end == 156 && forall i :: 0 <= i < |text| ==> IsExecutable(text[i]) || 32 <= text[i] <= 127
    ensures forall i :: 0 <= i < |text| ==> EntryFor(state, text[i]) == Transition(IGNORE, state)
    ensures EntryFor(state, end) == Transition(IGNORE, GROUND)
  {
  }

  lemma IgnoredInCsi(rest: seq<Code>, final: Code)
    requires 64 <= final <= 126
    requires forall i :: 0 <= i < |rest| ==> 32 <= rest[i] <= 63 || rest[i] == DEL || rest[i] >= 160
    ensures forall i :: 0 <= i < |rest| ==> EntryFor(CSI_IGNORE, rest[i]) == Transition(IGNORE, CSI_IGNORE)
    ensures EntryFor(CSI_IGNORE, final) == Transition(IGNORE, GROUND)
  {
  }

  /** A byte that may not come where it does: a second prefix, or a parameter after intermediate bytes. */
  predicate OutOfPlace(h: Header, written: seq<PL.Param>, c: Code) {
    if h.marks != [] then 48 <= c <= 63 else (h.prefix != [] || written != []) && 60 <= c <= 63
  }

  lemma LateState(m: Machine, entry: nat, h: Header, written: seq<PL.Param>, c: Code, state: nat)
    requires Valid(m) && PL.Writable(written) && state == Gathered(m, entry, h, written).state
    requires OutOfPlace(h, written, c) && (entry == CSI_ENTRY || entry == DCS_ENTRY)
    ensures 48 <= c <= 63 && (h.marks == [] ==> 60 <= c)
    ensures state == if h.marks != [] then AfterMarks(entry) else AfterParams(entry)
  {
  }

  lemma OutOfPlaceEntry(m: Machine, entry: nat, h: Header, written: seq<PL.Param>, c: Code, state: nat)
    requires Valid(m) && PL.Writable(written) && state == Gathered(m, entry, h, written).state
    requires OutOfPlace(h, written, c) && (entry == CSI_ENTRY || entry == DCS_ENTRY)
    ensures EntryFor(state, c) == Transition(IGNORE, if entry == CSI_ENTRY then CSI_IGNORE else DCS_IGNORE)
  {
    LateState(m, entry, h, written, c, state);
    IgnoredLate(entry, h.marks != [], c, state);
  }

  lemma IgnoredLate(entry: nat, marked: bool, c: Code, state: nat)
    requires (entry == CSI_ENTRY || entry == DCS_ENTRY) && 48 <= c <= 63 && (!marked ==> 60 <= c)
    requires state == if marked then AfterMarks(entry) else AfterParams(entry)
    ensures EntryFor(state, c) == Transition(IGNORE, if entry == CSI_ENTRY then CSI_IGNORE else DCS_IGNORE)
  {
    LateEntry(state, c);
  }

  lemma LateEntry(state: nat, c: Code)
    requires state == CSI_PARAM || state == CSI_INTERMEDIATE || state == DCS_PARAM || state == DCS_INTERMEDIATE
    requires 48 <= c <= 63 && (state == CSI_PARAM || state == DCS_PARAM ==> 60 <= c)
    ensures EntryFor(state, c)
            == Transition(IGNORE, if state == CSI_PARAM || state == CSI_INTERMEDIATE then CSI_IGNORE else DCS_IGNORE)
  {
  }

  /** A control sequence with such a byte is passed over up to its final byte, and nobody hears of it. */
  lemma CsiIgnored(env: Env, m: Machine, intro: seq<Code>, h: Header, written: seq<PL.Param>, c: Code, rest: seq<Code>)
    requires Valid(m) && Introduces(m.state, intro, 91, 155) && IsHeader(h, 64) && PL.Writable(written)
    requires OutOfPlace(h, written, c)
    requires forall i :: 0 <= i < |rest| ==> 32 <= rest[i] <= 63 || rest[i] == DEL || rest[i] >= 160
    ensures var m' := Parsed(env, m, intro + (Opening(h, written) + ([c] + (rest + [h.final]))));
            m'.state == GROUND && m'.log == m.log
  {
    var k, k' := Cursor(Afresh(m, CSI_ENTRY), false), Cursor(Gathered(m, CSI_ENTRY, h, written), false);
    var tail := [c] + (rest + [h.final]);
    Begins(env, m, intro, CSI_ENTRY, Opening(h, written) + tail, k);
    Gathers(env, m, CSI_ENTRY, h, written, k, k');
    FeedConcat(env, k, Opening(h, written), tail);
    OutOfPlaceEntry(m, CSI_ENTRY, h, written, c, k'.machine.state);
    IgnoredInCsi(rest, h.final);
    PassesOver(env, k', c, CSI_IGNORE, rest, h.final);
  }

  /** The same for what introduces a device control string, and the string with it, up to the ST. */
  lemma DcsIgnored(env: Env, m: Machine, intro: seq<Code>, h: Header, written: seq<PL.Param>, c: Code, rest: seq<Code>)
    requires Valid(m) && Introduces(m.state, intro, 80, 144) && IsHeader(h, 64) && PL.Writable(written)
    requires OutOfPlace(h, written, c)
    requires forall i :: 0 <= i < |rest| ==> IsExecutable(rest[i]) || 32 <= rest[i] <= 127
    ensures var m' := Parsed(env, m, intro + (Opening(h, written) + ([c] + (rest + [156]))));
            m'.state == GROUND && m'.log == m.log
  {
    var k, k' := Cursor(Afresh(m, DCS_ENTRY), false), Cursor(Gathered(m, DCS_ENTRY, h, written), false);
    var tail := [c] + (rest + [156]);
    Begins(env, m, intro, DCS_ENTRY, Opening(h, written) + tail, k);
    Gathers(env, m, DCS_ENTRY, h, written, k, k');
    FeedConcat(env, k, Opening(h, written), tail);
    OutOfPlaceEntry(m, DCS_ENTRY, h, written, c, k'.machine.state);
    IgnoredIn(DCS_IGNORE, rest, 156);
    PassesOver(env, k', c, DCS_IGNORE, rest, 156);
  }
}
