/** The escape sequence parser as a machine that takes one code point at a time (the transition
    table of xterm.js module 2015 and the actions of its `parse`), and what chunks mean for it. */
module ParserMachine {
  import opened Utf16
  import opened TransitionTable
  import opened ParserEvents
  import PL = ParamList
  import OP = OscParser
  import DP = DcsParser

  /** `log` is what was reported. `fed` is all that was ever put into device control strings, which the
      parser does not remember: it only serves to compare runs. */
  datatype Machine = Machine(
    state: nat,
    collect: int,
    params: PL.List,
    osc: OP.Osc,
    dcs: DP.Dcs,
    fed: seq<Code>,
    log: seq<Event>)

  predicate Valid(m: Machine) { m.state < STATES && PL.Valid(m.params) }

  function ColumnOf(c: Code): Column { if c < 160 then c else NON_ASCII }

  function EntryFor(state: nat, c: Code): Transition { Entry(state, ColumnOf(c)) }

  /** The value of a signed 32-bit integer. */
  function Int32(x: int): int {
    var low := x % 0x1_0000_0000;
    if low >= 0x8000_0000 then low - 0x1_0000_0000 else low
  }

  /** `collect << 8 | code` for a code of at most eight bits. */
  function Collected(collect: int, c: Code): int { Int32(collect * 256) + c }

  // ---------------------------------------------------------------- actions

  function Cleared(m: Machine): (r: Machine)
    requires Valid(m)
    ensures Valid(r)
  {
    m.(params := PL.AddParam(PL.Reset(m.params), 0), collect := 0)
  }

  /** Handlers are asked last to first; the fallback hears of it when none accepts. */
  function AskCsi(env: Env, handlers: seq<Handler>, n: nat, ident: int, params: PL.List, log: seq<Event>): seq<Event>
    requires n <= |handlers|
  {
    if n == 0 then log + [CsiFallback(ident, params)]
    else
      var call := CsiCall(handlers[n - 1], params);
      if env.accepts(log, call) then log + [call]
      else AskCsi(env, handlers, n - 1, ident, params, log + [call])
  }

  function AskEsc(env: Env, handlers: seq<Handler>, n: nat, ident: int, log: seq<Event>): seq<Event>
    requires n <= |handlers|
  {
    if n == 0 then log + [EscFallback(ident)]
    else
      var call := EscCall(handlers[n - 1]);
      if env.accepts(log, call) then log + [call] else AskEsc(env, handlers, n - 1, ident, log + [call])
  }

  function WithOsc(m: Machine, r: OP.Run): Machine { m.(osc := r.osc, log := r.log) }
  function WithDcs(m: Machine, r: DP.Run): Machine { m.(dcs := r.dcs, log := r.log) }

  function PutDcs(m: Machine, codes: seq<Code>): Machine {
    WithDcs(m, DP.PutAll(DP.Run(m.dcs, m.log), codes)).(fed := m.fed + codes)
  }

  function PutOsc(env: Env, m: Machine, codes: seq<Code>): Machine {
    WithOsc(m, OP.PutAll(env, OP.Run(m.osc, m.log), codes))
  }

  /** A string ends well unless CAN or SUB ends it. */
  predicate EndsWell(c: Code) { c != 24 && c != 26 }

  function DispatchCsi(env: Env, m: Machine, ident: int): Machine {
    var handlers := Registered(env.csi, ident);
    m.(log := AskCsi(env, handlers, |handlers|, ident, m.params, m.log))
  }

  function DispatchEsc(env: Env, m: Machine, ident: int): Machine {
    var handlers := Registered(env.esc, ident);
    m.(log := AskEsc(env, handlers, |handlers|, ident, m.log))
  }

  function StartOsc(m: Machine): Machine { m.(osc := OP.INITIAL.(phase := OP.Ident)) }

  function EndOsc(env: Env, m: Machine, c: Code): (r: Machine)
    requires Valid(m)
    ensures Valid(r)
  {
    Cleared(WithOsc(m, OP.Finish(env, OP.Run(m.osc, m.log), EndsWell(c))))
  }

  function HookDcs(env: Env, m: Machine, c: Code): Machine {
    WithDcs(m, DP.HookRun(env, DP.Run(m.dcs, m.log), Collected(m.collect, c), m.params))
  }

  function UnhookDcs(env: Env, m: Machine, c: Code): (r: Machine)
    requires Valid(m)
    ensures Valid(r)
  {
    Cleared(WithDcs(m, DP.UnhookRun(env, DP.Run(m.dcs, m.log), EndsWell(c))))
  }

  function Perform(env: Env, m: Machine, action: nat, c: Code): (r: Machine)
    requires Valid(m) && (action == PARAM ==> 48 <= c <= 59)
    ensures Valid(r)
  {
    match action
    case 0 => m
    case 1 => m.(log := m.log + [Error(c, m.state, m.collect, m.params)])
    case 2 => m.(log := m.log + [Print([c])])
    case 3 => m.(log := m.log + [if c in env.execute then Execute(c) else ExecuteFallback(c)])
    case 4 => StartOsc(m)
    case 5 => PutOsc(env, m, [c])
    case 6 => EndOsc(env, m, c)
    case 7 => DispatchCsi(env, m, Collected(m.collect, c))
    case 8 => m.(params := PL.Feed(m.params, c))
    case 9 => m.(collect := Collected(m.collect, c))
    case 10 => DispatchEsc(env, m, Collected(m.collect, c))
    case 11 => Cleared(m)
    case 12 => HookDcs(env, m, c)
    case 13 => PutDcs(m, [c])
    case 14 => UnhookDcs(env, m, c)
    case _ => m
  }

  /** The next state; an ESC that ends a string at the same time begins an escape sequence. */
  function NextState(t: Transition, c: Code): nat {
    if (t.action == OSC_END || t.action == DCS_UNHOOK) && c == 27 && t.next % 2 == 0 then t.next + 1 else t.next
  }

  /** The states alone are an automaton of their own. */
  function Move(state: nat, c: Code): (next: nat)
    ensures next < STATES
  {
    NextState(EntryFor(state, c), c)
  }

  function Step(env: Env, m: Machine, c: Code): (r: Machine)
    requires Valid(m)
    ensures Valid(r)
  {
    Perform(env, m, EntryFor(m.state, c).action, c).(state := Move(m.state, c))
  }

  /** One transition per code point. */
  function Run(env: Env, m: Machine, codes: seq<Code>): (r: Machine)
    requires Valid(m)
    ensures Valid(r)
  {
    if codes == [] then m else Step(env, Run(env, m, codes[..|codes| - 1]), codes[|codes| - 1])
  }

  // ---------------------------------------------------------------- what `parse` does

  const DEL: Code := 127

  /** The machine, and whether the previous code point of the same chunk went into a device control
      string: the loop that reads on from there also takes a DEL, which the table would ignore. */
  datatype Cursor = Cursor(machine: Machine, inPut: bool)

  predicate Swallows(state: nat, inPut: bool, c: Code) { state == DCS_PASSTHROUGH && inPut && c == DEL }

  function Advance(env: Env, k: Cursor, c: Code): (r: Cursor)
    requires Valid(k.machine)
    ensures Valid(r.machine)
  {
    if Swallows(k.machine.state, k.inPut, c) then Cursor(PutDcs(k.machine, [c]), true)
    else Cursor(Step(env, k.machine, c), EntryFor(k.machine.state, c).action == DCS_PUT)
  }

  function Feed(env: Env, k: Cursor, codes: seq<Code>): (r: Cursor)
    requires Valid(k.machine)
    ensures Valid(r.machine)
  {
    if codes == [] then k else Advance(env, Feed(env, k, codes[..|codes| - 1]), codes[|codes| - 1])
  }

  /** The effect of one call of `parse`. */
  function Parsed(env: Env, m: Machine, codes: seq<Code>): (r: Machine)
    requires Valid(m)
    ensures Valid(r)
  {
    Feed(env, Cursor(m, false), codes).machine
  }

  // ---------------------------------------------------------------- laws of folding

  lemma FeedConcat(env: Env, k: Cursor, a: seq<Code>, b: seq<Code>)
    requires Valid(k.machine)
    ensures Feed(env, k, a + b) == Feed(env, Feed(env, k, a), b)
  {
    FeedRest(env, k, a, Feed(env, k, a), b, a + b);
  }

  lemma {:induction false} FeedRest(env: Env, k: Cursor, a: seq<Code>, k': Cursor, b: seq<Code>, ab: seq<Code>)
    requires Valid(k.machine) && k' == Feed(env, k, a) && ab == a + b
    ensures Feed(env, k, ab) == Feed(env, k', b)
    decreases |b|
  {
    if b == [] {
      assert ab == a;
    } else {
      var n, m := |ab| - 1, |b| - 1;
      var front, last := b[..m], b[m];
      assert ab[..n] == a + front && ab[n] == last;
      FeedRest(env, k, a, k', front, ab[..n]);
      FeedLast(env, k, ab, Feed(env, k', front), last);
      FeedLast(env, k', b, Feed(env, k', front), last);
    }
  }

  lemma FeedLast(env: Env, k: Cursor, codes: seq<Code>, before: Cursor, last: Code)
    requires Valid(k.machine) && codes != [] && last == codes[|codes| - 1]
    requires before == Feed(env, k, codes[..|codes| - 1])
    ensures Valid(before.machine) && Feed(env, k, codes) == Advance(env, before, last)
  {
  }

  lemma FeedNext(env: Env, k: Cursor, data: seq<Code>, i: nat, i': nat)
    requires Valid(k.machine) && i <= i' <= |data|
    ensures Feed(env, k, data[..i']) == Feed(env, Feed(env, k, data[..i]), data[i..i'])
  {
    assert data[..i] + data[i..i'] == data[..i'];
    FeedRest(env, k, data[..i], Feed(env, k, data[..i]), data[i..i'], data[..i']);
  }

  lemma FeedOne(env: Env, k: Cursor, c: Code)
    requires Valid(k.machine)
    ensures Feed(env, k, [c]) == Advance(env, k, c)
  {
    assert [c][..0] == [];
    assert Feed(env, k, [c][..0]) == k;
  }

  // ---------------------------------------------------------------- runs that a loop takes at once

  /** What the printing loop reads on over. */
  predicate Prints(c: Code) { IsPrintable(c) || c >= 160 }

  lemma AdvancePrint(env: Env, k: Cursor, c: Code)
    requires Valid(k.machine) && k.machine.state == GROUND && Prints(c)
    ensures Advance(env, k, c) == Cursor(k.machine.(log := k.machine.log + Split(Print([c]))), false)
  {
    assert Split(Print([c])) == [Print([c])];
  }

  lemma {:induction false} FeedPrint(env: Env, k: Cursor, codes: seq<Code>)
    requires Valid(k.machine) && k.machine.state == GROUND && codes != []
    requires forall i :: 0 <= i < |codes| ==> Prints(codes[i])
    ensures Feed(env, k, codes) == Cursor(k.machine.(log := k.machine.log + Split(Print(codes))), false)
  {
    var n := |codes| - 1;
    assert codes == codes[..n] + [codes[n]];
    if n == 0 {
      assert codes == [codes[0]];
      AdvancePrint(env, k, codes[0]);
    } else {
      FeedPrint(env, k, codes[..n]);
      AdvancePrint(env, Feed(env, k, codes[..n]), codes[n]);
      SplitPrint(codes[..n], [codes[n]]);
    }
  }

  predicate OscReadsOn(c: Code) { 32 <= c <= 127 || c >= 160 }

  /** A step with an action that ends no string. */
  lemma Acts(env: Env, k: Cursor, c: Code, t: Transition, m: Machine)
    requires Valid(k.machine) && !Swallows(k.machine.state, k.inPut, c) && t == EntryFor(k.machine.state, c)
    requires t.action != OSC_END && t.action != DCS_UNHOOK && (t.action == PARAM ==> 48 <= c <= 59)
    requires m == Perform(env, k.machine, t.action, c)
    ensures Advance(env, k, c) == Cursor(m.(state := t.next), t.action == DCS_PUT)
  {
  }

  lemma OscPutEntry(c: Code)
    requires OscReadsOn(c)
    ensures EntryFor(OSC_STRING, c) == Transition(OSC_PUT, OSC_STRING)
  {
  }

  lemma AdvanceOscPut(env: Env, k: Cursor, c: Code)
    requires Valid(k.machine) && k.machine.state == OSC_STRING && OscReadsOn(c)
    ensures Advance(env, k, c) == Cursor(PutOsc(env, k.machine, [c]), false)
  {
    OscPutEntry(c);
    Acts(env, k, c, Transition(OSC_PUT, OSC_STRING), PutOsc(env, k.machine, [c]));
  }

  lemma PutOscConcat(env: Env, m: Machine, a: seq<Code>, b: seq<Code>)
    ensures PutOsc(env, PutOsc(env, m, a), b) == PutOsc(env, m, a + b)
  {
    OP.PutAllConcat(env, OP.Run(m.osc, m.log), a, b);
  }

  lemma {:induction false} FeedOscPut(env: Env, k: Cursor, codes: seq<Code>)
    requires Valid(k.machine) && k.machine.state == OSC_STRING && codes != []
    requires forall i :: 0 <= i < |codes| ==> OscReadsOn(codes[i])
    ensures Feed(env, k, codes) == Cursor(PutOsc(env, k.machine, codes), false)
  {
    var n := |codes| - 1;
    assert codes == codes[..n] + [codes[n]];
    if n == 0 {
      assert codes == [codes[0]];
      AdvanceOscPut(env, k, codes[0]);
    } else {
      FeedOscPut(env, k, codes[..n]);
      AdvanceOscPut(env, Feed(env, k, codes[..n]), codes[n]);
      PutOscConcat(env, k.machine, codes[..n], [codes[n]]);
    }
  }

  predicate DcsReadsOn(c: Code) { c != 24 && c != 26 && c != 27 && (c <= 127 || c >= 160) }

  lemma AdvanceDcsPut(env: Env, k: Cursor, c: Code)
    requires Valid(k.machine) && k.machine.state == DCS_PASSTHROUGH && DcsReadsOn(c)
    requires k.inPut || c != DEL
    ensures Advance(env, k, c) == Cursor(PutDcs(k.machine, [c]), true)
  {
    if c != DEL {
      DcsPutEntry(c);
      Acts(env, k, c, Transition(DCS_PUT, DCS_PASSTHROUGH), PutDcs(k.machine, [c]));
    }
  }

  lemma DcsPutEntry(c: Code)
    requires DcsReadsOn(c) && c != DEL
    ensures EntryFor(DCS_PASSTHROUGH, c) == Transition(DCS_PUT, DCS_PASSTHROUGH)
  {
  }

  lemma PutDcsConcat(m: Machine, a: seq<Code>, b: seq<Code>)
    ensures PutDcs(PutDcs(m, a), b) == PutDcs(m, a + b)
  {
    DP.PutAllConcat(DP.Run(m.dcs, m.log), a, b);
    PutDcsAgain(m, DP.PutAll(DP.Run(m.dcs, m.log), a), a, b);
    Regroup(m.fed, a, b);
  }

  lemma PutDcsAgain(m: Machine, r: DP.Run, a: seq<Code>, b: seq<Code>)
    requires r == DP.PutAll(DP.Run(m.dcs, m.log), a)
    ensures PutDcs(PutDcs(m, a), b) == WithDcs(m, DP.PutAll(r, b)).(fed := m.fed + a + b)
  {
    assert DP.Run(r.dcs, r.log) == r;
  }

  lemma Regroup(a: seq<Code>, b: seq<Code>, c: seq<Code>)
    ensures a + b + c == a + (b + c)
  {
  }

  lemma {:induction false} FeedDcsPut(env: Env, k: Cursor, codes: seq<Code>)
    requires Valid(k.machine) && k.machine.state == DCS_PASSTHROUGH && codes != [] && codes[0] != DEL
    requires forall i :: 0 <= i < |codes| ==> DcsReadsOn(codes[i])
    ensures Feed(env, k, codes) == Cursor(PutDcs(k.machine, codes), true)
  {
    var n := |codes| - 1;
    assert codes == codes[..n] + [codes[n]];
    if n == 0 {
      assert codes == [codes[0]];
      AdvanceDcsPut(env, k, codes[0]);
    } else {
      FeedDcsPut(env, k, codes[..n]);
      AdvanceDcsPut(env, Feed(env, k, codes[..n]), codes[n]);
      PutDcsConcat(k.machine, codes[..n], [codes[n]]);
    }
  }

  predicate TakesParams(state: nat) {
    state == CSI_ENTRY || state == CSI_PARAM || state == DCS_ENTRY || state == DCS_PARAM
  }

  function AfterParams(state: nat): nat {
    if state == CSI_ENTRY || state == CSI_PARAM then CSI_PARAM else DCS_PARAM
  }

  lemma ParamEntry(state: nat, c: Code)
    requires TakesParams(state) && 48 <= c <= 59
    ensures EntryFor(state, c) == Transition(PARAM, AfterParams(state))
  {
  }

  lemma AdvanceParam(env: Env, k: Cursor, c: Code)
    requires Valid(k.machine) && TakesParams(k.machine.state) && 48 <= c <= 59
    ensures Advance(env, k, c)
            == Cursor(k.machine.(state := AfterParams(k.machine.state), params := PL.Feed(k.machine.params, c)), false)
  {
    var params := PL.Feed(k.machine.params, c);
    ParamEntry(k.machine.state, c);
    Acts(env, k, c, Transition(PARAM, AfterParams(k.machine.state)), k.machine.(params := params));
  }

  lemma {:induction false} FeedParams(env: Env, k: Cursor, codes: seq<PL.Byte>)
    requires Valid(k.machine) && TakesParams(k.machine.state) && codes != []
    ensures Feed(env, k, codes)
            == Cursor(k.machine.(state := AfterParams(k.machine.state),
                                 params := PL.FeedAll(k.machine.params, codes)), false)
  {
    var n := |codes| - 1;
    if n == 0 {
      assert codes[..0] == [];
      AdvanceParam(env, k, codes[0]);
    } else {
      FeedParams(env, k, codes[..n]);
      AdvanceParam(env, Feed(env, k, codes[..n]), codes[n]);
    }
  }

  /** The actions with loops of their own occur in few states. */
  lemma OnlyFrom(state: nat, c: Code)
    ensures var action := EntryFor(state, c).action;
            && (action == PRINT ==> state == GROUND && Prints(c))
            && (action == OSC_PUT ==> state == OSC_STRING && OscReadsOn(c))
            && (action == DCS_PUT ==> state == DCS_PASSTHROUGH && DcsReadsOn(c) && c != DEL)
            && (action == PARAM ==> 48 <= c <= 59 && TakesParams(state))
  {
  }

  lemma EntryFits(state: nat, c: Code)
    requires state < STATES
    ensures var t := EntryFor(state, c);
            t.action < 16 && t.next < STATES && Packed(t) / 16 == t.action && Packed(t) % 16 == t.next
  {
  }
}
