/** `EscapeSequenceParser.parse` as it is written (xterm.js module 2015): a loop over the transition
    table with loops of its own for printing, parameters and string payloads. Proved to have exactly
    the effect `ParserMachine.Parsed`. */
module EscapeSequenceParser {
  import opened Utf16
  import opened TransitionTable
  import opened ParserEvents
  import opened ParserMachine
  import PL = ParamList
  import PS = Params
  import OP = OscParser
  import DP = DcsParser

  class EscapeSequenceParser {
    const env: Env
    const transitions: seq<nat>
    const params: PS.Params
    const oscParser: OP.OscParser
    const dcsParser: DP.DcsParser
    var currentState: nat
    var collect: int
    /** The calls made so far. */
    var log: seq<Event>
    /** What the fields above mean, and all that was ever put into a device control string. */
    ghost var machine: Machine

    ghost const Repr: set<object> :=
      {this, oscParser, dcsParser, params, params.params, params.subParams, params.subParamsIdx}

    ghost predicate Tied()
      reads Repr
    {
      && params.Valid() && params.maxLength == PL.MAX_PARAMS && params.maxSubParamsLength == PL.MAX_SUB_PARAMS
      && this !in params.Repr && oscParser !in params.Repr && dcsParser !in params.Repr
      && machine.state == currentState
      && machine.collect == collect
      && machine.params == params.list
      && machine.osc == oscParser.View()
      && machine.dcs == dcsParser.View()
      && machine.log == Flatten(log)
    }

    ghost predicate Valid()
      reads Repr
    {
      Tied() && ParserMachine.Valid(machine)
    }

    /** `transitions` is the elements of `Table.VT500`. */
    constructor (env: Env, transitions: seq<nat>)
      ensures Valid()
      ensures fresh(oscParser) && fresh(dcsParser) && fresh(params)
      ensures fresh(params.params) && fresh(params.subParams) && fresh(params.subParamsIdx)
      ensures this.env == env && this.transitions == transitions
      ensures machine == Machine(GROUND, 0, DP.NO_PARAMS, OP.INITIAL, DP.INITIAL, [], [])
    {
      this.env, this.transitions := env, transitions;
      oscParser := new OP.OscParser();
      dcsParser := new DP.DcsParser();
      currentState, collect, log := GROUND, 0, [];
      var p := NewParams();
      params := p;
      machine := Machine(GROUND, 0, p.list, OP.INITIAL, DP.INITIAL, [], []);
    }

    static method NewParams() returns (p: PS.Params)
      ensures fresh(p) && fresh(p.params) && fresh(p.subParams) && fresh(p.subParamsIdx)
      ensures p.Valid() && fresh(p.Repr) && p.maxLength == PL.MAX_PARAMS && p.maxSubParamsLength == PL.MAX_SUB_PARAMS
      ensures p.list == DP.NO_PARAMS
    {
      p := new PS.Params(PL.MAX_PARAMS, PL.MAX_SUB_PARAMS);
      var _ := p.AddParam(0);
    }

    /** `parse(data, length)`. */
    method Parse(data: seq<Code>, length: nat)
      requires Valid() && IsVT500(transitions) && length <= |data|
      modifies Repr
      ensures Valid()
      ensures machine == Parsed(env, old(machine), data[..length])
    {
      ghost var start := Cursor(machine, false);
      ghost var k := start;
      var i := 0;
      while i < length
        invariant i <= length && Valid()
        invariant machine == k.machine && k == Feed(env, start, data[..i])
        invariant k.inPut && i < length ==> data[i] != DEL
      {
        ghost var before := i;
        i, k := ParseAt(data, length, i, k);
        FeedNext(env, start, data, before, i);
      }
    }

    /** One round of the main loop, from position `i` to where the next one starts. */
    method ParseAt(data: seq<Code>, length: nat, i: nat, ghost k: Cursor) returns (i': nat, ghost k': Cursor)
      requires Valid() && IsVT500(transitions) && i < length <= |data|
      requires k.machine == machine && (k.inPut ==> data[i] != DEL)
      modifies Repr
      ensures Valid()
      ensures i < i' <= length
      ensures machine == k'.machine && k' == Feed(env, k, data[i..i'])
      ensures k'.inPut && i' < length ==> data[i'] != DEL
    {
      var action, next := Lookup(data[i]);
      i', k' := ParseWith(data, length, i, action, next, k);
    }

    method ParseWith(data: seq<Code>, length: nat, i: nat, action: nat, next: nat, ghost k: Cursor)
      returns (i': nat, ghost k': Cursor)
      requires Valid() && i < length <= |data| && EntryFor(currentState, data[i]) == Transition(action, next)
      requires k.machine == machine && (k.inPut ==> data[i] != DEL)
      modifies Repr
      ensures Valid()
      ensures i < i' <= length
      ensures machine == k'.machine && k' == Feed(env, k, data[i..i'])
      ensures k'.inPut && i' < length ==> data[i'] != DEL
    {
      var code := data[i];
      if action == PRINT || action == PARAM || action == OSC_PUT || action == DCS_PUT {
        i' := ParseRun(data, length, i, action, k);
      } else {
        ParseOne(code, action, next, k);
        i' := i + 1;
        assert data[i..i'] == [code];
        FeedOne(env, k, code);
      }
      k' := Cursor(machine, action == DCS_PUT);
    }

    /** The actions with loops of their own. */
    method ParseRun(data: seq<Code>, length: nat, i: nat, action: nat, ghost k: Cursor) returns (i': nat)
      requires Valid() && i < length <= |data| && k.machine == machine
      requires EntryFor(currentState, data[i]).action == action
      requires action == PRINT || action == PARAM || action == OSC_PUT || action == DCS_PUT
      modifies Repr
      ensures Valid()
      ensures i < i' <= length
      ensures Cursor(machine, action == DCS_PUT) == Feed(env, k, data[i..i'])
      ensures action == DCS_PUT && i' < length ==> data[i'] != DEL
    {
      if action == PRINT {
        i' := ParsePrint(data, length, i, k);
      } else if action == PARAM {
        i' := ParseParams(data, length, i, k);
      } else if action == OSC_PUT {
        i' := ParseOscPut(data, length, i, k);
      } else {
        i' := ParseDcsPut(data, length, i, k);
      }
    }

    /** The table element for the current state, `table[currentState << 8 | (code < 160 ? code : 160)]`. */
    method Lookup(code: Code) returns (action: nat, next: nat)
      requires Valid() && IsVT500(transitions)
      ensures EntryFor(currentState, code) == Transition(action, next)
    {
      ghost var column := ColumnOf(code);
      assert Element(transitions, currentState, column) == Packed(Entry(currentState, column));
      EntryFits(currentState, code);
      var element := transitions[currentState * 256 + if code < 160 then code else NON_ASCII];
      action, next := element / 16, element % 16;
    }

    method ParseOne(code: Code, action: nat, next: nat, ghost k: Cursor)
      requires Valid() && k.machine == machine && !Swallows(currentState, k.inPut, code)
      requires EntryFor(currentState, code) == Transition(action, next)
      requires action != PRINT && action != PARAM && action != OSC_PUT && action != DCS_PUT
      modifies Repr
      ensures Valid()
      ensures Cursor(machine, false) == Advance(env, k, code)
    {
      ghost var moved := Move(currentState, code);
      PerformOne(action, code);
      currentState := if (action == OSC_END || action == DCS_UNHOOK) && code == 27 && next % 2 == 0
                      then next + 1 else next;
      machine := machine.(state := moved);
    }

    /** The actions that take one code point; `PerformOne` leaves the state to its caller. */
    method PerformOne(action: nat, code: Code)
      requires Valid() && EntryFor(currentState, code).action == action
      requires action != PRINT && action != PARAM && action != OSC_PUT && action != DCS_PUT
      modifies Repr
      ensures Valid()
      ensures machine == Perform(env, old(machine), action, code)
    {
      if action == EXECUTE {
        Report(if code in env.execute then Execute(code) else ExecuteFallback(code));
      } else if action == ERROR {
        var snapshot := params.Snapshot();
        Report(Error(code, currentState, collect, snapshot));
      } else if action == CSI_DISPATCH {
        CallCsi(Collected(collect, code));
      } else if action == COLLECT {
        collect := Collected(collect, code);
        machine := machine.(collect := collect);
      } else if action == ESC_DISPATCH {
        CallEsc(Collected(collect, code));
      } else if action == CLEAR {
        Clear();
        machine := Cleared(machine);
      } else if action == DCS_HOOK {
        Hook(code);
      } else if action == DCS_UNHOOK {
        Unhook(code);
      } else if action == OSC_START {
        StartString();
      } else if action == OSC_END {
        EndString(code);
      }
    }

    method CallCsi(ident: int)
      requires Valid()
      modifies this`log, this`machine
      ensures Valid() && machine == DispatchCsi(env, old(machine), ident)
    {
      var snapshot := params.Snapshot();
      var calls := CsiDispatch(env, ident, snapshot, log);
      Extend(calls);
    }

    method CallEsc(ident: int)
      requires Valid()
      modifies this`log, this`machine
      ensures Valid() && machine == DispatchEsc(env, old(machine), ident)
    {
      var calls := EscDispatch(env, ident, log);
      Extend(calls);
    }

    method Report(call: Event)
      requires Valid() && Split(call) == [call]
      modifies this`log, this`machine
      ensures Valid() && machine == old(machine).(log := old(machine).log + [call])
    {
      FlattenOne(log, call);
      Extend(log + [call]);
    }

    method Extend(calls: seq<Event>)
      requires Valid()
      modifies this`log, this`machine
      ensures Valid() && machine == old(machine).(log := Flatten(calls))
    {
      log := calls;
      machine := machine.(log := Flatten(log));
      assert params.Valid();
    }

    method StartString()
      requires Valid()
      modifies this, oscParser
      ensures Valid() && currentState == old(currentState)
      ensures machine == StartOsc(old(machine))
    {
      oscParser.Start();
      machine := machine.(osc := oscParser.View());
      assert params.Valid();
    }

    method EndString(code: Code)
      requires Valid()
      modifies Repr
      ensures Valid() && currentState == old(currentState)
      ensures machine == EndOsc(env, old(machine), code)
    {
      EndOscParser(code);
      Forget();
    }

    method EndOscParser(code: Code)
      requires Valid()
      modifies this, oscParser
      ensures Valid() && currentState == old(currentState)
      ensures machine == WithOsc(old(machine), OP.Finish(env, old(OP.Run(machine.osc, machine.log)), EndsWell(code)))
    {
      log := oscParser.End(env, EndsWell(code), log);
      machine := machine.(osc := oscParser.View(), log := Flatten(log));
      assert params.Valid();
    }

    method Hook(code: Code)
      requires Valid()
      modifies this, dcsParser
      ensures Valid() && currentState == old(currentState)
      ensures machine == HookDcs(env, old(machine), code)
    {
      var snapshot := params.Snapshot();
      log := dcsParser.Hook(env, Collected(collect, code), snapshot, log);
      machine := machine.(dcs := dcsParser.View(), log := Flatten(log));
    }

    method Unhook(code: Code)
      requires Valid()
      modifies Repr
      ensures Valid() && currentState == old(currentState)
      ensures machine == UnhookDcs(env, old(machine), code)
    {
      UnhookDcsParser(code);
      Forget();
    }

    method UnhookDcsParser(code: Code)
      requires Valid()
      modifies this, dcsParser
      ensures Valid() && currentState == old(currentState)
      ensures machine == WithDcs(old(machine), DP.UnhookRun(env, old(DP.Run(machine.dcs, machine.log)), EndsWell(code)))
    {
      log := dcsParser.Unhook(env, EndsWell(code), log);
      machine := machine.(dcs := dcsParser.View(), log := Flatten(log));
      assert params.Valid();
    }

    method Forget()
      requires Valid()
      modifies Repr
      ensures Valid() && currentState == old(currentState)
      ensures machine == Cleared(old(machine))
    {
      Clear();
      machine := Cleared(machine);
    }

    /** Parameters and collected bytes are forgotten. */
    method Clear()
      requires params.Valid() && params.maxLength > 0 && this !in params.Repr
      modifies this`collect, params.Repr
      ensures params.Valid() && params.list == PL.AddParam(PL.Reset(old(params.list)), 0) && collect == 0
    {
      params.Reset();
      var _ := params.AddParam(0);
      collect := 0;
    }

    /** A handler is called, and accepts or not. */
    static method Asks(env: Env, call: Event, log: seq<Event>) returns (handled: bool, log': seq<Event>)
      requires call.CsiCall? || call.EscCall?
      ensures handled == env.accepts(Flatten(log), call) && Flatten(log') == Flatten(log) + [call]
    {
      FlattenOne(log, call);
      handled := env.accepts(Flatten(log), call);
      log' := log + [call];
    }

    static method CsiDispatch(env: Env, ident: int, params: PL.List, log: seq<Event>) returns (log': seq<Event>)
      ensures var handlers := Registered(env.csi, ident);
              Flatten(log') == AskCsi(env, handlers, |handlers|, ident, params, Flatten(log))
    {
      log' := log;
      ghost var all, told := Flatten(log), Flatten(log);
      var handlers := Registered(env.csi, ident);
      var a := |handlers|;
      var handled := false;
      while a > 0 && !handled
        invariant 0 <= a <= |handlers| && told == Flatten(log')
        invariant AskCsi(env, handlers, |handlers|, ident, params, all)
               == if handled then told else AskCsi(env, handlers, a, ident, params, told)
        decreases a, !handled
      {
        handled, log' := AskCsiHandler(env, handlers, a, ident, params, log', told);
        told := Flatten(log');
        a := a - 1;
      }
      if !handled {
        FlattenOne(log', CsiFallback(ident, params));
        log' := log' + [CsiFallback(ident, params)];
      }
    }

    static method AskCsiHandler(env: Env, handlers: seq<Handler>, n: nat, ghost ident: int, params: PL.List,
                                log: seq<Event>, ghost told: seq<Event>)
      returns (handled: bool, log': seq<Event>)
      requires 0 < n <= |handlers| && told == Flatten(log)
      ensures AskCsi(env, handlers, n, ident, params, told)
              == if handled then Flatten(log') else AskCsi(env, handlers, n - 1, ident, params, Flatten(log'))
    {
      var call := CsiCall(handlers[n - 1], params);
      AskCsiStep(env, handlers, n, ident, params, told, call);
      handled, log' := Asks(env, call, log);
    }

    static method EscDispatch(env: Env, ident: int, log: seq<Event>) returns (log': seq<Event>)
      ensures var handlers := Registered(env.esc, ident);
              Flatten(log') == AskEsc(env, handlers, |handlers|, ident, Flatten(log))
    {
      log' := log;
      ghost var all, told := Flatten(log), Flatten(log);
      var handlers := Registered(env.esc, ident);
      var l := |handlers|;
      var handled := false;
      while l > 0 && !handled
        invariant 0 <= l <= |handlers| && told == Flatten(log')
        invariant AskEsc(env, handlers, |handlers|, ident, all)
               == if handled then told else AskEsc(env, handlers, l, ident, told)
        decreases l, !handled
      {
        handled, log' := AskEscHandler(env, handlers, l, ident, log', told);
        told := Flatten(log');
        l := l - 1;
      }
      if !handled {
        FlattenOne(log', EscFallback(ident));
        log' := log' + [EscFallback(ident)];
      }
    }

    static method AskEscHandler(env: Env, handlers: seq<Handler>, n: nat, ghost ident: int, log: seq<Event>,
                                ghost told: seq<Event>)
      returns (handled: bool, log': seq<Event>)
      requires 0 < n <= |handlers| && told == Flatten(log)
      ensures AskEsc(env, handlers, n, ident, told)
              == if handled then Flatten(log') else AskEsc(env, handlers, n - 1, ident, Flatten(log'))
    {
      var call := EscCall(handlers[n - 1]);
      AskEscStep(env, handlers, n, ident, told, call);
      handled, log' := Asks(env, call, log);
    }

    static lemma AskCsiStep(env: Env, handlers: seq<Handler>, n: nat, ident: int, params: PL.List, log: seq<Event>,
                            call: Event)
      requires 0 < n <= |handlers| && call == CsiCall(handlers[n - 1], params)
      ensures AskCsi(env, handlers, n, ident, params, log)
              == if env.accepts(log, call) then log + [call]
                 else AskCsi(env, handlers, n - 1, ident, params, log + [call])
    {
    }

    static lemma AskEscStep(env: Env, handlers: seq<Handler>, n: nat, ident: int, log: seq<Event>, call: Event)
      requires 0 < n <= |handlers| && call == EscCall(handlers[n - 1])
      ensures AskEsc(env, handlers, n, ident, log)
              == if env.accepts(log, call) then log + [call] else AskEsc(env, handlers, n - 1, ident, log + [call])
    {
    }

    /** The printing loop, unrolled four times. */
    static method ScanPrint(data: seq<Code>, t: nat, i: nat) returns (s: nat)
      requires i < t <= |data|
      ensures i < s <= t
      ensures forall j :: i < j < s ==> Prints(data[j])
      ensures s < t ==> !Prints(data[s])
    {
      s := i + 1;
      while true
        invariant i < s <= t
        invariant forall j :: i < j < s ==> Prints(data[j])
        decreases t - s
      {
        if s >= t || data[s] < 32 || (data[s] > 126 && data[s] < 160) {
          return;
        }
        s := s + 1;
        if s >= t || data[s] < 32 || (data[s] > 126 && data[s] < 160) {
          return;
        }
        s := s + 1;
        if s >= t || data[s] < 32 || (data[s] > 126 && data[s] < 160) {
          return;
        }
        s := s + 1;
        if s >= t || data[s] < 32 || (data[s] > 126 && data[s] < 160) {
          return;
        }
        s := s + 1;
      }
    }

    method ParsePrint(data: seq<Code>, length: nat, i: nat, ghost k: Cursor) returns (i': nat)
      requires Valid() && i < length <= |data| && k.machine == machine
      requires EntryFor(currentState, data[i]).action == PRINT
      modifies this
      ensures Valid()
      ensures i < i' <= length
      ensures Cursor(machine, false) == Feed(env, k, data[i..i'])
    {
      i' := ScanPrint(data, length, i);
      OnlyFrom(currentState, data[i]);
      FeedPrint(env, k, data[i..i']);
      FlattenOne(log, Print(data[i..i']));
      log := log + [Print(data[i..i'])];
      machine := Feed(env, k, data[i..i']).machine;
    }

    method ParseParams(data: seq<Code>, length: nat, i: nat, ghost k: Cursor) returns (i': nat)
      requires Valid() && i < length <= |data| && k.machine == machine
      requires EntryFor(currentState, data[i]).action == PARAM
      modifies this, params.Repr
      ensures Valid()
      ensures i < i' <= length
      ensures Cursor(machine, false) == Feed(env, k, data[i..i'])
    {
      OnlyFrom(currentState, data[i]);
      ghost var bytes: seq<PL.Byte>;
      i', bytes := FeedBytes(params, data, length, i);
      FeedParams(env, k, bytes);
      currentState := if currentState == CSI_ENTRY || currentState == CSI_PARAM then CSI_PARAM else DCS_PARAM;
      machine := machine.(state := AfterParams(machine.state), params := params.list);
      assert params.Valid();
    }

    /** The parameter loop. */
    static method FeedBytes(params: PS.Params, data: seq<Code>, length: nat, i: nat)
      returns (i': nat, ghost bytes: seq<PL.Byte>)
      requires params.Valid() && i < length <= |data| && 48 <= data[i] <= 59
      modifies params.Repr
      ensures i < i' <= length && bytes == data[i..i']
      ensures i' < length ==> !(48 <= data[i'] <= 59)
      ensures params.Valid() && params.list == PL.FeedAll(old(params.list), bytes)
    {
      i', bytes := i, [];
      ghost var before := params.list;
      var again := true;
      while again
        invariant i <= i' <= length && bytes == data[i..i']
        invariant if again then i' < length && 48 <= data[i'] <= 59
                  else i < i' && (i' < length ==> !(48 <= data[i'] <= 59))
        invariant params.Valid() && PL.Valid(before) && params.list == PL.FeedAll(before, bytes)
        decreases length - i', again
      {
        bytes := FeedOneByte(params, data, i, i', before, bytes);
        i' := i' + 1;
        again := i' < length && data[i'] > 47 && data[i'] < 60;
      }
    }

    static method FeedOneByte(params: PS.Params, data: seq<Code>, i: nat, i': nat, ghost before: PL.List,
                           ghost bytes: seq<PL.Byte>)
      returns (ghost more: seq<PL.Byte>)
      requires params.Valid() && i <= i' < |data| && 48 <= data[i'] <= 59 && bytes == data[i..i']
      requires PL.Valid(before) && params.list == PL.FeedAll(before, bytes)
      modifies params.Repr
      ensures more == data[i..i' + 1] && params.Valid() && params.list == PL.FeedAll(before, more)
    {
      more := Extended(before, data, i, i', bytes);
      FeedByte(params, data[i']);
    }

    static lemma Extended(p: PL.List, data: seq<Code>, i: nat, i': nat, bytes: seq<PL.Byte>)
      returns (more: seq<PL.Byte>)
      requires PL.Valid(p) && i <= i' < |data| && 48 <= data[i'] <= 59 && bytes == data[i..i']
      ensures more == data[i..i' + 1] && PL.FeedAll(p, more) == PL.Feed(PL.FeedAll(p, bytes), data[i'])
    {
      more := bytes + [data[i']];
      assert more[..|bytes|] == bytes;
      assert data[i..i' + 1] == data[i..i'] + [data[i']];
    }

    static method FeedByte(params: PS.Params, code: PL.Byte)
      requires params.Valid()
      modifies params.Repr
      ensures params.Valid() && params.list == PL.Feed(old(params.list), code)
    {
      if code == 59 {
        var _ := params.AddParam(0);
      } else if code == 58 {
        var _ := params.AddSubParam(-1);
      } else {
        params.AddDigit(code - 48);
      }
    }

    /** The loops that look for the end of a payload. */
    static method ScanOscPut(data: seq<Code>, t: nat, i: nat) returns (s: nat)
      requires i < t <= |data|
      ensures i < s <= t
      ensures forall j :: i < j < s ==> OscReadsOn(data[j])
      ensures s < t ==> !OscReadsOn(data[s])
    {
      s := i + 1;
      while !(s >= t || data[s] < 32 || (data[s] > 127 && data[s] < 160))
        invariant i < s <= t
        invariant forall j :: i < j < s ==> OscReadsOn(data[j])
        decreases t - s
      {
        s := s + 1;
      }
    }

    static method ScanDcsPut(data: seq<Code>, t: nat, i: nat) returns (s: nat)
      requires i < t <= |data|
      ensures i < s <= t
      ensures forall j :: i < j < s ==> DcsReadsOn(data[j])
      ensures s < t ==> !DcsReadsOn(data[s])
    {
      s := i + 1;
      while !(s >= t || data[s] == 24 || data[s] == 26 || data[s] == 27 || (data[s] > 127 && data[s] < 160))
        invariant i < s <= t
        invariant forall j :: i < j < s ==> DcsReadsOn(data[j])
        decreases t - s
      {
        s := s + 1;
      }
    }

    method ParseOscPut(data: seq<Code>, length: nat, i: nat, ghost k: Cursor) returns (i': nat)
      requires Valid() && i < length <= |data| && k.machine == machine
      requires EntryFor(currentState, data[i]).action == OSC_PUT
      modifies this, oscParser
      ensures Valid()
      ensures i < i' <= length
      ensures Cursor(machine, false) == Feed(env, k, data[i..i'])
    {
      i' := ScanOscPut(data, length, i);
      OnlyFrom(currentState, data[i]);
      FeedOscPut(env, k, data[i..i']);
      log := oscParser.Put(env, data, i, i', log);
      machine := Feed(env, k, data[i..i']).machine;
    }

    method ParseDcsPut(data: seq<Code>, length: nat, i: nat, ghost k: Cursor) returns (i': nat)
      requires Valid() && i < length <= |data| && k.machine == machine
      requires EntryFor(currentState, data[i]).action == DCS_PUT
      modifies this, dcsParser
      ensures Valid()
      ensures i < i' <= length
      ensures Cursor(machine, true) == Feed(env, k, data[i..i'])
      ensures i' < length ==> data[i'] != DEL
    {
      i' := ScanDcsPut(data, length, i);
      OnlyFrom(currentState, data[i]);
      PutSlice(data, i, i', k);
    }

    method PutSlice(data: seq<Code>, i: nat, i': nat, ghost k: Cursor)
      requires Valid() && i < i' <= |data| && k.machine == machine
      requires currentState == DCS_PASSTHROUGH && data[i] != DEL && forall j :: i <= j < i' ==> DcsReadsOn(data[j])
      modifies this, dcsParser
      ensures Valid() && Cursor(machine, true) == Feed(env, k, data[i..i'])
    {
      FeedDcsPut(env, k, data[i..i']);
      log := dcsParser.Put(data, i, i', log);
      machine := Feed(env, k, data[i..i']).machine;
    }
  }
}
