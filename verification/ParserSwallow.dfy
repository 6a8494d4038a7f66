/** What the outside can see of a DEL that the put loop takes (xterm.js modules 2015 and 6351). A
    fallback is told of it at once, and no later call makes up for that; a handler is given it with
    the text when the string ends well; and an aborted string takes it along unseen. */
module ParserSwallow {
  import opened Utf16
  import opened TransitionTable
  import opened ParserEvents
  import opened ParserMachine
  import opened ParserLaws
  import PL = ParamList
  import OP = OscParser
  import DP = DcsParser

  // ---------------------------------------------------------------- what a step reports

  predicate IsDel(e: Event) { e.DcsData? && e.text == [DEL] }

  /** More has been reported, and none of it is a DEL in a device control string. */
  ghost predicate Extends(log: seq<Event>, log': seq<Event>) {
    log <= log' && forall k :: |log| <= k < |log'| ==> !IsDel(log'[k])
  }

  lemma {:induction false} AskCsiExtends(env: Env, handlers: seq<Handler>, n: nat, ident: int, params: PL.List,
                                         log: seq<Event>)
    requires n <= |handlers|
    ensures Extends(log, AskCsi(env, handlers, n, ident, params, log))
  {
    if n > 0 {
      AskCsiExtends(env, handlers, n - 1, ident, params, log + [CsiCall(handlers[n - 1], params)]);
    }
  }

  lemma {:induction false} AskEscExtends(env: Env, handlers: seq<Handler>, n: nat, ident: int, log: seq<Event>)
    requires n <= |handlers|
    ensures Extends(log, AskEsc(env, handlers, n, ident, log))
  {
    if n > 0 {
      AskEscExtends(env, handlers, n - 1, ident, log + [EscCall(handlers[n - 1])]);
    }
  }

  lemma {:induction false} AskOscExtends(env: Env, active: seq<Collector>, n: nat, log: seq<Event>)
    requires n <= |active|
    ensures Extends(log, OP.Ask(env, active, n, log))
  {
    if n > 0 {
      AskOscExtends(env, active, n - 1, log);
      AskOscExtends(env, active, n - 1, log + [OscCall(active[n - 1].handler, active[n - 1].text)]);
    }
  }

  lemma {:induction false} AskDcsExtends(env: Env, params: PL.List, active: seq<Collector>, n: nat, log: seq<Event>)
    requires n <= |active|
    ensures Extends(log, DP.Ask(env, params, active, n, log))
  {
    if n > 0 {
      AskDcsExtends(env, params, active, n - 1, log);
      AskDcsExtends(env, params, active, n - 1, log + [DcsCall(active[n - 1].handler, active[n - 1].text, params)]);
    }
  }

  lemma OscExtends(env: Env, r: OP.Run, c: Code, success: bool)
    ensures Extends(r.log, OP.PutAll(env, r, [c]).log)
    ensures Extends(r.log, OP.Finish(env, r, success).log)
  {
    assert [c][..0] == [];
    assert OP.PutAll(env, r, [c]) == OP.PutOne(env, r, c);
    var begun := if r.osc.phase == OP.Ident then OP.Begin(env, r) else r;
    AskOscExtends(env, begun.osc.active, |begun.osc.active|, begun.log);
  }

  lemma PutOneIs(r: DP.Run, c: Code)
    ensures DP.PutAll(r, [c]) == DP.Deliver(r, UnitsOf(c))
  {
    assert [c][..0] == [];
    assert DP.PutAll(r, []) == r;
  }

  lemma PutExtends(r: DP.Run, c: Code)
    requires c != DEL
    ensures Extends(r.log, DP.PutAll(r, [c]).log)
    ensures r.dcs.active == [] ==> |DP.PutAll(r, [c]).log| > |r.log|
    ensures DP.PutAll(r, [c]).dcs.active == [] <==> r.dcs.active == []
  {
    PutOneIs(r, c);
  }

  lemma PerformExtends(env: Env, m: Machine, action: nat, c: Code)
    requires Valid(m) && (action == PARAM ==> 48 <= c <= 59) && (action == DCS_PUT ==> c != DEL)
    ensures Extends(m.log, Perform(env, m, action, c).log)
  {
    if action == CSI_DISPATCH {
      var ident := Collected(m.collect, c);
      AskCsiExtends(env, Registered(env.csi, ident), |Registered(env.csi, ident)|, ident, m.params, m.log);
    } else if action == ESC_DISPATCH {
      var ident := Collected(m.collect, c);
      AskEscExtends(env, Registered(env.esc, ident), |Registered(env.esc, ident)|, ident, m.log);
    } else if action == OSC_PUT || action == OSC_END {
      OscExtends(env, OP.Run(m.osc, m.log), c, EndsWell(c));
    } else if action == DCS_PUT {
      PutExtends(DP.Run(m.dcs, m.log), c);
    } else if action == DCS_UNHOOK {
      AskDcsExtends(env, m.dcs.params, m.dcs.active, |m.dcs.active|, m.log);
    }
  }

  /** The table machine never reports a DEL in a device control string. */
  lemma StepExtends(env: Env, m: Machine, c: Code)
    requires Valid(m)
    ensures Extends(m.log, Step(env, m, c).log)
  {
    OnlyFrom(m.state, c);
    PerformExtends(env, m, EntryFor(m.state, c).action, c);
  }

  lemma {:induction false} RunExtends(env: Env, m: Machine, codes: seq<Code>)
    requires Valid(m)
    ensures Extends(m.log, Run(env, m, codes).log)
  {
    if codes != [] {
      RunExtends(env, m, codes[..|codes| - 1]);
      StepExtends(env, Run(env, m, codes[..|codes| - 1]), codes[|codes| - 1]);
    }
  }

  lemma AdvanceGrows(env: Env, k: Cursor, c: Code)
    requires Valid(k.machine)
    ensures k.machine.log <= Advance(env, k, c).machine.log
  {
    if Swallows(k.machine.state, k.inPut, c) {
      PutOneIs(DP.Run(k.machine.dcs, k.machine.log), c);
    } else {
      StepExtends(env, k.machine, c);
    }
  }

  /** Nothing that was reported is taken back. */
  lemma {:induction false} FeedGrows(env: Env, k: Cursor, codes: seq<Code>)
    requires Valid(k.machine)
    ensures k.machine.log <= Feed(env, k, codes).machine.log
  {
    if codes != [] {
      FeedGrows(env, k, codes[..|codes| - 1]);
      AdvanceGrows(env, Feed(env, k, codes[..|codes| - 1]), codes[|codes| - 1]);
    }
  }

  /** What comes after `log` does not begin with a DEL; nor can it while nothing has come. */
  ghost predicate NoDelFirst(log: seq<Event>, k: Cursor) {
    log <= k.machine.log
    && if k.machine.log == log then k.inPut ==> k.machine.dcs.active != [] else !IsDel(k.machine.log[|log|])
  }

  lemma AdvanceNoDelFirst(env: Env, log: seq<Event>, k: Cursor, c: Code)
    requires Valid(k.machine) && NoDelFirst(log, k)
    ensures NoDelFirst(log, Advance(env, k, c))
  {
    if k.machine.log != log {
      AdvanceGrows(env, k, c);
    } else if Swallows(k.machine.state, k.inPut, c) {
      PutOneIs(DP.Run(k.machine.dcs, k.machine.log), c);
    } else {
      StepExtends(env, k.machine, c);
      if EntryFor(k.machine.state, c).action == DCS_PUT {
        OnlyFrom(k.machine.state, c);
        PutExtends(DP.Run(k.machine.dcs, k.machine.log), c);
      }
    }
  }

  lemma {:induction false} FeedNoDelFirst(env: Env, log: seq<Event>, k: Cursor, codes: seq<Code>)
    requires Valid(k.machine) && NoDelFirst(log, k)
    ensures NoDelFirst(log, Feed(env, k, codes))
  {
    if codes != [] {
      FeedNoDelFirst(env, log, k, codes[..|codes| - 1]);
      AdvanceNoDelFirst(env, log, Feed(env, k, codes[..|codes| - 1]), codes[|codes| - 1]);
    }
  }

  // ---------------------------------------------------------------- the fallback is told

  /** A DEL is taken while nobody is registered for the string: whatever follows, the log has it where
      neither the table nor a parser that starts afresh has it. */
  lemma TakenDelShows(env: Env, j: Cursor, b: seq<Code>)
    requires Valid(j.machine) && b != [] && Swallows(j.machine.state, j.inPut, b[0]) && j.machine.dcs.active == []
    ensures var log := Feed(env, j, b).machine.log;
            && |log| > |j.machine.log| && IsDel(log[|j.machine.log|])
            && log != Run(env, j.machine, b).log
            && log != Feed(env, Cursor(j.machine, false), b).machine.log
  {
    assert b == [DEL] + b[1..];
    FeedConcat(env, j, [DEL], b[1..]);
    FeedOne(env, j, DEL);
    PutOneIs(DP.Run(j.machine.dcs, j.machine.log), DEL);
    FeedGrows(env, Advance(env, j, DEL), b[1..]);
    RunExtends(env, j.machine, b);
    FeedNoDelFirst(env, j.machine.log, Cursor(j.machine, false), b);
  }

  /** The first DEL that the put loop takes shows in the log for good when nobody is registered. */
  lemma SwallowShows(env: Env, m: Machine, codes: seq<Code>, p: nat)
    requires Valid(m) && p < |codes| && SwallowAt(m.state, codes, p) && !HasSwallow(m.state, codes[..p])
    requires Run(env, m, codes[..p]).dcs.active == []
    ensures Parsed(env, m, codes).log != Run(env, m, codes).log
  {
    var a, b := codes[..p], codes[p..];
    assert codes == a + b;
    RefinesUnlessSwallowed(env, m, a);
    FeedControl(env, Cursor(m, false), a);
    FeedConcat(env, Cursor(m, false), a, b);
    RunConcat(env, m, a, b);
    TakenDelShows(env, Feed(env, Cursor(m, false), a), b);
  }

  /** So does a cut between payload and a DEL. */
  lemma CutShows(env: Env, m: Machine, a: seq<Code>, b: seq<Code>)
    requires Valid(m) && CutsBeforeDel(m.state, a, b) && Parsed(env, m, a).dcs.active == []
    ensures Parsed(env, Parsed(env, m, a), b).log != Parsed(env, m, a + b).log
  {
    FeedConcat(env, Cursor(m, false), a, b);
    FeedControl(env, Cursor(m, false), a);
    TakenDelShows(env, Feed(env, Cursor(m, false), a), b);
  }

  // ---------------------------------------------------------------- a handler is given it

  function NoDel(codes: seq<Code>): (r: seq<Code>) {
    if codes == [] then []
    else NoDel(codes[..|codes| - 1]) + if codes[|codes| - 1] == DEL then [] else [codes[|codes| - 1]]
  }

  lemma {:induction false} NoDelUnits(codes: seq<Code>)
    ensures if DEL in codes then |Units(NoDel(codes))| < |Units(codes)| else NoDel(codes) == codes
  {
    if codes != [] {
      var front, last := codes[..|codes| - 1], codes[|codes| - 1];
      NoDelUnits(front);
      assert codes == front + [last];
      UnitsConcat(front, [last]);
      UnitsSingle(last);
      if last == DEL {
        assert NoDel(codes) == NoDel(front);
      } else {
        UnitsConcat(NoDel(front), [last]);
      }
    }
  }

  ghost predicate IsPayload(codes: seq<Code>) {
    codes != [] && codes[0] != DEL && forall i :: 0 <= i < |codes| ==> DcsReadsOn(codes[i])
  }

  /** The table hands over all payload but the DELs. */
  lemma {:induction false} RunPayload(env: Env, m: Machine, codes: seq<Code>)
    requires Valid(m) && m.state == DCS_PASSTHROUGH && forall i :: 0 <= i < |codes| ==> DcsReadsOn(codes[i])
    ensures Run(env, m, codes) == PutDcs(m, NoDel(codes))
  {
    if codes == [] {
      assert m.fed + [] == m.fed;
    } else {
      var front, last := codes[..|codes| - 1], codes[|codes| - 1];
      RunPayload(env, m, front);
      StepPayload(env, PutDcs(m, NoDel(front)), last);
      if last == DEL {
        assert NoDel(codes) == NoDel(front);
      } else {
        PutDcsConcat(m, NoDel(front), [last]);
      }
    }
  }

  lemma StepPayload(env: Env, m: Machine, c: Code)
    requires Valid(m) && m.state == DCS_PASSTHROUGH && DcsReadsOn(c)
    ensures Step(env, m, c) == if c == DEL then m else PutDcs(m, [c])
  {
  }

  lemma Collects(r: DP.Run, codes: seq<Code>)
    requires r.dcs.active != [] && codes != []
    ensures var r' := DP.PutAll(r, codes);
            r'.log == r.log && r'.dcs == r.dcs.(active := CollectAll(r.dcs.active, Units(codes)))
  {
    DP.PutSlice(r, codes);
  }

  /** The handler that is asked first, when it is below its limit. */
  lemma FirstAsked(env: Env, params: PL.List, active: seq<Collector>, log: seq<Event>, log': seq<Event>, call: Event)
    requires active != [] && !active[|active| - 1].hitLimit
    requires call == DcsCall(active[|active| - 1].handler, active[|active| - 1].text, params)
    requires log' == DP.Ask(env, params, active, |active|, log)
    ensures |log'| > |log| && log'[|log|] == call
  {
    DP.AskStep(env, params, active, |active|, log, call);
    AskDcsExtends(env, params, active, |active| - 1, log + [call]);
  }

  lemma StepEnds(env: Env, m: Machine, c: Code)
    requires Valid(m) && m.state == DCS_PASSTHROUGH && (c == 24 || c == 26 || c == 27 || c == 156)
    ensures Step(env, m, c) == UnhookDcs(env, m, c).(state := Move(DCS_PASSTHROUGH, c))
  {
    UnhookEntry(c);
    StepWith(env, m, c, Transition(DCS_UNHOOK, GROUND));
  }

  lemma UnhookEntry(c: Code)
    requires c == 24 || c == 26 || c == 27 || c == 156
    ensures EntryFor(DCS_PASSTHROUGH, c) == Transition(DCS_UNHOOK, GROUND)
  {
  }

  lemma StepWith(env: Env, m: Machine, c: Code, t: Transition)
    requires Valid(m) && t == EntryFor(m.state, c) && (t.action == PARAM ==> 48 <= c <= 59)
    ensures Step(env, m, c) == Perform(env, m, t.action, c).(state := Move(m.state, c))
  {
  }

  /** The string ends: what the handlers are asked with. */
  lemma EndsPayload(env: Env, m: Machine, codes: seq<Code>, c: Code)
    requires Valid(m) && m.state == DCS_PASSTHROUGH && m.dcs.active != [] && codes != []
    requires c == 24 || c == 26 || c == 27 || c == 156
    ensures var r := Step(env, PutDcs(m, codes), c);
            var active := CollectAll(m.dcs.active, Units(codes));
            && r == Cleared(m).(state := Move(DCS_PASSTHROUGH, c), dcs := DP.INITIAL,
                                fed := m.fed + codes, log := r.log)
            && r.log == if EndsWell(c) then DP.Ask(env, m.dcs.params, active, |active|, m.log) else m.log
  {
    Collects(DP.Run(m.dcs, m.log), codes);
    StepEnds(env, PutDcs(m, codes), c);
  }

  lemma NoDelKeepsFirst(codes: seq<Code>)
    requires codes != [] && codes[0] != DEL
    ensures NoDel(codes) != []
    decreases |codes|
  {
    if |codes| > 1 {
      NoDelKeepsFirst(codes[..|codes| - 1]);
    }
  }

  /** One string with its end, as the loops and as the table take it. */
  lemma BothEnd(env: Env, m: Machine, codes: seq<Code>, c: Code)
    requires Valid(m) && m.state == DCS_PASSTHROUGH && IsPayload(codes)
    requires c == 24 || c == 26 || c == 27 || c == 156
    ensures Parsed(env, m, codes + [c]) == Step(env, PutDcs(m, codes), c)
    ensures Run(env, m, codes + [c]) == Step(env, PutDcs(m, NoDel(codes)), c)
  {
    FeedDcsPut(env, Cursor(m, false), codes);
    FeedConcat(env, Cursor(m, false), codes, [c]);
    FeedOne(env, Feed(env, Cursor(m, false), codes), c);
    RunPayload(env, m, codes);
    assert (codes + [c])[..|codes|] == codes;
  }

  lemma CollectsAll(c: Collector, more: seq<Unit>, text: seq<Unit>)
    requires text == c.text + more && !c.hitLimit && |text| <= PAYLOAD_LIMIT
    ensures Collect(c, more) == Collector(c.handler, text, false)
  {
  }

  lemma EndsAsking(env: Env, m: Machine, codes: seq<Code>, c: Code, first: Collector, text: seq<Unit>, log: seq<Event>)
    requires Valid(m) && m.state == DCS_PASSTHROUGH && codes != [] && (c == 27 || c == 156)
    requires m.dcs.active != [] && first == m.dcs.active[|m.dcs.active| - 1]
    requires text == first.text + Units(codes) && !first.hitLimit && |text| <= PAYLOAD_LIMIT
    requires log == Step(env, PutDcs(m, codes), c).log
    ensures |log| > |m.log| && log[|m.log|] == DcsCall(first.handler, text, m.dcs.params)
  {
    var active := CollectAll(m.dcs.active, Units(codes));
    PayloadAsked(env, m, codes, c, active, log);
    AsksFirst(env, m.dcs.params, m.dcs.active, active, Units(codes), text, m.log, log);
  }

  lemma PayloadAsked(env: Env, m: Machine, codes: seq<Code>, c: Code, active: seq<Collector>, log: seq<Event>)
    requires Valid(m) && m.state == DCS_PASSTHROUGH && m.dcs.active != [] && codes != [] && (c == 27 || c == 156)
    requires active == CollectAll(m.dcs.active, Units(codes)) && log == Step(env, PutDcs(m, codes), c).log
    ensures log == DP.Ask(env, m.dcs.params, active, |active|, m.log)
  {
    EndsPayload(env, m, codes, c);
  }

  lemma AsksFirst(env: Env, params: PL.List, before: seq<Collector>, active: seq<Collector>, more: seq<Unit>,
                  text: seq<Unit>, log: seq<Event>, log': seq<Event>)
    requires before != [] && active == CollectAll(before, more)
    requires var first := before[|before| - 1];
             text == first.text + more && !first.hitLimit && |text| <= PAYLOAD_LIMIT
    requires log' == DP.Ask(env, params, active, |active|, log)
    ensures |log'| > |log| && log'[|log|] == DcsCall(before[|before| - 1].handler, text, params)
  {
    CollectsAll(before[|before| - 1], more, text);
    assert active[|active| - 1] == Collect(before[|before| - 1], more);
    FirstAsked(env, params, active, log, log', DcsCall(before[|before| - 1].handler, text, params));
  }

  /** The handler that is asked first is given the DELs that the table would drop. So what is called is
      the same exactly when there is none. */
  lemma HandlerHears(env: Env, m: Machine, codes: seq<Code>, c: Code, first: Collector)
    requires Valid(m) && m.state == DCS_PASSTHROUGH && IsPayload(codes) && (c == 27 || c == 156)
    requires m.dcs.active != [] && first == m.dcs.active[|m.dcs.active| - 1]
    requires !first.hitLimit && |first.text + Units(codes)| <= PAYLOAD_LIMIT
    ensures var parsed, run := Parsed(env, m, codes + [c]).log, Run(env, m, codes + [c]).log;
            && |parsed| > |m.log| && |run| > |m.log|
            && parsed[|m.log|] == DcsCall(first.handler, first.text + Units(codes), m.dcs.params)
            && run[|m.log|] == DcsCall(first.handler, first.text + Units(NoDel(codes)), m.dcs.params)
            && (parsed == run <==> DEL !in codes)
  {
    BothEnd(env, m, codes, c);
    NoDelUnits(codes);
    NoDelKeepsFirst(codes);
    EndsAsking(env, m, codes, c, first, first.text + Units(codes), Parsed(env, m, codes + [c]).log);
    var rest := NoDel(codes);
    EndsAsking(env, m, rest, c, first, first.text + Units(rest), Run(env, m, codes + [c]).log);
  }

  /** A string with handlers that CAN or SUB aborts takes its DELs along: no trace of them is left. */
  lemma AbortHides(env: Env, m: Machine, codes: seq<Code>, c: Code)
    requires Valid(m) && m.state == DCS_PASSTHROUGH && IsPayload(codes) && (c == 24 || c == 26)
    requires m.dcs.active != []
    ensures Parsed(env, m, codes + [c]).(fed := []) == Run(env, m, codes + [c]).(fed := [])
  {
    BothEnd(env, m, codes, c);
    NoDelKeepsFirst(codes);
    EndsPayload(env, m, codes, c);
    EndsPayload(env, m, NoDel(codes), c);
  }
}
