/** Device control strings (xterm.js module 6351): handlers are hooked with the parameters of the
    introducing sequence, fed the payload, and unhooked. */
module DcsParser {
  import opened Utf16
  import opened ParserEvents
  import PL = ParamList

  /** `active` are the handlers of the running string with what each has collected. */
  datatype Dcs = Dcs(ident: int, params: PL.List, active: seq<Collector>)

  /** `Params` with the single parameter 0. */
  const NO_PARAMS: PL.List := PL.List(PL.MAX_PARAMS, PL.MAX_SUB_PARAMS, [PL.Param(0, [])], false, false, false)

  const INITIAL := Dcs(0, NO_PARAMS, [])

  datatype Run = Run(dcs: Dcs, log: seq<Event>)

  /** The parameters a handler is given: a lone zero counts as none. */
  function HookParams(p: PL.List): PL.List {
    if |p.items| > 1 || (|p.items| == 1 && p.items[0].value != 0) then p else NO_PARAMS
  }

  function HookRun(env: Env, r: Run, ident: int, params: PL.List): Run {
    var active := FreshCollectors(Registered(env.dcs, ident));
    if active != [] then Run(Dcs(ident, HookParams(params), active), r.log)
    else Run(Dcs(ident, NO_PARAMS, []), r.log + [DcsHook(ident, params)])
  }

  function Deliver(r: Run, text: seq<Unit>): Run {
    if r.dcs.active != [] then Run(r.dcs.(active := CollectAll(r.dcs.active, text)), r.log)
    else Run(r.dcs, r.log + Split(DcsData(r.dcs.ident, text)))
  }

  function PutOne(r: Run, c: Code): Run { Deliver(r, UnitsOf(c)) }

  function PutAll(r: Run, codes: seq<Code>): Run {
    if codes == [] then r else PutOne(PutAll(r, codes[..|codes| - 1]), codes[|codes| - 1])
  }

  /** Handlers are asked last to first until one answers that it has dealt with the string. */
  function Ask(env: Env, params: PL.List, active: seq<Collector>, n: nat, log: seq<Event>): seq<Event>
    requires n <= |active|
  {
    if n == 0 then log
    else if active[n - 1].hitLimit then Ask(env, params, active, n - 1, log)
    else
      var call := DcsCall(active[n - 1].handler, active[n - 1].text, params);
      if env.accepts(log, call) then log + [call] else Ask(env, params, active, n - 1, log + [call])
  }

  function UnhookRun(env: Env, r: Run, success: bool): Run {
    Run(INITIAL,
        if r.dcs.active == [] then r.log + [DcsUnhook(r.dcs.ident, success)]
        else if success then Ask(env, r.dcs.params, r.dcs.active, |r.dcs.active|, r.log)
        else r.log)
  }

  lemma DeliverConcat(r: Run, a: seq<Unit>, b: seq<Unit>)
    ensures Deliver(Deliver(r, a), b) == Deliver(r, a + b)
  {
    CollectAllConcat(r.dcs.active, a, b);
    SplitDcsData(r.dcs.ident, a, b);
  }

  lemma {:induction false} PutAllConcat(r: Run, a: seq<Code>, b: seq<Code>)
    ensures PutAll(r, a + b) == PutAll(PutAll(r, a), b)
  {
    if b == [] {
      assert a + b == a;
    } else {
      PutAllConcat(r, a, b[..|b| - 1]);
      assert (a + b)[..|a + b| - 1] == a + b[..|b| - 1];
    }
  }

  /** A slice of payload may be handed over at once. */
  lemma {:induction false} PutSlice(r: Run, codes: seq<Code>)
    requires codes != []
    ensures PutAll(r, codes) == Deliver(r, Units(codes))
  {
    var n := |codes| - 1;
    if n == 0 {
      UnitsSingle(codes[0]);
      assert codes == [codes[0]];
      assert codes[..0] == [];
    } else {
      PutSlice(r, codes[..n]);
      DeliverConcat(r, Units(codes[..n]), UnitsOf(codes[n]));
    }
  }

  lemma AskStep(env: Env, given: PL.List, before: seq<Collector>, s: nat, seen: seq<Event>, call: Event)
    requires 0 < s <= |before| && call == DcsCall(before[s - 1].handler, before[s - 1].text, given)
    ensures Ask(env, given, before, s, seen)
            == if before[s - 1].hitLimit then Ask(env, given, before, s - 1, seen)
               else if env.accepts(seen, call) then seen + [call]
               else Ask(env, given, before, s - 1, seen + [call])
  {
  }

  // ---------------------------------------------------------------- the parser

  class DcsParser {
    var ident: int
    var params: PL.List
    var active: seq<Collector>

    ghost function View(): Dcs
      reads this
    {
      Dcs(ident, params, active)
    }

    constructor ()
      ensures View() == INITIAL
    {
      ident, params, active := 0, NO_PARAMS, [];
    }

    /** `reset`: an unfinished payload is dropped. */
    method Reset()
      modifies this
      ensures View() == INITIAL
    {
      if |active| != 0 {
        UnhookAll(|active|);
      }
      ident, params, active := 0, NO_PARAMS, [];
    }

    /** `unhook(false)` for the first `n` handlers, last to first: their text is discarded unseen. */
    method UnhookAll(n: nat)
      requires n <= |active|
      modifies this`active
      ensures |active| == old(|active|)
    {
      for e := n downto 0
        invariant |active| == old(|active|)
      {
        active := active[e := Collector(active[e].handler, [], false)];
      }
    }

    method Hook(env: Env, ident: int, params: PL.List, log: seq<Event>) returns (log': seq<Event>)
      modifies this
      ensures Run(View(), Flatten(log')) == HookRun(env, Run(old(View()), Flatten(log)), ident, params)
    {
      Reset();
      this.ident := ident;
      var handlers := Registered(env.dcs, ident);
      for e := |handlers| downto 0
        invariant active == FreshCollectors(handlers)[e..]
        invariant this.ident == ident
        invariant this.params == if e == |handlers| then NO_PARAMS else HookParams(params)
      {
        active := [Collector(handlers[e], [], false)] + active;
        this.params := HookParams(params);
      }
      log' := log;
      if |active| == 0 {
        log' := log + [DcsHook(ident, params)];
        FlattenOne(log, DcsHook(ident, params));
      }
    }

    /** `put(data, start, end)`. */
    method Put(data: seq<Code>, start: nat, end: nat, log: seq<Event>) returns (log': seq<Event>)
      requires start < end <= |data|
      modifies this
      ensures Run(View(), Flatten(log')) == PutAll(Run(old(View()), Flatten(log)), data[start..end])
    {
      var text := Utf32ToString(data, start, end);
      PutSlice(Run(View(), Flatten(log)), data[start..end]);
      log' := log;
      if |active| != 0 {
        ghost var before := active;
        for s := |active| downto 0
          invariant ident == old(ident) && params == old(params)
          invariant |active| == |before|
          invariant forall k :: 0 <= k < |before| ==> active[k] == if k < s then before[k] else Collect(before[k], text)
        {
          active := active[s := Collect(active[s], text)];
        }
        assert active == CollectAll(before, text);
      } else {
        log' := log + [DcsData(ident, text)];
        FlattenOne(log, DcsData(ident, text));
      }
    }

    /** `unhook(success)`. */
    method Unhook(env: Env, success: bool, log: seq<Event>) returns (log': seq<Event>)
      modifies this
      ensures Run(View(), Flatten(log')) == UnhookRun(env, Run(old(View()), Flatten(log)), success)
    {
      log' := log;
      if |active| != 0 {
        log' := UnhookHandlers(env, success, log);
      } else {
        log' := log + [DcsUnhook(ident, success)];
        FlattenOne(log, DcsUnhook(ident, success));
      }
      ident, params, active := 0, NO_PARAMS, [];
    }

    /** One handler, if it is to be asked. */
    static method AskOne(env: Env, c: Collector, given: PL.List, success: bool, log: seq<Event>,
                         ghost before: seq<Collector>, ghost s: nat, ghost seen: seq<Event>)
      returns (handled: bool, log': seq<Event>)
      requires 0 < s <= |before| && c == before[s - 1] && seen == Flatten(log)
      ensures success ==> Ask(env, given, before, s, seen)
                          == if handled then Flatten(log') else Ask(env, given, before, s - 1, Flatten(log'))
      ensures !success ==> !handled && log' == log
    {
      handled, log' := false, log;
      if success {
        var call := DcsCall(c.handler, c.text, given);
        AskStep(env, given, before, s, seen, call);
        if !c.hitLimit {
          FlattenCall(log, call, seen);
          handled := env.accepts(Flatten(log), call);
          log' := log + [call];
        }
      }
    }

    /** The two loops of `unhook`: ask until one accepts, then end the rest without success. */
    method UnhookHandlers(env: Env, success: bool, log: seq<Event>) returns (log': seq<Event>)
      modifies this`active
      ensures Flatten(log')
              == if success then Ask(env, params, old(active), |old(active)|, Flatten(log)) else Flatten(log)
    {
      log' := log;
      var given := params;
      ghost var before := active;
      var s := |active|;
      var handled := false;
      while s > 0 && !handled
        invariant 0 <= s <= |active| == |before| && forall k :: 0 <= k < s ==> active[k] == before[k]
        invariant success ==>
                    Ask(env, given, before, |before|, Flatten(log))
                    == if handled then Flatten(log') else Ask(env, given, before, s, Flatten(log'))
        invariant !success ==> log' == log
        decreases s, !handled
      {
        var c := active[s - 1];
        handled, log' := AskOne(env, c, given, success, log', before, s, Flatten(log'));
        active := active[s - 1 := Collector(c.handler, [], false)];
        s := s - 1;
      }
      UnhookAll(s);
    }
  }
}
