/** Operating system commands (xterm.js module 6242): a numeric identifier up to the first `;`, then a
    payload streamed to the handlers registered for the identifier. */
module OscParser {
  import opened Utf16
  import opened ParserEvents

  datatype Phase = Idle | Ident | Payload | Aborted

  /** `active` are the handlers of the running command with what each has collected. */
  datatype Osc = Osc(phase: Phase, id: int, active: seq<Collector>)

  const INITIAL := Osc(Idle, -1, [])

  /** A parser together with all that has been reported so far. */
  datatype Run = Run(osc: Osc, log: seq<Event>)

  // ---------------------------------------------------------------- one code point at a time

  /** The identifier is complete: handlers begin, or the fallback is told. */
  function Begin(env: Env, r: Run): Run {
    var active := FreshCollectors(Registered(env.osc, r.osc.id));
    Run(r.osc.(active := active), if active != [] then r.log else r.log + [OscStart(r.osc.id)])
  }

  function Deliver(r: Run, text: seq<Unit>): Run {
    if r.osc.active != [] then Run(r.osc.(active := CollectAll(r.osc.active, text)), r.log)
    else Run(r.osc, r.log + Split(OscData(r.osc.id, text)))
  }

  function PutOne(env: Env, r: Run, c: Code): Run {
    match r.osc.phase
    case Ident =>
      if c == 59 then Begin(env, r.(osc := r.osc.(phase := Payload)))
      else if c < 48 || 57 < c then r.(osc := r.osc.(phase := Aborted))
      else r.(osc := r.osc.(id := 10 * (if r.osc.id == -1 then 0 else r.osc.id) + c - 48))
    case Payload => Deliver(r, UnitsOf(c))
    case _ => r
  }

  function PutAll(env: Env, r: Run, codes: seq<Code>): Run {
    if codes == [] then r else PutOne(env, PutAll(env, r, codes[..|codes| - 1]), codes[|codes| - 1])
  }

  /** Handlers are asked last to first until one answers that it has dealt with the command. */
  function Ask(env: Env, active: seq<Collector>, n: nat, log: seq<Event>): seq<Event>
    requires n <= |active|
  {
    if n == 0 then log
    else if active[n - 1].hitLimit then Ask(env, active, n - 1, log)
    else
      var call := OscCall(active[n - 1].handler, active[n - 1].text);
      if env.accepts(log, call) then log + [call] else Ask(env, active, n - 1, log + [call])
  }

  function Finish(env: Env, r: Run, success: bool): Run {
    if r.osc.phase == Idle then r
    else if r.osc.phase == Aborted then Run(INITIAL, r.log)
    else
      var begun := if r.osc.phase == Ident then Begin(env, r) else r;
      Run(INITIAL,
          if begun.osc.active == [] then begun.log + [OscEnd(begun.osc.id, success)]
          else if success then Ask(env, begun.osc.active, |begun.osc.active|, begun.log)
          else begun.log)
  }

  // ---------------------------------------------------------------- laws

  lemma PutAllOneMore(env: Env, r: Run, codes: seq<Code>, n: nat)
    requires n < |codes|
    ensures PutAll(env, r, codes[..n + 1]) == PutOne(env, PutAll(env, r, codes[..n]), codes[n])
  {
    assert codes[..n + 1][..n] == codes[..n];
  }

  lemma {:induction false} PutAllConcat(env: Env, r: Run, a: seq<Code>, b: seq<Code>)
    ensures PutAll(env, r, a + b) == PutAll(env, PutAll(env, r, a), b)
  {
    if b == [] {
      assert a + b == a;
    } else {
      PutAllConcat(env, r, a, b[..|b| - 1]);
      assert (a + b)[..|a + b| - 1] == a + b[..|b| - 1];
    }
  }

  lemma DeliverConcat(r: Run, a: seq<Unit>, b: seq<Unit>)
    ensures Deliver(Deliver(r, a), b) == Deliver(r, a + b)
  {
    CollectAllConcat(r.osc.active, a, b);
    SplitOscData(r.osc.id, a, b);
  }

  /** Once the payload has begun, a slice may be handed over at once. */
  lemma {:induction false} PutSlice(env: Env, r: Run, codes: seq<Code>)
    requires r.osc.phase == Payload && codes != []
    ensures PutAll(env, r, codes) == Deliver(r, Units(codes))
  {
    var n := |codes| - 1;
    if n == 0 {
      UnitsSingle(codes[0]);
      assert codes == [codes[0]];
      assert codes[..0] == [];
    } else {
      PutSlice(env, r, codes[..n]);
      DeliverConcat(r, Units(codes[..n]), UnitsOf(codes[n]));
    }
  }

  lemma {:induction false} PutAborted(env: Env, r: Run, codes: seq<Code>)
    requires r.osc.phase == Aborted || r.osc.phase == Idle
    ensures PutAll(env, r, codes) == r
  {
    if codes != [] {
      PutAborted(env, r, codes[..|codes| - 1]);
    }
  }

  // ---------------------------------------------------------------- the parser

  class OscParser {
    var phase: Phase
    var id: int
    var active: seq<Collector>

    ghost function View(): Osc
      reads this
    {
      Osc(phase, id, active)
    }

    constructor ()
      ensures View() == INITIAL
    {
      phase, id, active := Idle, -1, [];
    }

    /** `reset`: an unfinished payload is dropped. */
    method Reset()
      modifies this
      ensures View() == INITIAL
    {
      if phase == Payload {
        EndAll(|active|);
      }
      active, id, phase := [], -1, Idle;
    }

    /** `end(false)` for the first `n` handlers, last to first: their text is discarded unseen. */
    method EndAll(n: nat)
      requires n <= |active|
      modifies this`active
      ensures |active| == old(|active|)
    {
      for e := n downto 0
        invariant |active| == old(|active|)
      {
        active := active[e := Collector(active[e].handler, [], false)];
      }
    }

    method Start()
      modifies this
      ensures View() == INITIAL.(phase := Ident)
    {
      Reset();
      phase := Ident;
    }

    /** `_start`. */
    method BeginHandlers(env: Env, log: seq<Event>) returns (log': seq<Event>)
      modifies this`active
      ensures Run(View(), Flatten(log')) == Begin(env, Run(old(View()), Flatten(log)))
    {
      active := [];
      var handlers := Registered(env.osc, id);
      for e := |handlers| downto 0
        invariant active == FreshCollectors(handlers)[e..]
      {
        active := [Collector(handlers[e], [], false)] + active;
      }
      log' := log;
      if |active| == 0 {
        log' := log + [OscStart(id)];
        FlattenOne(log, OscStart(id));
      }
    }

    /** `_put`. */
    method PutHandlers(data: seq<Code>, start: nat, end: nat, log: seq<Event>) returns (log': seq<Event>)
      requires start <= end <= |data|
      modifies this`active
      ensures Run(View(), Flatten(log')) == Deliver(Run(old(View()), Flatten(log)), Units(data[start..end]))
    {
      var text := Utf32ToString(data, start, end);
      log' := log;
      if |active| != 0 {
        ghost var before := active;
        for s := |active| downto 0
          invariant |active| == |before|
          invariant forall k :: 0 <= k < |before| ==> active[k] == if k < s then before[k] else Collect(before[k], text)
        {
          active := active[s := Collect(active[s], text)];
        }
        assert active == CollectAll(before, text);
      } else {
        log' := log + [OscData(id, text)];
        FlattenOne(log, OscData(id, text));
      }
    }

    /** `put(data, start, end)`. */
    method Put(env: Env, data: seq<Code>, start: nat, end: nat, log: seq<Event>) returns (log': seq<Event>)
      requires start <= end <= |data|
      modifies this
      ensures Run(View(), Flatten(log')) == PutAll(env, Run(old(View()), Flatten(log)), data[start..end])
    {
      log' := log;
      ghost var r0 := Run(View(), Flatten(log));
      var t := start;
      if phase == Ident {
        t, log' := PutIdent(env, data, start, end, log);
      }
      PutRest(env, r0, data[start..end], t - start);
      assert data[start..end][t - start..] == data[t..end];
      if phase == Payload {
        if end - t > 0 {
          PutSlice(env, Run(View(), Flatten(log')), data[t..end]);
          log' := PutHandlers(data, t, end, log');
        }
      } else if phase != Ident {
        PutAborted(env, Run(View(), Flatten(log')), data[t..end]);
      }
    }

    /** The digits up to `;`, or up to a code point that makes the command invalid. */
    method PutIdent(env: Env, data: seq<Code>, start: nat, end: nat, log: seq<Event>)
      returns (t: nat, log': seq<Event>)
      requires start <= end <= |data| && phase == Ident
      modifies this
      ensures start <= t <= end && (phase == Ident ==> t == end) && phase != Idle
      ensures Run(View(), Flatten(log'))
              == PutAll(env, Run(old(View()), Flatten(log)), data[start..end][..t - start])
    {
      ghost var r0, codes := Run(View(), Flatten(log)), data[start..end];
      log' := log;
      t := start;
      while t < end && phase == Ident
        invariant start <= t <= end && phase != Idle
        invariant phase == Ident ==> log' == log
        invariant Run(View(), Flatten(log')) == PutAll(env, r0, codes[..t - start])
        decreases end - t
      {
        PutAllOneMore(env, r0, codes, t - start);
        log' := PutCode(env, data[t], log');
        t := t + 1;
      }
    }

    /** `;` ends the identifier, digits go on with it. */
    method PutCode(env: Env, code: Code, log: seq<Event>) returns (log': seq<Event>)
      requires phase == Ident
      modifies this
      ensures phase != Idle && (phase == Ident ==> log' == log)
      ensures Run(View(), Flatten(log')) == PutOne(env, Run(old(View()), Flatten(log)), code)
    {
      log' := log;
      if code == 59 {
        phase := Payload;
        log' := BeginHandlers(env, log);
      } else if code < 48 || 57 < code {
        phase := Aborted;
      } else {
        if id == -1 {
          id := 0;
        }
        id := 10 * id + code - 48;
      }
    }

    lemma PutRest(env: Env, r: Run, codes: seq<Code>, n: nat)
      requires n <= |codes|
      ensures PutAll(env, r, codes) == PutAll(env, PutAll(env, r, codes[..n]), codes[n..])
    {
      PutAllConcat(env, r, codes[..n], codes[n..]);
      assert codes[..n] + codes[n..] == codes;
    }

    /** `end(success)`. */
    method End(env: Env, success: bool, log: seq<Event>) returns (log': seq<Event>)
      modifies this
      ensures Run(View(), Flatten(log')) == Finish(env, Run(old(View()), Flatten(log)), success)
    {
      log' := log;
      if phase == Idle {
        return;
      }
      if phase != Aborted {
        if phase == Ident {
          log' := BeginHandlers(env, log);
        }
        if |active| != 0 {
          log' := EndHandlers(env, success, log');
        } else {
          FlattenOne(log', OscEnd(id, success));
          log' := log' + [OscEnd(id, success)];
        }
      }
      active, id, phase := [], -1, Idle;
    }

    /** A handler is asked, unless its text has passed the limit. */
    static method AskOne(env: Env, c: Collector, ghost before: seq<Collector>, ghost n: nat, log: seq<Event>)
      returns (handled: bool, log': seq<Event>)
      requires 0 < n <= |before| && c == before[n - 1]
      ensures Ask(env, before, n, Flatten(log))
              == if handled then Flatten(log') else Ask(env, before, n - 1, Flatten(log'))
    {
      handled, log' := false, log;
      if !c.hitLimit {
        FlattenOne(log, OscCall(c.handler, c.text));
        handled := env.accepts(Flatten(log), OscCall(c.handler, c.text));
        log' := log + [OscCall(c.handler, c.text)];
      }
    }

    /** The two loops of `end`: ask until one accepts, then end the rest without success. */
    method EndHandlers(env: Env, success: bool, log: seq<Event>) returns (log': seq<Event>)
      modifies this`active
      ensures Flatten(log')
              == if success then Ask(env, old(active), |old(active)|, Flatten(log)) else Flatten(log)
    {
      log' := log;
      ghost var before := active;
      var s := |active|;
      var handled := false;
      while s > 0 && !handled
        invariant 0 <= s <= |active| == |before| && forall k :: 0 <= k < s ==> active[k] == before[k]
        invariant success ==>
                    Ask(env, before, |before|, Flatten(log))
                    == if handled then Flatten(log') else Ask(env, before, s, Flatten(log'))
        invariant !success ==> log' == log
        decreases s, !handled
      {
        var c := active[s - 1];
        if success {
          handled, log' := AskOne(env, c, before, s, log');
        }
        active := active[s - 1 := Collector(c.handler, [], false)];
        s := s - 1;
      }
      EndAll(s);
    }
  }
}
