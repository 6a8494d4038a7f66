/** What the parser tells the outside: calls of registered handlers and of fallbacks, in order. */
module ParserEvents {
  import opened Utf16
  import PL = ParamList

  type Handler = nat

  datatype Event =
    | Print(codes: seq<Code>)
    | Execute(code: Code)
    | ExecuteFallback(code: Code)
    | Error(code: Code, state: nat, collect: int, params: PL.List)
    | CsiCall(handler: Handler, params: PL.List)
    | CsiFallback(ident: int, params: PL.List)
    | EscCall(handler: Handler)
    | EscFallback(ident: int)
    | OscStart(id: int)
    | OscData(id: int, text: seq<Unit>)
    | OscEnd(id: int, success: bool)
    | OscCall(handler: Handler, text: seq<Unit>)
    | DcsHook(ident: int, params: PL.List)
    | DcsData(ident: int, text: seq<Unit>)
    | DcsUnhook(ident: int, success: bool)
    | DcsCall(handler: Handler, text: seq<Unit>, params: PL.List)

  /** The registered handlers, and what each answers: whether it has dealt with the sequence. The
      answer may depend on everything the outside has seen, but not on how text was cut up. */
  datatype Env = Env(
    execute: set<int>,
    csi: map<int, seq<Handler>>,
    esc: map<int, seq<Handler>>,
    osc: map<int, seq<Handler>>,
    dcs: map<int, seq<Handler>>,
    accepts: (seq<Event>, Event) -> bool)

  function Registered(handlers: map<int, seq<Handler>>, ident: int): seq<Handler> {
    if ident in handlers then handlers[ident] else []
  }

  /** Streamed text, one event per code point or code unit. */
  function Split(e: Event): seq<Event> {
    match e
    case Print(codes) => seq(|codes|, i requires 0 <= i < |codes| => Print([codes[i]]))
    case OscData(id, text) => seq(|text|, i requires 0 <= i < |text| => OscData(id, [text[i]]))
    case DcsData(ident, text) => seq(|text|, i requires 0 <= i < |text| => DcsData(ident, [text[i]]))
    case _ => [e]
  }

  /** A log without the boundaries between neighbouring pieces of streamed text. Two logs of
      non-empty pieces have the same `Flatten` when they are the same once such pieces are joined. */
  function Flatten(log: seq<Event>): seq<Event> {
    if log == [] then [] else Flatten(log[..|log| - 1]) + Split(log[|log| - 1])
  }

  lemma FlattenOne(log: seq<Event>, e: Event)
    ensures Flatten(log + [e]) == Flatten(log) + Split(e)
  {
    assert (log + [e])[..|log|] == log;
  }

  /** A call is never joined with what came before it. */
  lemma FlattenCall(log: seq<Event>, call: Event, seen: seq<Event>)
    requires seen == Flatten(log) && !call.Print? && !call.OscData? && !call.DcsData?
    ensures Flatten(log + [call]) == seen + [call]
  {
    FlattenOne(log, call);
  }

  lemma SplitPrint(a: seq<Code>, b: seq<Code>)
    ensures Split(Print(a + b)) == Split(Print(a)) + Split(Print(b))
  {
  }

  lemma SplitOscData(id: int, a: seq<Unit>, b: seq<Unit>)
    ensures Split(OscData(id, a + b)) == Split(OscData(id, a)) + Split(OscData(id, b))
  {
  }

  lemma SplitDcsData(ident: int, a: seq<Unit>, b: seq<Unit>)
    ensures Split(DcsData(ident, a + b)) == Split(DcsData(ident, a)) + Split(DcsData(ident, b))
  {
  }

  // ---------------------------------------------------------------- asking one after the other

  /** The calls are made in turn until one is accepted; where none is, `rest` is told. */
  ghost predicate InTurn(env: Env, calls: seq<Event>, rest: seq<Event>, before: seq<Event>, after: seq<Event>) {
    exists n | 0 <= n <= |calls| :: StopsAt(env, calls, rest, n, before, after)
  }

  /** The first `n` calls are refused, and the next one, if there is one, is accepted. */
  predicate StopsAt(env: Env, calls: seq<Event>, rest: seq<Event>, n: nat, before: seq<Event>, after: seq<Event>)
    requires n <= |calls|
  {
    && (forall k :: 0 <= k < n ==> !env.accepts(before + calls[..k], calls[k]))
    && if n < |calls| then env.accepts(before + calls[..n], calls[n]) && after == before + calls[..n + 1]
       else after == before + calls + rest
  }

  lemma NoneInTurn(env: Env, rest: seq<Event>, before: seq<Event>)
    ensures InTurn(env, [], rest, before, before + rest)
  {
    assert before + [] + rest == before + rest;
    assert StopsAt(env, [], rest, 0, before, before + rest);
  }

  lemma AcceptedInTurn(env: Env, calls: seq<Event>, rest: seq<Event>, before: seq<Event>)
    requires calls != [] && env.accepts(before, calls[0])
    ensures InTurn(env, calls, rest, before, before + [calls[0]])
  {
    assert before + calls[..0] == before && calls[..1] == [calls[0]];
    assert StopsAt(env, calls, rest, 0, before, before + [calls[0]]);
  }

  lemma RefusedInTurn(env: Env, call: Event, calls: seq<Event>, rest: seq<Event>, before: seq<Event>,
                      after: seq<Event>)
    requires !env.accepts(before, call) && InTurn(env, calls, rest, before + [call], after)
    ensures InTurn(env, [call] + calls, rest, before, after)
  {
    var n :| 0 <= n <= |calls| && StopsAt(env, calls, rest, n, before + [call], after);
    RefusedFirst(env, call, calls, [call] + calls, rest, n, before, before + [call], after);
    assert StopsAt(env, [call] + calls, rest, n + 1, before, after);
  }

  lemma OneEarlier(call: Event, calls: seq<Event>, all: seq<Event>, before: seq<Event>, k: nat)
    requires all == [call] + calls && k <= |calls|
    ensures before + all[..k + 1] == before + [call] + calls[..k]
  {
    assert all[..k + 1] == [call] + calls[..k];
  }

  lemma RefusedFirst(env: Env, call: Event, calls: seq<Event>, all: seq<Event>, rest: seq<Event>, n: nat,
                     before: seq<Event>, before': seq<Event>, after: seq<Event>)
    requires all == [call] + calls && before' == before + [call] && n <= |calls|
    requires !env.accepts(before, call) && StopsAt(env, calls, rest, n, before', after)
    ensures StopsAt(env, all, rest, n + 1, before, after)
  {
    forall k | 0 <= k < n + 1
      ensures !env.accepts(before + all[..k], all[k])
    {
      if k == 0 {
        assert before + all[..0] == before;
      } else {
        OneEarlier(call, calls, all, before, k - 1);
      }
    }
    OneEarlier(call, calls, all, before, n);
    if n < |calls| {
      OneEarlier(call, calls, all, before, n + 1);
    } else {
      assert before + all + rest == before' + calls + rest;
    }
  }

  // ---------------------------------------------------------------- payload of one handler

  const PAYLOAD_LIMIT: nat := 10000000

  /** The payload an `OscHandler` or `DcsHandler` has collected; past the limit it is given up. */
  datatype Collector = Collector(handler: Handler, text: seq<Unit>, hitLimit: bool)

  function Collect(c: Collector, text: seq<Unit>): Collector {
    if c.hitLimit then c
    else if |c.text + text| > PAYLOAD_LIMIT then Collector(c.handler, [], true)
    else c.(text := c.text + text)
  }

  function CollectAll(cs: seq<Collector>, text: seq<Unit>): (r: seq<Collector>)
    ensures |r| == |cs|
  {
    seq(|cs|, i requires 0 <= i < |cs| => Collect(cs[i], text))
  }

  function FreshCollectors(handlers: seq<Handler>): (r: seq<Collector>)
    ensures |r| == |handlers|
  {
    seq(|handlers|, i requires 0 <= i < |handlers| => Collector(handlers[i], [], false))
  }

  /** The limit applies to the total, whatever the pieces. */
  lemma CollectConcat(c: Collector, a: seq<Unit>, b: seq<Unit>)
    ensures Collect(Collect(c, a), b) == Collect(c, a + b)
  {
    assert c.text + (a + b) == c.text + a + b;
  }

  lemma CollectAllConcat(cs: seq<Collector>, a: seq<Unit>, b: seq<Unit>)
    ensures CollectAll(CollectAll(cs, a), b) == CollectAll(cs, a + b)
  {
    forall i | 0 <= i < |cs|
      ensures CollectAll(CollectAll(cs, a), b)[i] == CollectAll(cs, a + b)[i]
    {
      CollectConcat(cs[i], a, b);
    }
  }
}
