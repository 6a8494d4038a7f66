/** What the calls and the goroutines of the MATLAB process (internal/matlab/process.go) do when nothing
    comes in between: each is taken step by step, from any state, to where it has done its work. */
module LifecycleCalls {
  import opened Lifecycle

  /** `k` steps of thread `n`. */
  function Steps(n: nat, c: Choice, k: nat): seq<Label> { seq(k, i => Step(n, c)) }

  // ---------------------------------------------------------------- start and attach

  /** `Start`, when the status is down and there is a command: the status is "starting", the connector gone,
      and a goroutine of its own runs under a new context and a new channel. */
  lemma StartBegins(w: World, restart: bool, c: Choice)
    requires w.shared.status == Down && w.hasCommand
    ensures var v := RunOn(w, [CallStart(restart)] + Steps(|w.threads|, c, 3));
            && v.shared == Shared(Starting, None, w.shared.attached, w.shared.matlabCmd, false)
            && v.cancel == Some(w.runs) && v.done == w.runs && v.runs == w.runs + 1
            && v.threads == w.threads + [Finished] + [Run(w.runs)] && v.log == w.log
  {
    LeadsNowhere(w);
    var labels, v := TakeCall(w, [], w, CallStart(restart));
    var e := Goes(v, StartCancel(v.runs)).(shared := StartCommitted(v.shared), runs := v.runs + 1);
    labels, v := TakeStart(w, labels, v, w.threads, StartCall(restart), c, e);
    labels, v := Launches(w, labels, v, w.threads, w.runs, c);
    assert labels == [CallStart(restart)] + Steps(|w.threads|, c, 3);
    LeadsIsRun(w, labels, v);
  }

  lemma Launches(from: World, before: seq<Label>, v: World, rest: seq<Thread>, run: nat, c: Choice)
    returns (labels: seq<Label>, w: World)
    requires Standing(from, before, v, rest, StartCancel(run))
    ensures labels == before + [Step(|rest|, c)] + [Step(|rest|, c)]
    ensures Standing(from, labels, w, rest + [Finished], Run(run))
    ensures w.shared == v.shared && w.cancel == Some(run) && w.done == run && w.runs == v.runs && w.log == v.log
  {
    var e := Goes(v, StartDone(run)).(cancel := Some(run));
    labels, w := TakeStart(from, before, v, rest, StartCancel(run), c, e);
    e := Goes(w, Finished).(done := run, begins := [Run(run)]);
    labels, w := TakeStart(from, labels, w, rest, StartDone(run), c, e);
  }

  /** The call has come and gone, and nothing else has changed. */
  predicate ComesToNothing(w: World, v: World) { v == w.(threads := w.threads + [Finished]) }

  /** `Start` does nothing when there is no command, or when the status is not down and it is not to restart. */
  lemma StartRefused(w: World, restart: bool, c: Choice)
    requires if w.shared.status == Down then !w.hasCommand else !restart
    ensures ComesToNothing(w, RunOn(w, [CallStart(restart)] + Steps(|w.threads|, c, 1)))
  {
    LeadsNowhere(w);
    var labels, v := TakeCall(w, [], w, CallStart(restart));
    labels, v := Ends(w, labels, v, w.threads, StartCall(restart), c);
    assert labels == [CallStart(restart)] + Steps(|w.threads|, c, 1);
    LeadsIsRun(w, labels, v);
  }

  lemma Ends(from: World, before: seq<Label>, v: World, rest: seq<Thread>, top: Thread, c: Choice)
    returns (labels: seq<Label>, w: World)
    requires Standing(from, before, v, rest, top) && IsStart(top) && StepStart(v, top) == Goes(v, Finished)
    ensures labels == before + [Step(|rest|, c)] && Leads(from, labels, w) && w == v.(threads := rest + [Finished])
  {
    labels, w := TakeStart(from, before, v, rest, top, c, Goes(v, Finished));
    assert w.log == v.log && w.cancelled == v.cancelled && w.closed == v.closed && w.attaches == v.attaches;
  }

  /** `Start` that is to restart stops what there is first, by force exactly when a `Stop` is stuck. */
  lemma RestartStops(w: World, c: Choice)
    requires w.shared.status != Down
    ensures var v := RunOn(w, [CallStart(true)] + Steps(|w.threads|, c, 2));
            && v.log == w.log + [Begins(w, w.shared.status == Stopping)] && v.shared == w.shared.(status := Stopping)
            && |v.threads| == |w.threads| + 1 && v.threads[|w.threads|].StopDecide?
            && v.threads[|w.threads|].stop.restart
  {
    LeadsNowhere(w);
    var labels, v := TakeCall(w, [], w, CallStart(true));
    var force := w.shared.status == Stopping;
    labels, v := TakeStart(w, labels, v, w.threads, StartCall(true), c, Goes(v, StopCall(force, true)));
    labels, v := RestartReads(w, labels, v, w.threads, force, c, Stop(force, true, StopBegun(w.shared).1, |w.log|));
    assert labels == [CallStart(true)] + Steps(|w.threads|, c, 2);
    LeadsIsRun(w, labels, v);
  }

  lemma RestartReads(from: World, before: seq<Label>, v: World, rest: seq<Thread>, force: bool, c: Choice, stop: Stop)
    returns (labels: seq<Label>, w: World)
    requires Standing(from, before, v, rest, StopCall(force, true)) && v.shared.status != Down
    requires stop == Stop(force, true, StopBegun(v.shared).1, |v.log|)
    ensures labels == before + [Step(|rest|, c)] && Standing(from, labels, w, rest, StopDecide(stop))
    ensures w.log == v.log + [StopBegan(force, stop.seen)] && w.shared == v.shared.(status := Stopping)
  {
    var e := Goes(v, StopDecide(stop)).(shared := StopBegun(v.shared).0, logs := [StopBegan(force, stop.seen)]);
    labels, w := TakeStop(from, before, v, rest, StopCall(force, true), c, e);
  }

  /** And starts when that `Stop` is over, even if it has only given up waiting. */
  lemma RestartStarts(w: World, rest: seq<Thread>, t: Thread, c: Choice)
    requires w.threads == rest + [t] && w.hasCommand && IsWait(t) && t.stop.restart
    requires t.on.Some? && ((c.TimesOut? && !t.StopExitWait?) || (c.Closed? && t.on.value in w.closed))
    ensures var v := RunOn(w, Steps(|rest|, c, 4));
            && v.shared.status == Starting && v.shared.connector == None
            && v.threads == rest + [Finished] + [Run(w.runs)]
            && v.cancel == Some(w.runs) && v.done == w.runs && v.log == w.log + [Returned(t.stop.began)]
  {
    var labels, v := StopIsOver(w, rest, t, c);
    var e := Goes(v, StartCancel(v.runs)).(shared := StartCommitted(v.shared), runs := v.runs + 1);
    labels, v := TakeStart(w, labels, v, rest, StartCommit, c, e);
    labels, v := Launches(w, labels, v, rest, w.runs, c);
    assert labels == Steps(|rest|, c, 4);
    LeadsIsRun(w, labels, v);
  }

  lemma StopIsOver(v: World, rest: seq<Thread>, t: Thread, c: Choice) returns (labels: seq<Label>, w: World)
    requires v.threads == rest + [t] && IsWait(t) && t.stop.restart
    requires t.on.Some? && ((c.TimesOut? && !t.StopExitWait?) || (c.Closed? && t.on.value in v.closed))
    ensures labels == [Step(|rest|, c)] && Standing(v, labels, w, rest, StartCommit)
    ensures w.log == v.log + [Returned(t.stop.began)] && w.runs == v.runs && w.hasCommand == v.hasCommand
  {
    var e := StepWait(v, t, c);
    GoesOver(v, t, c, e);
    LeadsNowhere(v);
    labels, w := TakeWait(v, [], v, rest, t, c, e);
  }

  lemma GoesOver(v: World, t: Thread, c: Choice, e: Effect)
    requires IsWait(t) && t.stop.restart && e == StepWait(v, t, c)
    requires t.on.Some? && ((c.TimesOut? && !t.StopExitWait?) || (c.Closed? && t.on.value in v.closed))
    ensures e.thread == StartCommit && e.begins == [] && e.logs == [Returned(t.stop.began)] && e.runs == v.runs
  {
  }

  /** `Attach`, when the status is down: the status is "starting", `attached` is set for good, and a goroutine
      runs under a new context and channel. */
  lemma AttachBegins(w: World, c: Choice)
    requires w.shared.status == Down
    ensures var v := RunOn(w, [CallAttach] + Steps(|w.threads|, c, 3));
            && v.shared == Shared(Starting, w.shared.connector, true, w.shared.matlabCmd, w.shared.busy)
            && v.cancel == Some(w.runs) && v.done == w.runs && v.runs == w.runs + 1
            && v.threads == w.threads + [Finished] + [RunAttached(w.runs)] && v.log == w.log + [DidAttach]
  {
    var rest, run := w.threads, w.runs;
    LeadsNowhere(w);
    var labels, v := TakeCall(w, [], w, CallAttach);
    var e := Goes(v, AttachCancel(run))
      .(shared := AttachBegun(v.shared), runs := run + 1, attaches := {run}, logs := [DidAttach]);
    labels, v := TakeStart(w, labels, v, rest, AttachCall, c, e);
    e := Goes(v, AttachDone(run)).(cancel := Some(run));
    labels, v := TakeStart(w, labels, v, rest, AttachCancel(run), c, e);
    e := Goes(v, Finished).(done := run, begins := [RunAttached(run)]);
    labels, v := TakeStart(w, labels, v, rest, AttachDone(run), c, e);
    assert labels == [CallAttach] + Steps(|rest|, c, 3);
    LeadsIsRun(w, labels, v);
  }

  lemma AttachRefused(w: World, c: Choice)
    requires w.shared.status != Down
    ensures ComesToNothing(w, RunOn(w, [CallAttach] + Steps(|w.threads|, c, 1)))
  {
    LeadsNowhere(w);
    var labels, v := TakeCall(w, [], w, CallAttach);
    labels, v := Ends(w, labels, v, w.threads, AttachCall, c);
    assert labels == [CallAttach] + Steps(|w.threads|, c, 1);
    LeadsIsRun(w, labels, v);
  }

  // ---------------------------------------------------------------- the goroutines

  /** A spawned run whose port is found and whose ping is answered: the status is up with a connector of that
      run, and a poller begins. */
  lemma RunConnects(w: World, rest: seq<Thread>, run: nat, ch: nat)
    requires w.threads == rest + [WaitPort(run, ch)]
    ensures var n := |rest|;
            var v := RunOn(w, [Step(n, Proceeds)] + [Step(n, Alive)] + [Step(n, Proceeds)]);
            && v.shared == w.shared.(status := Up, connector := Some(Spawned(run)))
            && v.threads == rest + [WaitExit(run, ch)] + [Poll(run)] && v.log == w.log
  {
    LeadsNowhere(w);
    var labels, v := TakeRun(w, [], w, rest, WaitPort(run, ch), Proceeds, Goes(w, WaitPing(run, ch)));
    labels, v := TakeRun(w, labels, v, rest, WaitPing(run, ch), Alive, Goes(v, Pinged(run, ch)));
    var e := Goes(v, WaitExit(run, ch)).(shared := Connected(v.shared, Spawned(run)), begins := [Poll(run)]);
    labels, v := TakeRun(w, labels, v, rest, Pinged(run, ch), Proceeds, e);
    assert [] + [Step(|rest|, Proceeds)] == [Step(|rest|, Proceeds)];
    LeadsIsRun(w, labels, v);
  }

  /** An attach whose ping is answered: the status is up with a connector to someone else's process. */
  lemma AttachConnects(w: World, rest: seq<Thread>, run: nat, ch: nat)
    requires w.threads == rest + [AttachWait(run, ch)]
    ensures var n := |rest|;
            var v := RunOn(w, [Step(n, Alive)] + [Step(n, Proceeds)]);
            && v.shared == w.shared.(status := Up, connector := Some(External(run)))
            && v.threads == rest + [Monitor(run, ch, 0)] && v.log == w.log
  {
    LeadsNowhere(w);
    var labels, v := TakeAttached(w, [], w, rest, AttachWait(run, ch), Alive, Goes(w, AttachPinged(run, ch)));
    var e := Goes(v, Monitor(run, ch, 0)).(shared := Connected(v.shared, External(run)));
    labels, v := TakeAttached(w, labels, v, rest, AttachPinged(run, ch), Proceeds, e);
    assert [] + [Step(|rest|, Alive)] == [Step(|rest|, Alive)];
    LeadsIsRun(w, labels, v);
  }

  /** When the command of a run exits, the run goes down, forgets command and connector, and closes its
      channel; whether the exit was an error or not. */
  lemma RunEnds(w: World, rest: seq<Thread>, run: nat, ch: nat, c: Choice)
    requires w.threads == rest + [WaitExit(run, ch)] && DidSpawn(run) in w.log
    ensures var v := RunOn(w, [ProcessExit(run)] + Steps(|rest|, c, 3));
            && v.shared == Shared(Down, None, w.shared.attached, None, false)
            && v.threads == rest + [Finished] && v.closed == w.closed + {ch}
  {
    LeadsNowhere(w);
    var labels, v := [] + [ProcessExit(run)], w.(exited := w.exited + {run});
    LeadsMore(w, [], w, ProcessExit(run), v);
    labels, v := CleansUp(w, labels, v, rest, run, ch, c);
    var e := Goes(v, Finished).(closes := {ch});
    labels, v := TakeEnd(w, labels, v, rest, Closing(ch), c, e);
    assert labels == [ProcessExit(run)] + Steps(|rest|, c, 3);
    LeadsIsRun(w, labels, v);
  }

  lemma CleansUp(from: World, before: seq<Label>, v: World, rest: seq<Thread>, run: nat, ch: nat, c: Choice)
    returns (labels: seq<Label>, w: World)
    requires Standing(from, before, v, rest, WaitExit(run, ch)) && run in v.exited
    ensures labels == before + [Step(|rest|, c)] + [Step(|rest|, c)] && Standing(from, labels, w, rest, Closing(ch))
    ensures w.shared == Shared(Down, None, v.shared.attached, None, false) && w.closed == v.closed
  {
    var failed := c.Fails? && run !in v.cancelled;
    var e := Goes(v, CleanUp(run, ch)).(shared := if failed then Failed(v.shared) else v.shared);
    labels, w := TakeEnd(from, before, v, rest, WaitExit(run, ch), c, e);
    e := Goes(w, Closing(ch)).(shared := RunEnded(w.shared));
    labels, w := TakeEnd(from, labels, w, rest, CleanUp(run, ch), c, e);
  }

  /** `k` polls in a row without an answer. */
  function Silence(n: nat, k: nat): seq<Label> {
    if k == 0 then [] else Silence(n, k - 1) + [Step(n, Proceeds)] + [Step(n, Unreachable)]
  }

  /** After `k` of them the monitor still goes on; the fields are as at first, with the status not busy. */
  predicate Listens(w: World, v: World, rest: seq<Thread>, run: nat, ch: nat, k: nat) {
    v.threads == rest + [Monitor(run, ch, k)]
    && v.shared == if k == 0 then w.shared else w.shared.(busy := false)
  }

  lemma {:induction false} ListensOn(w: World, rest: seq<Thread>, run: nat, ch: nat, k: nat) returns (v: World)
    requires w.threads == rest + [Monitor(run, ch, 0)] && w.shared.connector.Some? && k < 5
    ensures Leads(w, Silence(|rest|, k), v) && Listens(w, v, rest, run, ch, k)
  {
    if k == 0 {
      v := w;
      LeadsNowhere(w);
    } else {
      v := ListensOn(w, rest, run, ch, k - 1);
      var labels;
      labels, v := HearsNothing(w, Silence(|rest|, k - 1), v, rest, run, ch, k - 1);
    }
  }

  /** The monitor of an attached process keeps on through four polls without an answer. */
  lemma MonitorKeepsOn(w: World, rest: seq<Thread>, run: nat, ch: nat, k: nat)
    requires w.threads == rest + [Monitor(run, ch, 0)] && w.shared.connector.Some? && k < 5
    ensures Listens(w, RunOn(w, Silence(|rest|, k)), rest, run, ch, k)
  {
    var v := ListensOn(w, rest, run, ch, k);
    LeadsIsRun(w, Silence(|rest|, k), v);
  }

  lemma HearsNothing(from: World, before: seq<Label>, v: World, rest: seq<Thread>, run: nat, ch: nat, failures: nat)
    returns (labels: seq<Label>, w: World)
    requires Standing(from, before, v, rest, Monitor(run, ch, failures)) && v.shared.connector.Some? && failures < 4
    ensures labels == before + [Step(|rest|, Proceeds)] + [Step(|rest|, Unreachable)]
    ensures Standing(from, labels, w, rest, Monitor(run, ch, failures + 1))
    ensures w.shared == v.shared.(busy := false)
  {
    var t := MonitorRead(run, ch, failures);
    labels, w := TakeAttached(from, before, v, rest, Monitor(run, ch, failures), Proceeds, Goes(v, t));
    var e := Goes(w, Monitor(run, ch, failures + 1)).(shared := w.shared.(busy := false));
    labels, w := TakeAttached(from, labels, w, rest, t, Unreachable, e);
  }

  /** At the fifth in a row it detaches: the status is down and the connector gone. */
  lemma MonitorDetaches(w: World, rest: seq<Thread>, run: nat, ch: nat)
    requires w.threads == rest + [Monitor(run, ch, 0)] && w.shared.connector.Some?
    ensures var v := RunOn(w, Silence(|rest|, 5));
            && v.threads == rest + [Closing(ch)]
            && v.shared == Shared(Down, None, w.shared.attached, w.shared.matlabCmd, false)
  {
    var v := ListensOn(w, rest, run, ch, 4);
    var labels := Silence(|rest|, 4);
    labels, v := TakeAttached(w, labels, v, rest, Monitor(run, ch, 4), Proceeds, Goes(v, MonitorRead(run, ch, 4)));
    var e := Goes(v, Closing(ch)).(shared := Disconnected(v.shared));
    labels, v := TakeAttached(w, labels, v, rest, MonitorRead(run, ch, 4), Unreachable, e);
    LeadsIsRun(w, labels, v);
  }

  /** A busy status in between, and it counts from zero again; where only a ping is answered, it counts on. */
  lemma MonitorForgives(w: World, rest: seq<Thread>, run: nat, ch: nat, k: nat, c: Choice)
    requires w.threads == rest + [Monitor(run, ch, 0)] && w.shared.connector.Some? && k < 5 && (c.Known? || c.Alive?)
    ensures var v := RunOn(w, Silence(|rest|, k) + [Step(|rest|, Proceeds)] + [Step(|rest|, c)]);
            && v.threads == rest + [Monitor(run, ch, if c.Known? then 0 else k)]
            && v.shared == w.shared.(busy := c.Known? || (w.shared.busy && k == 0))
  {
    var v := ListensOn(w, rest, run, ch, k);
    var labels := Silence(|rest|, k);
    labels, v := TakeAttached(w, labels, v, rest, Monitor(run, ch, k), Proceeds, Goes(v, MonitorRead(run, ch, k)));
    var e := Goes(v, Monitor(run, ch, if c.Known? then 0 else k))
      .(shared := v.shared.(busy := c.Known? || v.shared.busy));
    labels, v := TakeAttached(w, labels, v, rest, MonitorRead(run, ch, k), c, e);
    LeadsIsRun(w, labels, v);
  }

  /** A poll that is answered brings a busy status, and one that not even a ping answers takes it away;
      where only the ping is answered it stays what it was. */
  lemma PollTells(w: World, rest: seq<Thread>, run: nat, c: Choice)
    requires w.threads == rest + [Poll(run)] && w.shared.connector.Some?
    ensures var v := RunOn(w, [Step(|rest|, Proceeds)] + [Step(|rest|, c)]);
            && v.threads == w.threads && v.log == w.log
            && v.shared == w.shared.(busy := c.Known? || (w.shared.busy && !c.Unreachable?))
  {
    LeadsNowhere(w);
    var labels, v := TakeEnd(w, [], w, rest, Poll(run), Proceeds, Goes(w, PollRead(run)));
    var busy := c.Known? || (w.shared.busy && !c.Unreachable?);
    labels, v := TakeEnd(w, labels, v, rest, PollRead(run), c, Goes(v, Poll(run)).(shared := v.shared.(busy := busy)));
    assert labels == [Step(|rest|, Proceeds)] + [Step(|rest|, c)];
    LeadsIsRun(w, labels, v);
  }

  /** It ends with the connector or the context. */
  lemma PollEnds(w: World, rest: seq<Thread>, run: nat, c: Choice)
    requires w.threads == rest + [Poll(run)]
    requires (c.Proceeds? && w.shared.connector.None?) || (c.Cancelled? && run in w.cancelled)
    ensures RunOn(w, Steps(|rest|, c, 1)) == w.(threads := rest + [Finished])
  {
    LeadsNowhere(w);
    var labels, v := TakeEnd(w, [], w, rest, Poll(run), c, Goes(w, Finished));
    assert v.log == w.log && v.cancelled == w.cancelled && v.closed == w.closed && v.attaches == w.attaches;
    assert labels == Steps(|rest|, c, 1);
    LeadsIsRun(w, labels, v);
  }

  /** A run that cannot prepare its command, or whose context is cancelled before it, starts none: the status
      is down and the channel closed. So with an attach that nobody answers. */
  lemma GivesUpEarly(w: World, rest: seq<Thread>, t: Thread, run: nat, ch: nat, c: Choice)
    requires w.threads == rest + [t]
    requires (t == Setup(run, ch) && (c.Fails? || run in w.cancelled))
             || (t == AttachWait(run, ch) && (c.TimesOut? || (c.Cancelled? && run in w.cancelled)))
    ensures var v := RunOn(w, Steps(|rest|, c, 2));
            && v.shared == w.shared.(status := Down) && v.log == w.log
            && v.threads == rest + [Finished] && v.closed == w.closed + {ch}
  {
    LeadsNowhere(w);
    var e := Goes(w, Closing(ch)).(shared := w.shared.(status := Down));
    var labels, v := EndsEarly(w, rest, t, run, ch, c, e);
    labels, v := TakeEnd(w, labels, v, rest, Closing(ch), c, Goes(v, Finished).(closes := {ch}));
    assert labels == Steps(|rest|, c, 2);
    LeadsIsRun(w, labels, v);
  }

  lemma EndsEarly(w: World, rest: seq<Thread>, t: Thread, run: nat, ch: nat, c: Choice, e: Effect)
    returns (labels: seq<Label>, v: World)
    requires Standing(w, [], w, rest, t) && e == Goes(w, Closing(ch)).(shared := w.shared.(status := Down))
    requires (t == Setup(run, ch) && (c.Fails? || run in w.cancelled))
             || (t == AttachWait(run, ch) && (c.TimesOut? || (c.Cancelled? && run in w.cancelled)))
    ensures Taken(w, [], w, rest, c, e, labels, v)
  {
    if t.Setup? {
      labels, v := TakeRun(w, [], w, rest, t, c, e);
    } else {
      labels, v := TakeAttached(w, [], w, rest, t, c, e);
    }
  }

  /** A MATLAB that does not come up in time is given up, but not ended: the status is down, and the run
      waits for the command to exit. */
  lemma TimesOutComingUp(w: World, rest: seq<Thread>, t: Thread, run: nat, ch: nat)
    requires w.threads == rest + [t] && (t == WaitPort(run, ch) || t == WaitPing(run, ch))
    ensures RunOn(w, Steps(|rest|, TimesOut, 1))
            == w.(shared := w.shared.(status := Down), threads := rest + [WaitExit(run, ch)])
  {
    LeadsNowhere(w);
    var e := Goes(w, WaitExit(run, ch)).(shared := w.shared.(status := Down));
    var labels, v := TakeRun(w, [], w, rest, t, TimesOut, e);
    assert v.log == w.log && v.cancelled == w.cancelled && v.closed == w.closed && v.attaches == w.attaches;
    assert labels == Steps(|rest|, TimesOut, 1);
    LeadsIsRun(w, labels, v);
  }

  /** A wait of `Stop` that is over: after detaching the status is down and the connector gone in any case;
      else the fields are left to the run that ends, and are down where that did not happen in time. */
  lemma StopReturns(w: World, rest: seq<Thread>, t: Thread, c: Choice)
    requires w.threads == rest + [t] && IsWait(t) && !t.stop.restart && t.on.Some?
    requires (c.Closed? && t.on.value in w.closed) || (c.TimesOut? && !t.StopExitWait?)
    ensures var v := RunOn(w, Steps(|rest|, c, 1));
            && v.threads == rest + [Finished] && v.log == w.log + [Returned(t.stop.began)]
            && v.shared == if t.StopDetachWait? then w.shared.(status := Down, connector := None, busy := false)
                           else if c.TimesOut? then w.shared.(status := Down)
                           else w.shared
  {
    LeadsNowhere(w);
    var shared := if t.StopDetachWait? then w.shared.(status := Down, connector := None, busy := false)
              else if c.TimesOut? then w.shared.(status := Down)
              else w.shared;
    var labels, v := TakeWait(w, [], w, rest, t, c, Return(w, t.stop, shared));
    assert labels == Steps(|rest|, c, 1);
    LeadsIsRun(w, labels, v);
  }

  // ---------------------------------------------------------------- from start to stop

  /** `Start` alone, from a state that is down: MATLAB is started, found and answers. */
  lemma StartComesUp(from: World) returns (labels: seq<Label>, w: World)
    requires from.shared.status == Down && from.hasCommand && Numbered(from)
    ensures var run := from.runs;
            && Leads(from, labels, w)
            && w.shared == Shared(Up, Some(Spawned(run)), from.shared.attached, Some(run), false)
            && w.threads == from.threads + [Finished] + [WaitExit(run, run)] + [Poll(run)]
            && w.log == from.log + [DidSpawn(run)] && w.done == run && w.closed == from.closed
  {
    var run, rest, ch := from.runs, from.threads + [Finished], 0;
    labels, w := Started(from);
    labels, w, ch := Spawns(from, labels, w, run, rest);
    labels, w := Pings(from, labels, w, run, ch, rest);
    var e := Goes(w, WaitExit(run, ch)).(shared := Connected(w.shared, Spawned(run)), begins := [Poll(run)]);
    labels, w := TakeRun(from, labels, w, rest, Pinged(run, ch), Proceeds, e);
  }

  /** A step of a thread with others above it. */
  lemma TakeAmid(from: World, labels: seq<Label>, w: World, rest: seq<Thread>, t: Thread, above: seq<Thread>, c: Choice,
                 e: Effect)
    returns (labels': seq<Label>, w': World)
    requires Leads(from, labels, w) && w.threads == rest + [t] + above && IsEnd(t) && e == StepEnd(w, t, c)
    requires e.begins == []
    ensures Leads(from, labels', w') && w'.threads == rest + [e.thread] + above
    ensures w'.shared == e.shared && w'.log == w.log + e.logs
    ensures w'.exited == w.exited && w'.closed == w.closed + e.closes
  {
    NextIs(w, |rest|, c, t, e);
    labels', w' := labels + [Step(|rest|, c)], Perform(w, |rest|, e);
    LeadsMore(from, labels, w, Step(|rest|, c), w');
    assert (rest + [t] + above)[|rest| := e.thread] == rest + [e.thread] + above;
  }

  /** Its command exits, and the run cleans up, while others wait. */
  lemma ExitsAmid(from: World, before: seq<Label>, v: World, rest: seq<Thread>, run: nat, ch: nat, above: seq<Thread>)
    returns (labels: seq<Label>, w: World)
    requires Leads(from, before, v) && v.threads == rest + [WaitExit(run, ch)] + above && DidSpawn(run) in v.log
    ensures Leads(from, labels, w) && w.threads == rest + [Finished] + above && w.log == v.log
    ensures w.shared == Shared(Down, None, v.shared.attached, None, false) && w.closed == v.closed + {ch}
  {
    labels, w := before + [ProcessExit(run)], v.(exited := v.exited + {run});
    LeadsMore(from, before, v, ProcessExit(run), w);
    labels, w := TakeAmid(from, labels, w, rest, WaitExit(run, ch), above, Proceeds, Goes(w, CleanUp(run, ch)));
    var e := Goes(w, Closing(ch)).(shared := RunEnded(w.shared));
    labels, w := TakeAmid(from, labels, w, rest, CleanUp(run, ch), above, Proceeds, e);
    e := Goes(w, Finished).(closes := {ch});
    labels, w := TakeAmid(from, labels, w, rest, Closing(ch), above, Proceeds, e);
  }

  /** It asks MATLAB to exit, and waits for the channel of the run. */
  lemma AsksGently(from: World, before: seq<Label>, v: World, run: nat, ch: nat, stop: Stop)
    returns (labels: seq<Label>, w: World)
    requires Leads(from, before, v) && stop == Stop(false, false, StopBegun(v.shared).1, |v.log|)
    requires v.shared == Shared(Up, Some(Spawned(run)), false, Some(run), v.shared.busy) && v.done == ch
    ensures Standing(from, labels, w, v.threads, StopExitWait(stop, Some(ch))) && w.closed == v.closed
    ensures w.log == v.log + [Begins(v, false)] + [SentExit(|v.log|, Spawned(run), true)]
    ensures w.shared.attached == v.shared.attached
  {
    labels, w := StopReads(from, before, v, false, Proceeds, stop);
    labels, w := Asks(from, labels, w, v.threads, Proceeds, stop);
    var t := StopExitWait(stop, Some(ch));
    labels, w := TakeWait(from, labels, w, v.threads, StopExitWait(stop, None), Proceeds, Goes(w, t));
  }

  /** A gentle `Stop` of a MATLAB that is up and follows the exit request. */
  lemma StopsGently(from: World, before: seq<Label>, v: World, rest: seq<Thread>, run: nat, ch: nat)
    returns (labels: seq<Label>, w: World)
    requires Leads(from, before, v) && v.threads == rest + [WaitExit(run, ch)] + [Poll(run)] && DidSpawn(run) in v.log
    requires v.shared == Shared(Up, Some(Spawned(run)), false, Some(run), v.shared.busy) && v.done == ch
    ensures Leads(from, labels, w) && w.shared == Shared(Down, None, false, None, false)
    ensures w.threads == rest + [Finished] + [Poll(run)] + [Finished]
    ensures w.log == v.log + [Begins(v, false)] + [SentExit(|v.log|, Spawned(run), true)] + [Returned(|v.log|)]
  {
    var stop := Stop(false, false, StopBegun(v.shared).1, |v.log|);
    labels, w := AsksGently(from, before, v, run, ch, stop);
    labels, w := FollowsRequest(from, labels, w, rest, run, ch, stop);
  }

  lemma FollowsRequest(from: World, before: seq<Label>, v: World, rest: seq<Thread>, run: nat, ch: nat, stop: Stop)
    returns (labels: seq<Label>, w: World)
    requires Leads(from, before, v) && DidSpawn(run) in v.log && !stop.restart
    requires v.threads == rest + [WaitExit(run, ch)] + [Poll(run)] + [StopExitWait(stop, Some(ch))]
    ensures Leads(from, labels, w) && w.shared == Shared(Down, None, v.shared.attached, None, false)
    ensures w.threads == rest + [Finished] + [Poll(run)] + [Finished] && w.log == v.log + [Returned(stop.began)]
  {
    var t := StopExitWait(stop, Some(ch));
    assert v.threads == rest + [WaitExit(run, ch)] + ([Poll(run)] + [t]);
    labels, w := ExitsAmid(from, before, v, rest, run, ch, [Poll(run)] + [t]);
    assert w.threads == rest + [Finished] + [Poll(run)] + [t];
    labels, w := TakeWait(from, labels, w, rest + [Finished] + [Poll(run)], t, Closed, Return(w, stop, w.shared));
  }

  /** From every reachable state that is down, with nothing ever attached: `Start` brings MATLAB up, and a
      gentle `Stop` of it ends with everything down and forgotten. MATLAB has been asked to exit, and neither
      killed nor cut off. */
  lemma StartThenStop(before: seq<Label>) returns (labels: seq<Label>, w: World, run: nat)
    requires var from := Reached(true, before); from.shared.status == Down && !from.shared.attached
    ensures var from := Reached(true, before);
            && w == RunOn(from, labels) && w.shared == INITIAL
            && |w.log| == |from.log| + 4 && from.log + [DidSpawn(run)] <= w.log
            && Gentle(w.log[|from.log| + 1]) && w.log[|from.log| + 2] == SentExit(|from.log| + 1, Spawned(run), true)
            && w.log[|from.log| + 3] == Returned(|from.log| + 1)
  {
    var from := Reached(true, before);
    AlwaysNumbered(true, before);
    run := from.runs;
    labels, w := StartComesUp(from);
    labels, w := StopsGently(from, labels, w, from.threads + [Finished], run, run);
    LeadsIsRun(from, labels, w);
  }
}
