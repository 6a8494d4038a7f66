/** The lifecycle of the MATLAB process (internal/matlab/process.go). Calls and background goroutines
    share a few fields behind one mutex. Every stretch of code under the lock is one atomic step here,
    and so is every read or write of a field outside it; pings, time-outs, process exits and the
    choices of `select` may fall either way. */
module Lifecycle {

  datatype Status = Down | Starting | Up | Stopping
  datatype Option<T> = None | Some(value: T)

  /** Who made a connector: a run of ours after starting its command, or an attach to someone else's
      process. Whatever listens on its port is not known. */
  datatype Origin = Spawned(run: nat) | External(run: nat)

  /** The fields behind the mutex. */
  datatype Shared = Shared(status: Status, connector: Option<Origin>, attached: bool, matlabCmd: Option<nat>,
                           busy: bool)

  const INITIAL := Shared(Down, None, false, None, false)

  // ---------------------------------------------------------------- the critical sections

  function StartCommitted(p: Shared): Shared { p.(status := Starting, busy := false, connector := None) }

  function AttachBegun(p: Shared): Shared { p.(status := Starting, attached := true) }

  function Connected(p: Shared, ec: Origin): Shared { p.(connector := Some(ec), status := Up) }

  function Disconnected(p: Shared): Shared { p.(status := Down, busy := false, connector := None) }

  function RunEnded(p: Shared): Shared { Disconnected(p).(matlabCmd := None) }

  function Failed(p: Shared): Shared { p.(status := Down) }

  /** What `Stop` reads when it begins. */
  datatype Seen = Seen(cmd: Option<nat>, ec: Option<Origin>, wasStarting: bool, attached: bool)

  function StopBegun(p: Shared): (Shared, Seen) {
    (p.(status := Stopping), Seen(p.matlabCmd, p.connector, p.status == Starting, p.attached))
  }

  /** The safety of the fields themselves. */
  predicate Safe(p: Shared) {
    (p.connector.Some? && p.connector.value.External? ==> p.attached)
    && (p.status == Up ==> p.connector.Some?)
  }

  // ---------------------------------------------------------------- the goroutines

  /** Where a call or a goroutine stands. `run` numbers the contexts, `channel` the `done` channels. */
  datatype Thread =
    | Finished
    | StartCall(restart: bool)
    | StartCommit
    | StartCancel(run: nat)
    | StartDone(run: nat)
    | AttachCall
    | AttachCancel(run: nat)
    | AttachDone(run: nat)
    | RunAttached(run: nat)
    | AttachWait(run: nat, channel: nat)
    | AttachPinged(run: nat, channel: nat)
    | Monitor(run: nat, channel: nat, failures: nat)
    | MonitorRead(run: nat, channel: nat, failures: nat)
    | Run(run: nat)
    | Setup(run: nat, channel: nat)
    | Spawn(run: nat, channel: nat)
    | WaitPort(run: nat, channel: nat)
    | WaitPing(run: nat, channel: nat)
    | Pinged(run: nat, channel: nat)
    | WaitExit(run: nat, channel: nat)
    | CleanUp(run: nat, channel: nat)
    | Closing(channel: nat)
    | Poll(run: nat)
    | PollRead(run: nat)
    | StopCall(force: bool, restart: bool)
    | StopDecide(stop: Stop)
    | StopDetach(stop: Stop)
    | StopDetachWait(stop: Stop, on: Option<nat>)
    | StopExit(stop: Stop)
    | StopExitWait(stop: Stop, on: Option<nat>)
    | StopCancel(stop: Stop)
    | StopKill(stop: Stop)
    | StopWait(stop: Stop, on: Option<nat>)

  /** A `Stop` under way: whether to force it, whether `Start` goes on afterwards, what it has read, and
      how long the log was when it began. */
  datatype Stop = Stop(force: bool, restart: bool, seen: Seen, began: nat)

  datatype Choice = Proceeds | Cancelled | TimesOut | Exited | Alive | Unreachable | Known | Closed | Fails

  /** What the outside can see, and what a `Stop` was asked for and read when it began, by which the others
      are judged. An exit request goes through or fails; a `Stop` gives up waiting for the exit. */
  datatype Event = DidAttach | DidSpawn(run: nat) | StopBegan(force: bool, seen: Seen)
                 | SentExit(began: nat, ec: Origin, ok: bool) | GaveUp(began: nat)
                 | Killed(began: nat, run: nat) | CutOff(began: nat, run: nat) | Returned(began: nat)

  datatype World = World(shared: Shared, cancel: Option<nat>, done: nat, cancelled: set<nat>, closed: set<nat>,
                         exited: set<nat>, threads: seq<Thread>, runs: nat, attaches: set<nat>, log: seq<Event>,
                         hasCommand: bool)

  datatype Label = CallStart(restart: bool) | CallAttach | CallStop(force: bool) | ProcessExit(run: nat)
                 | Step(thread: nat, choice: Choice)

  /** Channel 0 is the one that `NewProcess` makes; those of the runs are numbered like the runs, from 1.
      `attaches` are the numbers that went to an `Attach`. */
  function Initially(hasCommand: bool): World {
    World(INITIAL, None, 0, {}, {}, {}, [], 1, {}, [], hasCommand)
  }

  /** What one step does: where the thread stands next, the fields, what is seen and begun, and the
      context and channel that `Stop` finds. */
  datatype Effect = Effect(thread: Thread, shared: Shared, logs: seq<Event>, begins: seq<Thread>, cancel: Option<nat>,
                           done: nat, cancels: set<nat>, closes: set<nat>, runs: nat, attaches: set<nat>)

  function Goes(w: World, t: Thread): Effect { Effect(t, w.shared, [], [], w.cancel, w.done, {}, {}, w.runs, {}) }

  function Perform(w: World, i: nat, e: Effect): World
    requires i < |w.threads|
  {
    World(e.shared, e.cancel, e.done, w.cancelled + e.cancels, w.closed + e.closes, w.exited,
          w.threads[i := e.thread] + e.begins, e.runs, w.attaches + e.attaches, w.log + e.logs, w.hasCommand)
  }

  /** The end of the critical section of `Start`; without a MATLAB command it reports an error. */
  function Commit(w: World): Effect {
    if w.hasCommand then Goes(w, StartCancel(w.runs)).(shared := StartCommitted(w.shared), runs := w.runs + 1)
    else Goes(w, Finished)
  }

  function StepStart(w: World, t: Thread): Effect {
    match t
    case StartCall(restart) =>
      if w.shared.status == Down then Commit(w)
      else if !restart then Goes(w, Finished)
      else Goes(w, StopCall(w.shared.status == Stopping, true))
    case StartCommit => Commit(w)
    case StartCancel(run) => Goes(w, StartDone(run)).(cancel := Some(run))
    case StartDone(run) => Goes(w, Finished).(done := run, begins := [Run(run)])
    case AttachCall =>
      if w.shared.status == Down then
        Goes(w, AttachCancel(w.runs))
          .(shared := AttachBegun(w.shared), runs := w.runs + 1, attaches := {w.runs}, logs := [DidAttach])
      else Goes(w, Finished)
    case AttachCancel(run) => Goes(w, AttachDone(run)).(cancel := Some(run))
    case AttachDone(run) => Goes(w, Finished).(done := run, begins := [RunAttached(run)])
    case _ => Goes(w, t)
  }

  const MAX_FAILURES := 5

  function StepAttached(w: World, t: Thread, c: Choice): Effect {
    match t
    case RunAttached(run) => Goes(w, AttachWait(run, w.done))
    case AttachWait(run, channel) =>
      if (c.Cancelled? && run in w.cancelled) || c.TimesOut? then Goes(w, Closing(channel)).(shared := Failed(w.shared))
      else if c.Alive? then Goes(w, AttachPinged(run, channel))
      else Goes(w, t)
    case AttachPinged(run, channel) => Goes(w, Monitor(run, channel, 0)).(shared := Connected(w.shared, External(run)))
    case Monitor(run, channel, failures) =>
      if c.Cancelled? && run in w.cancelled then Goes(w, Closing(channel)).(shared := Disconnected(w.shared))
      else if c.Proceeds? then
        Goes(w, if w.shared.connector.None? then Closing(channel) else MonitorRead(run, channel, failures))
      else Goes(w, t)
    case MonitorRead(run, channel, failures) =>
      if c.Known? then Goes(w, Monitor(run, channel, 0)).(shared := w.shared.(busy := true))
      else if c.Unreachable? && failures + 1 >= MAX_FAILURES then
        Goes(w, Closing(channel)).(shared := Disconnected(w.shared))
      else if c.Unreachable? then Goes(w, Monitor(run, channel, failures + 1)).(shared := w.shared.(busy := false))
      else if c.Alive? then Goes(w, Monitor(run, channel, failures))
      else Goes(w, t)
    case _ => Goes(w, t)
  }

  /** The two loops of `waitForConnector` end when the context is cancelled or the process exits. */
  predicate GivesUp(w: World, run: nat, c: Choice) {
    (c.Cancelled? && run in w.cancelled) || (c.Exited? && run in w.exited)
  }

  function StepRun(w: World, t: Thread, c: Choice): Effect {
    match t
    case Run(run) => Goes(w, Setup(run, w.done))
    case Setup(run, channel) =>
      if c.Fails? || run in w.cancelled then Goes(w, Closing(channel)).(shared := Failed(w.shared))
      else Goes(w, Spawn(run, channel)).(logs := [DidSpawn(run)])
    case Spawn(run, channel) => Goes(w, WaitPort(run, channel)).(shared := w.shared.(matlabCmd := Some(run)))
    case WaitPort(run, channel) =>
      if GivesUp(w, run, c) then Goes(w, WaitExit(run, channel))
      else if c.TimesOut? then Goes(w, WaitExit(run, channel)).(shared := Failed(w.shared))
      else if c.Proceeds? then Goes(w, WaitPing(run, channel))
      else Goes(w, t)
    case WaitPing(run, channel) =>
      if GivesUp(w, run, c) then Goes(w, WaitExit(run, channel))
      else if c.TimesOut? then Goes(w, WaitExit(run, channel)).(shared := Failed(w.shared))
      else if c.Alive? then Goes(w, Pinged(run, channel))
      else Goes(w, t)
    case Pinged(run, channel) =>
      Goes(w, WaitExit(run, channel)).(shared := Connected(w.shared, Spawned(run)), begins := [Poll(run)])
    case _ => Goes(w, t)
  }

  /** The command has exited or is about to, and the connection is polled meanwhile. */
  function StepEnd(w: World, t: Thread, c: Choice): Effect {
    match t
    case WaitExit(run, channel) =>
      if run !in w.exited then Goes(w, t)
      else if c.Fails? && run !in w.cancelled then Goes(w, CleanUp(run, channel)).(shared := Failed(w.shared))
      else Goes(w, CleanUp(run, channel))
    case CleanUp(run, channel) => Goes(w, Closing(channel)).(shared := RunEnded(w.shared))
    case Closing(channel) => Goes(w, Finished).(closes := {channel})
    case Poll(run) =>
      if c.Cancelled? && run in w.cancelled then Goes(w, Finished)
      else if c.Proceeds? then Goes(w, if w.shared.connector.None? then Finished else PollRead(run))
      else Goes(w, t)
    case PollRead(run) =>
      if c.Known? then Goes(w, Poll(run)).(shared := w.shared.(busy := true))
      else if c.Unreachable? then Goes(w, Poll(run)).(shared := w.shared.(busy := false))
      else Goes(w, Poll(run))
    case _ => Goes(w, t)
  }

  /** `Stop` is over; `Start` goes on if it was waiting for that. */
  function Return(w: World, stop: Stop, shared: Shared): Effect {
    Goes(w, if stop.restart then StartCommit else Finished).(shared := shared, logs := [Returned(stop.began)])
  }

  /** `p.cancel()`. A command that runs under the context is killed with it. */
  function Cancels(w: World, stop: Stop, t: Thread): Effect {
    if w.cancel.None? then Goes(w, t)
    else
      var run := w.cancel.value;
      Goes(w, t).(cancels := {run}, logs := if Runs(w, run) then [CutOff(stop.began, run)] else [])
  }

  /** The command of `run` has been started under a context not yet cancelled, and has not exited. */
  predicate Runs(w: World, run: nat) { DidSpawn(run) in w.log && run !in w.cancelled && run !in w.exited }

  function StepStop(w: World, t: Thread, c: Choice): Effect {
    match t
    case StopCall(force, restart) =>
      if w.shared.status == Down then Goes(w, if restart then StartCommit else Finished)
      else
        var (shared, seen) := StopBegun(w.shared);
        Goes(w, StopDecide(Stop(force, restart, seen, |w.log|))).(shared := shared, logs := [StopBegan(force, seen)])
    case StopDecide(stop) =>
      Goes(w, if stop.seen.attached || stop.seen.cmd.None? then StopDetach(stop)
              else if !stop.force && !stop.seen.wasStarting && stop.seen.ec.Some? then StopExit(stop)
              else StopCancel(stop))
    case StopDetach(stop) => Cancels(w, stop, StopDetachWait(stop, None))
    case StopExit(stop) =>
      if stop.seen.ec.None? then Goes(w, t)
      else
        Goes(w, if c.Fails? then StopCancel(stop.(force := true)) else StopExitWait(stop, None))
          .(logs := [SentExit(stop.began, stop.seen.ec.value, !c.Fails?)])
    case StopCancel(stop) =>
      Cancels(w, stop, if stop.force || stop.seen.wasStarting then StopKill(stop) else StopWait(stop, None))
    case StopKill(stop) =>
      if stop.seen.cmd.None? then Goes(w, t)
      else Goes(w, StopWait(stop, None)).(logs := [Killed(stop.began, stop.seen.cmd.value)])
    case _ => Goes(w, t)
  }

  /** Each time `Stop` waits, it looks up the channel and then waits for that one. */
  function StepWait(w: World, t: Thread, c: Choice): Effect {
    match t
    case StopDetachWait(stop, on) =>
      if on.None? then Goes(w, StopDetachWait(stop, Some(w.done)))
      else if (c.Closed? && on.value in w.closed) || c.TimesOut? then Return(w, stop, Disconnected(w.shared))
      else Goes(w, t)
    case StopExitWait(stop, on) =>
      if on.None? then Goes(w, StopExitWait(stop, Some(w.done)))
      else if c.Closed? && on.value in w.closed then Return(w, stop, w.shared)
      else if c.TimesOut? then Goes(w, StopCancel(stop.(force := true))).(logs := [GaveUp(stop.began)])
      else Goes(w, t)
    case StopWait(stop, on) =>
      if on.None? then Goes(w, StopWait(stop, Some(w.done)))
      else if c.Closed? && on.value in w.closed then Return(w, stop, w.shared)
      else if c.TimesOut? then Return(w, stop, Failed(w.shared))
      else Goes(w, t)
    case _ => Goes(w, t)
  }

  predicate IsStart(t: Thread) {
    t.StartCall? || t.StartCommit? || t.StartCancel? || t.StartDone?
    || t.AttachCall? || t.AttachCancel? || t.AttachDone?
  }

  predicate IsAttached(t: Thread) {
    t.RunAttached? || t.AttachWait? || t.AttachPinged? || t.Monitor? || t.MonitorRead?
  }

  predicate IsStop(t: Thread) {
    t.StopCall? || t.StopDecide? || t.StopDetach? || t.StopExit? || t.StopCancel? || t.StopKill?
  }

  predicate IsWait(t: Thread) { t.StopDetachWait? || t.StopExitWait? || t.StopWait? }

  predicate IsRun(t: Thread) {
    t.Run? || t.Setup? || t.Spawn? || t.WaitPort? || t.WaitPing? || t.Pinged?
  }

  predicate IsEnd(t: Thread) {
    t.WaitExit? || t.CleanUp? || t.Closing? || t.Poll? || t.PollRead? || t.Finished?
  }

  function StepOf(w: World, t: Thread, c: Choice): Effect {
    if IsStart(t) then StepStart(w, t)
    else if IsAttached(t) then StepAttached(w, t, c)
    else if IsStop(t) then StepStop(w, t, c)
    else if IsWait(t) then StepWait(w, t, c)
    else if IsRun(t) then StepRun(w, t, c)
    else StepEnd(w, t, c)
  }

  function Go(w: World, t: Thread): World { w.(threads := w.threads + [t]) }

  function Next(w: World, l: Label): World {
    match l
    case CallStart(restart) => Go(w, StartCall(restart))
    case CallAttach => Go(w, AttachCall)
    case CallStop(force) => Go(w, StopCall(force, false))
    case ProcessExit(run) => if DidSpawn(run) in w.log then w.(exited := w.exited + {run}) else w
    case Step(i, c) => if i < |w.threads| then Perform(w, i, StepOf(w, w.threads[i], c)) else w
  }

  function RunOn(w: World, labels: seq<Label>): World {
    if labels == [] then w else Next(RunOn(w, labels[..|labels| - 1]), labels[|labels| - 1])
  }

  /** Every reachable state is reached by some labels. */
  function Reached(hasCommand: bool, labels: seq<Label>): World { RunOn(Initially(hasCommand), labels) }

  // ---------------------------------------------------------------- what holds in every reachable state

  predicate IsBegun(log: seq<Event>, began: nat) { began < |log| && log[began].StopBegan? }

  /** The `Stop` that began there has asked for an exit, and the request has failed or not been followed. */
  predicate Refused(log: seq<Event>, began: nat)
    requires IsBegun(log, began)
  {
    GaveUp(began) in log
    || (log[began].seen.ec.Some? && SentExit(began, log[began].seen.ec.value, false) in log)
  }

  /** It may kill: it was forced, or MATLAB was starting, or has been asked to exit in vain. */
  predicate MayKill(log: seq<Event>, began: nat) {
    IsBegun(log, began) && (log[began].force || log[began].seen.wasStarting || Refused(log, began))
  }

  /** It may cancel: it may kill, or it only detaches, or there is nothing to ask. */
  predicate MayCancel(log: seq<Event>, began: nat) {
    IsBegun(log, began)
    && (MayKill(log, began) || log[began].seen.attached || log[began].seen.cmd.None? || log[began].seen.ec.None?)
  }

  /** It may ask for an exit: it was not forced, and MATLAB was not starting. */
  predicate MayAsk(log: seq<Event>, began: nat) {
    IsBegun(log, began) && !log[began].force && !log[began].seen.wasStarting
  }

  /** A `Stop` has read the fields at one moment, and knows whether an attach came before it. */
  predicate StopKnows(log: seq<Event>, stop: Stop) {
    IsBegun(log, stop.began) && log[stop.began].seen == stop.seen
    && (stop.seen.attached <==> DidAttach in log[..stop.began])
    && (stop.seen.ec.Some? && stop.seen.ec.value.External? ==> stop.seen.attached)
    && OursSpawned(log, stop.seen.ec, stop.seen.cmd)
  }

  /** A connector of ours and a command belong to a run that has started its command. */
  predicate OursSpawned(log: seq<Event>, ec: Option<Origin>, cmd: Option<nat>) {
    (ec.Some? && ec.value.Spawned? ==> DidSpawn(ec.value.run) in log)
    && (cmd.Some? ==> DidSpawn(cmd.value) in log)
  }

  /** It has a command of ours to end. */
  predicate Owns(log: seq<Event>, stop: Stop) { StopKnows(log, stop) && !stop.seen.attached && stop.seen.cmd.Some? }

  predicate ThreadOk(log: seq<Event>, t: Thread) {
    match t
    case AttachCancel(_) => DidAttach in log
    case AttachDone(_) => DidAttach in log
    case RunAttached(_) => DidAttach in log
    case AttachWait(_, _) => DidAttach in log
    case AttachPinged(_, _) => DidAttach in log
    case Spawn(run, _) => DidSpawn(run) in log
    case WaitPort(run, _) => DidSpawn(run) in log
    case WaitPing(run, _) => DidSpawn(run) in log
    case Pinged(run, _) => DidSpawn(run) in log
    case StopDecide(stop) => StopKnows(log, stop) && stop.force == log[stop.began].force
    case StopDetach(stop) => StopKnows(log, stop) && (stop.seen.attached || stop.seen.cmd.None?)
    case StopDetachWait(stop, _) => StopKnows(log, stop)
    case StopExit(stop) => Owns(log, stop) && stop.seen.ec.Some? && MayAsk(log, stop.began)
    case StopExitWait(stop, _) => Owns(log, stop)
    case StopCancel(stop) =>
      Owns(log, stop) && MayCancel(log, stop.began) && (stop.force ==> MayKill(log, stop.began))
    case StopKill(stop) => Owns(log, stop) && MayKill(log, stop.began)
    case StopWait(stop, _) => StopKnows(log, stop) && !stop.seen.attached
    case _ => true
  }

  /** `e` comes after `log`. An exit request or a direct kill comes from a `Stop` that began when nothing
      had been attached, what is ended is a command of ours, and a `Stop` that can asks before it forces. */
  predicate EventOk(log: seq<Event>, e: Event) {
    match e
    case SentExit(began, ec, _) =>
      ec.Spawned? && DidSpawn(ec.run) in log && BeganUnattached(log, began) && MayAsk(log, began)
      && log[began].seen.ec == Some(ec)
    case Killed(began, run) =>
      DidSpawn(run) in log && BeganUnattached(log, began) && MayKill(log, began) && log[began].seen.cmd == Some(run)
    case CutOff(began, run) => DidSpawn(run) in log && MayCancel(log, began)
    case _ => true
  }

  predicate BeganUnattached(log: seq<Event>, began: nat) {
    IsBegun(log, began) && DidAttach !in log[..began]
  }

  ghost predicate Inv(w: World) {
    SharedOk(w.log, w.shared)
    && (forall i :: 0 <= i < |w.threads| ==> ThreadOk(w.log, w.threads[i]))
    && (forall i :: 0 <= i < |w.log| ==> EventOk(w.log[..i], w.log[i]))
  }

  predicate SharedOk(log: seq<Event>, p: Shared) {
    Safe(p) && (p.attached <==> DidAttach in log) && OursSpawned(log, p.connector, p.matlabCmd)
  }

  /** The step of thread `t` keeps all that. */
  ghost predicate EffectOk(w: World, e: Effect) {
    |e.logs| <= 1 && SharedOk(w.log + e.logs, e.shared)
    && ThreadOk(w.log + e.logs, e.thread)
    && (forall k :: 0 <= k < |e.begins| ==> ThreadOk(w.log + e.logs, e.begins[k]))
    && (forall k :: 0 <= k < |e.logs| ==> EventOk(w.log, e.logs[k]))
  }

  /** What threads rest on does not change as the log grows. */
  lemma LongerLog(log: seq<Event>, more: seq<Event>)
    ensures forall t: Thread :: ThreadOk(log, t) ==> ThreadOk(log + more, t)
  {
    assert forall k :: 0 <= k <= |log| ==> (log + more)[..k] == log[..k];
  }

  lemma PerformKeeps(w: World, i: nat, e: Effect)
    requires Inv(w) && i < |w.threads| && EffectOk(w, e)
    ensures Inv(Perform(w, i, e))
  {
    LongerLog(w.log, e.logs);
    var w' := Perform(w, i, e);
    forall k | 0 <= k < |w'.threads| ensures ThreadOk(w'.log, w'.threads[k]) {
      if k < |w.threads| && k != i {
        assert ThreadOk(w.log, w.threads[k]);
      } else if k >= |w.threads| {
        assert w'.threads[k] == e.begins[k - |w.threads|];
      }
    }
    forall k | 0 <= k < |w'.log| ensures EventOk(w'.log[..k], w'.log[k]) {
      if k < |w.log| {
        assert w'.log[..k] == w.log[..k];
      } else {
        assert w'.log[..k] == w.log && w'.log[k] == e.logs[k - |w.log|];
      }
    }
  }

  ghost predicate Before(w: World, t: Thread) {
    SharedOk(w.log, w.shared) && ThreadOk(w.log, t)
  }

  lemma StartOk(w: World, t: Thread)
    requires Before(w, t) && IsStart(t)
    ensures EffectOk(w, StepStart(w, t))
  {
    assert w.log + [] == w.log;
  }

  lemma AttachedOk(w: World, t: Thread, c: Choice)
    requires Before(w, t) && IsAttached(t)
    ensures EffectOk(w, StepAttached(w, t, c))
  {
    assert w.log + [] == w.log;
  }

  lemma RunOk(w: World, t: Thread, c: Choice)
    requires Before(w, t) && IsRun(t)
    ensures EffectOk(w, StepRun(w, t, c))
  {
    assert w.log + [] == w.log;
  }

  lemma GoesOk(w: World, t: Thread)
    requires Before(w, t)
    ensures EffectOk(w, Goes(w, t))
  {
    assert w.log + [] == w.log;
  }

  /** What a `Stop` knows does not change as the log grows. */
  lemma StillKnows(log: seq<Event>, more: seq<Event>, stop: Stop)
    requires StopKnows(log, stop)
    ensures StopKnows(log + more, stop)
  {
    assert (log + more)[..stop.began] == log[..stop.began];
  }

  lemma StillShared(log: seq<Event>, e: Event, p: Shared)
    requires SharedOk(log, p) && e != DidAttach
    ensures SharedOk(log + [e], p)
  {
  }

  lemma EndOk(w: World, t: Thread, c: Choice)
    requires Before(w, t) && IsEnd(t)
    ensures EffectOk(w, StepEnd(w, t, c))
  {
    assert w.log + [] == w.log;
  }

  lemma StopOk(w: World, t: Thread, c: Choice)
    requires Before(w, t) && IsStop(t)
    ensures EffectOk(w, StepStop(w, t, c))
  {
    match t
    case StopCall(force, restart) => StopBegins(w, force, restart, c);
    case StopDecide(stop) => StopDecides(w, stop, c);
    case StopDetach(stop) => StopDetaches(w, stop, c);
    case StopExit(stop) => StopRequests(w, t, c, stop);
    case StopCancel(stop) => StopCutsOff(w, stop, c);
    case StopKill(stop) => StopRequests(w, t, c, stop);
  }

  lemma StopBegins(w: World, force: bool, restart: bool, c: Choice)
    requires SharedOk(w.log, w.shared)
    ensures EffectOk(w, StepStop(w, StopCall(force, restart), c))
  {
    if w.shared.status == Down {
      GoesOk(w, if restart then StartCommit else Finished);
    } else {
      var e := StopBegan(force, StopBegun(w.shared).1);
      StillShared(w.log, e, w.shared);
      assert (w.log + [e])[..|w.log|] == w.log;
    }
  }

  lemma StopDecides(w: World, stop: Stop, c: Choice)
    requires Before(w, StopDecide(stop))
    ensures EffectOk(w, StepStop(w, StopDecide(stop), c))
  {
    GoesOk(w, if stop.seen.attached || stop.seen.cmd.None? then StopDetach(stop)
              else if CanAsk(stop) then StopExit(stop)
              else StopCancel(stop));
  }

  lemma StopDetaches(w: World, stop: Stop, c: Choice)
    requires Before(w, StopDetach(stop))
    ensures EffectOk(w, StepStop(w, StopDetach(stop), c))
  {
    StopCancels(w, stop, StopDetachWait(stop, None));
  }

  lemma StopCutsOff(w: World, stop: Stop, c: Choice)
    requires Before(w, StopCancel(stop))
    ensures EffectOk(w, StepStop(w, StopCancel(stop), c))
  {
    StopCancels(w, stop, if stop.force || stop.seen.wasStarting then StopKill(stop) else StopWait(stop, None));
  }

  /** It cancels its context, which may be that of a command that runs. */
  lemma StopCancels(w: World, stop: Stop, t: Thread)
    requires Before(w, t) && StopKnows(w.log, stop) && MayCancel(w.log, stop.began)
    requires (t.StopDetachWait? || t.StopKill? || t.StopWait?) && t.stop == stop
    ensures EffectOk(w, Cancels(w, stop, t))
  {
    GoesOk(w, t);
    if w.cancel.Some? && Runs(w, w.cancel.value) {
      var e := CutOff(stop.began, w.cancel.value);
      StillKnows(w.log, [e], stop);
      StillShared(w.log, e, w.shared);
    }
  }

  /** It sends an exit request, or kills the process. */
  lemma StopRequests(w: World, t: Thread, c: Choice, stop: Stop)
    requires Before(w, t) && (t == StopExit(stop) || t == StopKill(stop))
    ensures EffectOk(w, StepStop(w, t, c))
  {
    var e := StepStop(w, t, c).logs[0];
    StillKnows(w.log, [e], stop);
    StillShared(w.log, e, w.shared);
  }

  lemma ReturnOk(w: World, stop: Stop, shared: Shared)
    requires SharedOk(w.log, shared)
    ensures EffectOk(w, Return(w, stop, shared))
  {
    StillShared(w.log, Returned(stop.began), shared);
  }

  /** It has waited for the exit that it has asked for, and forces it now. */
  lemma GivesUpOk(w: World, stop: Stop, t: Thread)
    requires SharedOk(w.log, w.shared) && Owns(w.log, stop) && t == StopCancel(stop.(force := true))
    ensures EffectOk(w, Goes(w, t).(logs := [GaveUp(stop.began)]))
  {
    var e := GaveUp(stop.began);
    StillKnows(w.log, [e], stop);
    StillShared(w.log, e, w.shared);
  }

  lemma WaitOk(w: World, t: Thread, c: Choice)
    requires Before(w, t) && IsWait(t)
    ensures EffectOk(w, StepWait(w, t, c))
  {
    var e := StepWait(w, t, c);
    if e.logs == [] {
      GoesOk(w, e.thread);
    } else if e.thread.StopCancel? {
      GivesUpOk(w, t.stop, e.thread);
    } else {
      ReturnOk(w, t.stop, e.shared);
    }
  }

  lemma NextKeeps(w: World, l: Label)
    requires Inv(w)
    ensures Inv(Next(w, l))
  {
    if l.Step? && l.thread < |w.threads| {
      var t := w.threads[l.thread];
      assert Before(w, t);
      if IsStart(t) {
        StartOk(w, t);
      } else if IsAttached(t) {
        AttachedOk(w, t, l.choice);
      } else if IsStop(t) {
        StopOk(w, t, l.choice);
      } else if IsWait(t) {
        WaitOk(w, t, l.choice);
      } else if IsRun(t) {
        RunOk(w, t, l.choice);
      } else {
        EndOk(w, t, l.choice);
      }
      PerformKeeps(w, l.thread, StepOf(w, t, l.choice));
    }
  }

  lemma {:induction false} Always(hasCommand: bool, labels: seq<Label>)
    ensures Inv(Reached(hasCommand, labels))
  {
    if labels != [] {
      Always(hasCommand, labels[..|labels| - 1]);
      NextKeeps(Reached(hasCommand, labels[..|labels| - 1]), labels[|labels| - 1]);
    }
  }

  /** However the goroutines interleave: a status of "up" comes with a connector, and a connector to
      someone else's process with `attached`. */
  lemma UpHasConnector(hasCommand: bool, labels: seq<Label>)
    ensures var p := Reached(hasCommand, labels).shared;
            (p.status == Up ==> p.connector.Some?)
            && (p.connector.Some? && p.connector.value.External? ==> p.attached)
  {
    Always(hasCommand, labels);
  }

  /** An exit request goes only through a connector that a run made after starting its command, and a
      `Stop` that begins after an attach sends none and kills nothing itself. What a `Stop` ends, by
      killing it or through its context, is a command that one of our runs has started before. */
  lemma OnlyOursAreEnded(hasCommand: bool, labels: seq<Label>, k: nat)
    requires k < |Reached(hasCommand, labels).log|
    ensures var log := Reached(hasCommand, labels).log;
            && (log[k].SentExit? ==> log[k].ec.Spawned? && DidSpawn(log[k].ec.run) in log[..k])
            && (log[k].Killed? || log[k].CutOff? ==> DidSpawn(log[k].run) in log[..k])
            && (log[k].SentExit? || log[k].Killed? ==>
                  log[k].began < k && log[log[k].began].StopBegan? && DidAttach !in log[..log[k].began])
  {
    Always(hasCommand, labels);
    var log := Reached(hasCommand, labels).log;
    assert EventOk(log[..k], log[k]);
    if log[k].SentExit? || log[k].Killed? {
      assert log[..k][..log[k].began] == log[..log[k].began];
    }
  }

  /** What the `Stop` that began there was not asked for, nor compelled to: to end MATLAB without asking. */
  predicate Gentle(e: Event) {
    e.StopBegan? && !e.force && !e.seen.wasStarting
  }

  /** And it could ask: it has read a connector to a MATLAB of ours. */
  predicate CouldAsk(e: Event) { Gentle(e) && !e.seen.attached && e.seen.cmd.Some? && e.seen.ec.Some? }

  /** A `Stop` that is not forced and finds MATLAB up kills only after its own exit request has failed, or has
      not been followed in time; where it has a connector to a MATLAB of ours it does not cancel its context
      before that either. Only such a `Stop` asks, and it asks through the connector it has read. */
  lemma AsksBeforeForcing(hasCommand: bool, labels: seq<Label>, k: nat)
    requires k < |Reached(hasCommand, labels).log|
    ensures var log := Reached(hasCommand, labels).log;
            (log[k].SentExit? || log[k].Killed? || log[k].CutOff? ==> log[k].began < k && log[log[k].began].StopBegan?)
            && (log[k].SentExit? ==> Gentle(log[log[k].began]) && log[log[k].began].seen.ec == Some(log[k].ec))
            && (log[k].Killed? ==> log[log[k].began].seen.cmd == Some(log[k].run))
            && (log[k].Killed? && Gentle(log[log[k].began]) ==> InVain(log[..k], log[k].began))
            && (log[k].CutOff? && CouldAsk(log[log[k].began]) ==> InVain(log[..k], log[k].began))
  {
    Always(hasCommand, labels);
    var log := Reached(hasCommand, labels).log;
    assert EventOk(log[..k], log[k]);
    if (log[k].Killed? || log[k].CutOff?) && Refused(log[..k], log[k].began) {
      RefusedIsInVain(log[..k], log[k].began);
    }
  }

  /** An exit request of that `Stop` has failed, or it has given up waiting for the exit. */
  ghost predicate InVain(log: seq<Event>, began: nat) {
    exists j :: 0 <= j < |log| && (log[j] == GaveUp(began) || (log[j].SentExit? && log[j].began == began && !log[j].ok))
  }

  lemma RefusedIsInVain(log: seq<Event>, began: nat)
    requires IsBegun(log, began) && Refused(log, began)
    ensures InVain(log, began)
  {
    if GaveUp(began) in log {
      var j :| 0 <= j < |log| && log[j] == GaveUp(began);
    } else {
      var e := SentExit(began, log[began].seen.ec.value, false);
      var j :| 0 <= j < |log| && log[j] == e;
    }
  }

  // ---------------------------------------------------------------- the numbers of runs

  /** A number goes to a start or to an attach. */
  predicate ThreadNumbered(t: Thread, runs: nat, attaches: set<nat>) {
    match t
    case StartCancel(run) => run < runs && run !in attaches
    case StartDone(run) => run < runs && run !in attaches
    case AttachCancel(run) => run < runs && run in attaches
    case Run(run) => run < runs && run !in attaches
    case Setup(run, _) => run < runs && run !in attaches
    case _ => true
  }

  ghost predicate LogNumbered(log: seq<Event>, runs: nat, attaches: set<nat>) {
    forall k :: 0 <= k < |log| && log[k].DidSpawn? ==> log[k].run < runs && log[k].run !in attaches
  }

  ghost predicate SetNumbered(s: set<nat>, runs: nat) { forall r :: r in s ==> r < runs }

  /** A run that is yet to begin has not been cancelled, nor has its command been started or exited. A
      number that went to an attach has no command. */
  ghost predicate Numbered(w: World) {
    (w.cancel.Some? ==> w.cancel.value < w.runs) && SetNumbered(w.attaches, w.runs)
    && SetNumbered(w.cancelled, w.runs) && SetNumbered(w.exited, w.runs) && LogNumbered(w.log, w.runs, w.attaches)
    && (forall i :: 0 <= i < |w.threads| ==> ThreadNumbered(w.threads[i], w.runs, w.attaches))
  }

  /** The numbers of the threads and the log after the step; a number that goes to an attach is new. */
  ghost predicate EffectNumbered(w: World, e: Effect) {
    w.runs <= e.runs && (e.cancel.Some? ==> e.cancel.value < e.runs)
    && SetNumbered(e.cancels, e.runs) && SetNumbered(e.attaches, e.runs)
    && (forall r :: r in e.attaches ==> w.runs <= r)
    && LogNumbered(e.logs, e.runs, w.attaches + e.attaches)
    && ThreadNumbered(e.thread, e.runs, w.attaches + e.attaches)
    && (forall k :: 0 <= k < |e.begins| ==> ThreadNumbered(e.begins[k], e.runs, w.attaches + e.attaches))
  }

  lemma StartNumbered(w: World, t: Thread, e: Effect)
    requires Numbered(w) && ThreadNumbered(t, w.runs, w.attaches) && IsStart(t) && e == StepStart(w, t)
    ensures EffectNumbered(w, e)
  {
  }

  lemma AttachedNumbered(w: World, t: Thread, c: Choice, e: Effect)
    requires Numbered(w) && ThreadNumbered(t, w.runs, w.attaches) && IsAttached(t) && e == StepAttached(w, t, c)
    ensures EffectNumbered(w, e)
  {
  }

  lemma StopNumbered(w: World, t: Thread, c: Choice, e: Effect)
    requires Numbered(w) && ThreadNumbered(t, w.runs, w.attaches) && IsStop(t) && e == StepStop(w, t, c)
    ensures EffectNumbered(w, e)
  {
  }

  lemma WaitNumbered(w: World, t: Thread, c: Choice, e: Effect)
    requires Numbered(w) && ThreadNumbered(t, w.runs, w.attaches) && IsWait(t) && e == StepWait(w, t, c)
    ensures EffectNumbered(w, e)
  {
  }

  lemma RunNumbered(w: World, t: Thread, c: Choice, e: Effect)
    requires Numbered(w) && ThreadNumbered(t, w.runs, w.attaches) && IsRun(t) && e == StepRun(w, t, c)
    ensures EffectNumbered(w, e)
  {
  }

  lemma EndNumbered(w: World, t: Thread, c: Choice, e: Effect)
    requires Numbered(w) && ThreadNumbered(t, w.runs, w.attaches) && IsEnd(t) && e == StepEnd(w, t, c)
    ensures EffectNumbered(w, e)
  {
  }

  lemma PerformNumbered(w: World, i: nat, e: Effect)
    requires Numbered(w) && i < |w.threads| && EffectNumbered(w, e)
    ensures Numbered(Perform(w, i, e))
  {
    var w' := Perform(w, i, e);
    forall k | 0 <= k < |w'.threads| ensures ThreadNumbered(w'.threads[k], w'.runs, w'.attaches) {
      if k < |w.threads| && k != i {
        assert ThreadNumbered(w.threads[k], w.runs, w.attaches);
      } else if k >= |w.threads| {
        assert w'.threads[k] == e.begins[k - |w.threads|];
      }
    }
  }

  lemma NextNumbered(w: World, l: Label)
    requires Numbered(w)
    ensures Numbered(Next(w, l))
  {
    if l.ProcessExit? && DidSpawn(l.run) in w.log {
      var k :| 0 <= k < |w.log| && w.log[k] == DidSpawn(l.run);
    } else if l.Step? && l.thread < |w.threads| {
      var t := w.threads[l.thread];
      assert ThreadNumbered(t, w.runs, w.attaches);
      var e := StepOf(w, t, l.choice);
      EffectNumbers(w, t, l.choice, e);
      PerformNumbered(w, l.thread, e);
    }
  }

  lemma EffectNumbers(w: World, t: Thread, c: Choice, e: Effect)
    requires Numbered(w) && ThreadNumbered(t, w.runs, w.attaches) && e == StepOf(w, t, c)
    ensures EffectNumbered(w, e)
  {
    if IsStart(t) {
      StartNumbered(w, t, e);
    } else if IsAttached(t) {
      AttachedNumbered(w, t, c, e);
    } else if IsStop(t) {
      StopNumbered(w, t, c, e);
    } else if IsWait(t) {
      WaitNumbered(w, t, c, e);
    } else if IsRun(t) {
      RunNumbered(w, t, c, e);
    } else {
      EndNumbered(w, t, c, e);
    }
  }

  lemma {:induction false} AlwaysNumbered(hasCommand: bool, labels: seq<Label>)
    ensures Numbered(Reached(hasCommand, labels)) && Reached(hasCommand, labels).hasCommand == hasCommand
  {
    if labels != [] {
      AlwaysNumbered(hasCommand, labels[..|labels| - 1]);
      NextNumbered(Reached(hasCommand, labels[..|labels| - 1]), labels[|labels| - 1]);
    }
  }

  // ---------------------------------------------------------------- after a stop

  /** A thread from which no connection can come any more: what it is past, what only a start with a
      MATLAB command could lead to, or a run cancelled before its command is started. */
  predicate Spent(w: World, t: Thread) {
    match t
    case Finished => true
    case Monitor(_, _, _) => true
    case MonitorRead(_, _, _) => true
    case WaitExit(_, _) => true
    case CleanUp(_, _) => true
    case Closing(_) => true
    case Poll(_) => true
    case PollRead(_) => true
    case StartCall(_) => !w.hasCommand
    case StartCommit => !w.hasCommand
    case StartCancel(run) => run in w.cancelled
    case StartDone(run) => run in w.cancelled
    case Run(run) => run in w.cancelled
    case Setup(run, _) => run in w.cancelled
    case StopCall(_, restart) => !(restart && w.hasCommand)
    case StopDecide(stop) => !(stop.restart && w.hasCommand)
    case StopDetach(stop) => !(stop.restart && w.hasCommand)
    case StopDetachWait(stop, _) => !(stop.restart && w.hasCommand)
    case StopExit(stop) => !(stop.restart && w.hasCommand)
    case StopExitWait(stop, _) => !(stop.restart && w.hasCommand)
    case StopCancel(stop) => !(stop.restart && w.hasCommand)
    case StopKill(stop) => !(stop.restart && w.hasCommand)
    case StopWait(stop, _) => !(stop.restart && w.hasCommand)
    case _ => false
  }

  ghost predicate AllSpent(w: World) {
    forall i :: 0 <= i < |w.threads| ==> Spent(w, w.threads[i])
  }

  predicate IsCall(l: Label) { l.CallStart? || l.CallAttach? || l.CallStop? }

  ghost predicate NoCalls(labels: seq<Label>) {
    forall k :: 0 <= k < |labels| ==> !IsCall(labels[k])
  }

  ghost predicate EffectSpent(w: World, e: Effect) {
    Spent(w, e.thread) && (forall k :: 0 <= k < |e.begins| ==> Spent(w, e.begins[k])) && e.shared.status == Down
  }

  lemma SpentEffect(w: World, t: Thread, c: Choice, e: Effect)
    requires Spent(w, t) && w.shared.status == Down && e == StepOf(w, t, c)
    ensures EffectSpent(w, e)
  {
    if IsStart(t) {
      SpentStart(w, t, e);
    } else if IsAttached(t) {
      SpentAttached(w, t, c, e);
    } else if IsStop(t) {
      SpentStop(w, t, c, e);
    } else if IsWait(t) {
      SpentWait(w, t, c, e);
    } else if IsRun(t) {
      SpentRun(w, t, c, e);
    } else {
      SpentEnd(w, t, c, e);
    }
  }

  lemma SpentStart(w: World, t: Thread, e: Effect)
    requires Spent(w, t) && w.shared.status == Down && IsStart(t) && e == StepStart(w, t)
    ensures EffectSpent(w, e)
  {
  }

  lemma SpentAttached(w: World, t: Thread, c: Choice, e: Effect)
    requires Spent(w, t) && w.shared.status == Down && IsAttached(t) && e == StepAttached(w, t, c)
    ensures EffectSpent(w, e)
  {
  }

  lemma SpentStop(w: World, t: Thread, c: Choice, e: Effect)
    requires Spent(w, t) && w.shared.status == Down && IsStop(t) && e == StepStop(w, t, c)
    ensures EffectSpent(w, e)
  {
  }

  lemma SpentWait(w: World, t: Thread, c: Choice, e: Effect)
    requires Spent(w, t) && w.shared.status == Down && IsWait(t) && e == StepWait(w, t, c)
    ensures EffectSpent(w, e)
  {
  }

  lemma SpentRun(w: World, t: Thread, c: Choice, e: Effect)
    requires Spent(w, t) && w.shared.status == Down && IsRun(t) && e == StepRun(w, t, c)
    ensures EffectSpent(w, e)
  {
  }

  lemma SpentEnd(w: World, t: Thread, c: Choice, e: Effect)
    requires Spent(w, t) && w.shared.status == Down && IsEnd(t) && e == StepEnd(w, t, c)
    ensures EffectSpent(w, e)
  {
  }

  lemma StaysSpent(w: World, w': World, t: Thread)
    requires Spent(w, t) && w'.hasCommand == w.hasCommand && w.cancelled <= w'.cancelled
    ensures Spent(w', t)
  {
  }

  lemma PerformSpent(w: World, i: nat, e: Effect)
    requires AllSpent(w) && i < |w.threads| && EffectSpent(w, e)
    ensures AllSpent(Perform(w, i, e))
  {
    var w' := Perform(w, i, e);
    forall k | 0 <= k < |w'.threads| ensures Spent(w', w'.threads[k]) {
      if k >= |w.threads| {
        assert w'.threads[k] == e.begins[k - |w.threads|];
      }
      StaysSpent(w, w', w'.threads[k]);
    }
  }

  lemma SpentStep(w: World, l: Label)
    requires AllSpent(w) && w.shared.status == Down && !IsCall(l)
    ensures AllSpent(Next(w, l)) && Next(w, l).shared.status == Down
  {
    if l.ProcessExit? {
      forall k | 0 <= k < |w.threads| ensures Spent(Next(w, l), w.threads[k]) {
        StaysSpent(w, Next(w, l), w.threads[k]);
      }
    } else if l.Step? && l.thread < |w.threads| {
      var t := w.threads[l.thread];
      var e := StepOf(w, t, l.choice);
      SpentEffect(w, t, l.choice, e);
      PerformSpent(w, l.thread, e);
    }
  }

  lemma {:induction false} StaysDown(w: World, labels: seq<Label>)
    requires AllSpent(w) && w.shared.status == Down && NoCalls(labels)
    ensures AllSpent(RunOn(w, labels)) && RunOn(w, labels).shared.status == Down
  {
    if labels != [] {
      var front := labels[..|labels| - 1];
      StaysDown(w, front);
      SpentStep(RunOn(w, front), labels[|labels| - 1]);
    }
  }

  /** How far a thread that is not spent is from an answered ping, and how it gets there. */
  function Distance(t: Thread): nat {
    match t
    case WaitPing(_, _) => 1
    case WaitPort(_, _) => 2
    case Spawn(_, _) => 3
    case Setup(_, _) => 4
    case Run(_) => 5
    case StartDone(_) => 6
    case StartCancel(_) => 7
    case StartCommit => 8
    case StartCall(_) => 9
    case AttachWait(_, _) => 1
    case RunAttached(_) => 2
    case AttachDone(_) => 3
    case AttachCancel(_) => 4
    case AttachCall => 5
    case StopWait(_, on) => if on.Some? then 9 else 10
    case StopKill(_) => 11
    case StopCancel(_) => 12
    case StopExitWait(_, on) => if on.Some? then 13 else 14
    case StopExit(_) => 15
    case StopDetachWait(_, on) => if on.Some? then 9 else 10
    case StopDetach(_) => 11
    case StopDecide(_) => 16
    case StopCall(_, _) => 17
    case _ => 0
  }

  function Onwards(t: Thread): Choice {
    if t.WaitPing? || t.AttachWait? then Alive
    else if (t.StopDetachWait? || t.StopExitWait? || t.StopWait?) && t.on.Some? then TimesOut
    else Proceeds
  }

  /** Where such a thread can go on at all. */
  predicate Ready(w: World, t: Thread) {
    match t
    case StartCall(_) => w.shared.status == Down
    case AttachCall => w.shared.status == Down
    case StopCall(_, _) => w.shared.status == Down
    case StopExit(stop) => stop.seen.cmd.Some? && stop.seen.ec.Some?
    case StopExitWait(stop, _) => stop.seen.cmd.Some?
    case StopCancel(stop) => stop.seen.cmd.Some?
    case StopKill(stop) => stop.seen.cmd.Some?
    case _ => true
  }

  /** The thread that goes on after a step: the one that a call has begun, or itself. */
  function Heir(e: Effect): Thread { if |e.begins| == 1 then e.begins[0] else e.thread }

  ghost predicate Nearer(t: Thread, e: Effect, w': World) {
    |e.begins| <= 1 && !Spent(w', Heir(e)) && Distance(Heir(e)) < Distance(t) && forall v :: Ready(v, Heir(e))
  }

  lemma ComesNearer(w: World, t: Thread, e: Effect, w': World)
    requires Numbered(w) && !Spent(w, t) && Ready(w, t) && Distance(t) > 0 && e == StepOf(w, t, Onwards(t))
    requires w'.hasCommand == w.hasCommand && w'.cancelled == w.cancelled + e.cancels
    ensures Nearer(t, e, w')
  {
    if IsStart(t) {
      StartNearer(w, t, e, w');
    } else if IsStop(t) {
      StopNearer(w, t, Onwards(t), e, w');
    } else if IsWait(t) {
      WaitNearer(w, t, Onwards(t), e, w');
    } else if IsAttached(t) {
    } else {
      RunNearer(w, t, Onwards(t), e, w');
    }
  }

  lemma StartNearer(w: World, t: Thread, e: Effect, w': World)
    requires Numbered(w) && !Spent(w, t) && Ready(w, t) && IsStart(t) && e == StepStart(w, t)
    requires w'.hasCommand == w.hasCommand && w'.cancelled == w.cancelled + e.cancels
    ensures Nearer(t, e, w')
  {
  }

  lemma StopNearer(w: World, t: Thread, c: Choice, e: Effect, w': World)
    requires !Spent(w, t) && Ready(w, t) && IsStop(t) && c == Onwards(t) && e == StepStop(w, t, c)
    requires w'.hasCommand == w.hasCommand
    ensures Nearer(t, e, w')
  {
  }

  lemma WaitNearer(w: World, t: Thread, c: Choice, e: Effect, w': World)
    requires !Spent(w, t) && Ready(w, t) && IsWait(t) && c == Onwards(t) && e == StepWait(w, t, c)
    requires w'.hasCommand == w.hasCommand
    ensures Nearer(t, e, w')
  {
  }

  lemma RunNearer(w: World, t: Thread, c: Choice, e: Effect, w': World)
    requires !Spent(w, t) && Distance(t) > 0 && IsRun(t)
    requires c == Onwards(t) && e == StepRun(w, t, c) && w'.cancelled == w.cancelled + e.cancels
    ensures Nearer(t, e, w')
  {
  }

  /** From any thread that is not spent there is a run without calls in which the status comes up. Where
      its context is cancelled after its command has been started, or while it attaches, this takes a
      `select` whose timer is due to prefer it to the cancellation, or a ping that was under way; and
      where its command has exited, a ping that is answered all the same. */
  lemma {:induction false} ComesUp(from: World, before: seq<Label>, w: World, i: nat) returns (labels: seq<Label>)
    requires w == RunOn(from, before) && NoCalls(before) && Numbered(w) && i < |w.threads|
    requires !Spent(w, w.threads[i]) && Ready(w, w.threads[i])
    ensures NoCalls(labels) && RunOn(from, labels).shared.status == Up
    decreases if i < |w.threads| then Distance(w.threads[i]) else 0
  {
    var t := w.threads[i];
    var c := Onwards(t);
    var e := StepOf(w, t, c);
    var w' := Perform(w, i, e);
    labels := before + [Step(i, c)];
    NextIs(w, i, c, t, e);
    RunOnMore(from, before, Step(i, c));
    if Distance(t) > 0 {
      ComesNearer(w, t, e, w');
      NextNumbered(w, Step(i, c));
      labels := ComesUp(from, labels, w', if |e.begins| == 1 then |w.threads| else i);
    }
  }

  /** "Down" stays until the next call, whatever else happens, exactly when every goroutine is past the
      point where it could still connect. */
  lemma DownIsFinal(hasCommand: bool, before: seq<Label>)
    requires Reached(hasCommand, before).shared.status == Down
    ensures var w := Reached(hasCommand, before);
            AllSpent(w) <==> forall labels :: NoCalls(labels) ==> RunOn(w, labels).shared.status == Down
  {
    var w := Reached(hasCommand, before);
    if AllSpent(w) {
      forall labels | NoCalls(labels)
        ensures RunOn(w, labels).shared.status == Down
      {
        StaysDown(w, labels);
      }
    } else {
      var i :| 0 <= i < |w.threads| && !Spent(w, w.threads[i]);
      Always(hasCommand, before);
      AlwaysNumbered(hasCommand, before);
      assert ThreadOk(w.log, w.threads[i]);
      var labels := ComesUp(w, [], w, i);
      assert RunOn(w, labels).shared.status == Up;
    }
  }

  lemma NextIs(w: World, i: nat, c: Choice, t: Thread, e: Effect)
    requires i < |w.threads| && w.threads[i] == t && e == StepOf(w, t, c)
    ensures Next(w, Step(i, c)) == Perform(w, i, e)
  {
  }

  lemma RunOnMore(from: World, labels: seq<Label>, l: Label)
    ensures RunOn(from, labels + [l]) == Next(RunOn(from, labels), l)
  {
    assert (labels + [l])[..|labels|] == labels;
  }

  ghost predicate StepAt(worlds: seq<World>, labels: seq<Label>, k: nat)
    requires k < |labels| < |worlds|
  {
    worlds[k + 1] == Next(worlds[k], labels[k])
  }

  ghost predicate IsTrace(worlds: seq<World>, from: World, labels: seq<Label>, to: World) {
    |worlds| == |labels| + 1 && worlds[0] == from && worlds[|labels|] == to
    && forall k {:trigger StepAt(worlds, labels, k)} :: 0 <= k < |labels| ==> StepAt(worlds, labels, k)
  }

  /** A run takes `from` to `to`: there are worlds in between. */
  ghost predicate Leads(from: World, labels: seq<Label>, to: World) {
    exists worlds :: IsTrace(worlds, from, labels, to)
  }

  lemma LeadsNowhere(w: World)
    ensures Leads(w, [], w)
  {
    assert IsTrace([w], w, [], w);
  }

  lemma LeadsMore(from: World, labels: seq<Label>, w: World, l: Label, w': World)
    requires Leads(from, labels, w) && w' == Next(w, l)
    ensures Leads(from, labels + [l], w')
  {
    var worlds :| IsTrace(worlds, from, labels, w);
    var worlds', labels' := worlds + [w'], labels + [l];
    forall k | 0 <= k < |labels'| ensures StepAt(worlds', labels', k) {
      if k < |labels| {
        assert StepAt(worlds, labels, k);
      }
    }
    assert IsTrace(worlds', from, labels', w');
  }

  lemma {:induction false} TraceIsRun(worlds: seq<World>, from: World, labels: seq<Label>, w: World)
    requires IsTrace(worlds, from, labels, w)
    ensures w == RunOn(from, labels)
    decreases labels
  {
    if labels != [] {
      var n := |labels| - 1;
      var before, front := worlds[..n + 1], labels[..n];
      forall k | 0 <= k < n ensures StepAt(before, front, k) {
        assert StepAt(worlds, labels, k);
      }
      TraceIsRun(before, from, front, worlds[n]);
      assert StepAt(worlds, labels, n);
    }
  }

  lemma LeadsIsRun(from: World, labels: seq<Label>, w: World)
    requires Leads(from, labels, w)
    ensures w == RunOn(from, labels)
  {
    var worlds :| IsTrace(worlds, from, labels, w);
    TraceIsRun(worlds, from, labels, w);
  }

  /** A run has come to `w`; it looks at the last thread, above the `rest`. */
  ghost predicate Standing(from: World, labels: seq<Label>, w: World, rest: seq<Thread>, top: Thread) {
    Leads(from, labels, w) && w.threads == rest + [top]
  }

  lemma PerformTop(w: World, rest: seq<Thread>, top: Thread, e: Effect)
    requires w.threads == rest + [top]
    ensures var w' := Perform(w, |rest|, e);
            && (e.begins == [] ==> w'.threads == rest + [e.thread])
            && (|e.begins| == 1 ==> w'.threads == rest + [e.thread] + [e.begins[0]])
  {
    assert (rest + [top])[|rest| := e.thread] == rest + [e.thread];
  }

  /** The run has gone on by one step of the thread above the `rest`: the thread that this has begun is on top
      then, or it is itself. */
  ghost predicate Taken(from: World, labels: seq<Label>, w: World, rest: seq<Thread>, c: Choice, e: Effect,
                        labels': seq<Label>, w': World) {
    labels' == labels + [Step(|rest|, c)] && Leads(from, labels', w')
    && (e.begins == [] ==> w'.threads == rest + [e.thread])
    && (|e.begins| == 1 ==> w'.threads == rest + [e.thread] + [e.begins[0]])
    && w'.shared == e.shared && w'.cancel == e.cancel && w'.done == e.done && w'.runs == e.runs
    && w'.log == w.log + e.logs && w'.cancelled == w.cancelled + e.cancels && w'.closed == w.closed + e.closes
    && w'.attaches == w.attaches + e.attaches && w'.exited == w.exited && w'.hasCommand == w.hasCommand
  }

  lemma Take(from: World, labels: seq<Label>, w: World, rest: seq<Thread>, top: Thread, c: Choice, e: Effect)
    returns (labels': seq<Label>, w': World)
    requires Standing(from, labels, w, rest, top) && e == StepOf(w, top, c)
    ensures Taken(from, labels, w, rest, c, e, labels', w')
  {
    PerformTop(w, rest, top, e);
    NextIs(w, |rest|, c, top, e);
    LeadsMore(from, labels, w, Step(|rest|, c), Perform(w, |rest|, e));
    labels', w' := labels + [Step(|rest|, c)], Perform(w, |rest|, e);
  }

  lemma TakeStart(from: World, labels: seq<Label>, w: World, rest: seq<Thread>, top: Thread, c: Choice, e: Effect)
    returns (labels': seq<Label>, w': World)
    requires Standing(from, labels, w, rest, top) && IsStart(top) && e == StepStart(w, top)
    ensures Taken(from, labels, w, rest, c, e, labels', w')
  {
    labels', w' := Take(from, labels, w, rest, top, c, e);
  }

  lemma TakeAttached(from: World, labels: seq<Label>, w: World, rest: seq<Thread>, top: Thread, c: Choice, e: Effect)
    returns (labels': seq<Label>, w': World)
    requires Standing(from, labels, w, rest, top) && IsAttached(top) && e == StepAttached(w, top, c)
    ensures Taken(from, labels, w, rest, c, e, labels', w')
  {
    labels', w' := Take(from, labels, w, rest, top, c, e);
  }

  lemma TakeStop(from: World, labels: seq<Label>, w: World, rest: seq<Thread>, top: Thread, c: Choice, e: Effect)
    returns (labels': seq<Label>, w': World)
    requires Standing(from, labels, w, rest, top) && IsStop(top) && e == StepStop(w, top, c)
    ensures Taken(from, labels, w, rest, c, e, labels', w')
  {
    labels', w' := Take(from, labels, w, rest, top, c, e);
  }

  lemma TakeWait(from: World, labels: seq<Label>, w: World, rest: seq<Thread>, top: Thread, c: Choice, e: Effect)
    returns (labels': seq<Label>, w': World)
    requires Standing(from, labels, w, rest, top) && IsWait(top) && e == StepWait(w, top, c)
    ensures Taken(from, labels, w, rest, c, e, labels', w')
  {
    labels', w' := Take(from, labels, w, rest, top, c, e);
  }

  lemma TakeRun(from: World, labels: seq<Label>, w: World, rest: seq<Thread>, top: Thread, c: Choice, e: Effect)
    returns (labels': seq<Label>, w': World)
    requires Standing(from, labels, w, rest, top) && IsRun(top) && e == StepRun(w, top, c)
    ensures Taken(from, labels, w, rest, c, e, labels', w')
  {
    labels', w' := Take(from, labels, w, rest, top, c, e);
  }

  lemma TakeEnd(from: World, labels: seq<Label>, w: World, rest: seq<Thread>, top: Thread, c: Choice, e: Effect)
    returns (labels': seq<Label>, w': World)
    requires Standing(from, labels, w, rest, top) && IsEnd(top) && e == StepEnd(w, top, c)
    ensures Taken(from, labels, w, rest, c, e, labels', w')
  {
    labels', w' := Take(from, labels, w, rest, top, c, e);
  }

  function CallOf(l: Label): Thread
    requires IsCall(l)
  {
    match l
    case CallStart(restart) => StartCall(restart)
    case CallAttach => AttachCall
    case CallStop(force) => StopCall(force, false)
  }

  lemma TakeCall(from: World, labels: seq<Label>, w: World, l: Label) returns (labels': seq<Label>, w': World)
    requires Leads(from, labels, w) && IsCall(l)
    ensures labels' == labels + [l] && w' == Go(w, CallOf(l)) && Standing(from, labels', w', w.threads, CallOf(l))
  {
    labels', w' := labels + [l], Go(w, CallOf(l));
    LeadsMore(from, labels, w, l, w');
  }

  /** A `Stop` would cancel `run`, which nothing has ended yet. */
  predicate Current(w: World, run: nat) { w.cancel == Some(run) && run !in w.cancelled && run !in w.exited }

  /** `Start` has been called, and its goroutine is about to run. */
  lemma Started(from: World) returns (labels: seq<Label>, w: World)
    requires from.shared.status == Down && from.hasCommand && Numbered(from)
    ensures Standing(from, labels, w, from.threads + [Finished], Run(from.runs)) && Current(w, from.runs)
    ensures w.shared == StartCommitted(from.shared) && w.runs == from.runs + 1 && w.log == from.log
    ensures w.done == from.runs && w.closed == from.closed
  {
    var rest, run := from.threads, from.runs;
    LeadsNowhere(from);
    labels, w := TakeCall(from, [], from, CallStart(false));
    var e := Goes(w, StartCancel(run)).(shared := StartCommitted(w.shared), runs := run + 1);
    labels, w := TakeStart(from, labels, w, rest, StartCall(false), Proceeds, e);
    e := Goes(w, StartDone(run)).(cancel := Some(run));
    labels, w := TakeStart(from, labels, w, rest, StartCancel(run), Proceeds, e);
    e := Goes(w, Finished).(done := run, begins := [Run(run)]);
    labels, w := TakeStart(from, labels, w, rest, StartDone(run), Proceeds, e);
  }

  /** MATLAB is started. */
  lemma Spawns(from: World, before: seq<Label>, v: World, run: nat, rest: seq<Thread>)
    returns (labels: seq<Label>, w: World, ch: nat)
    requires Standing(from, before, v, rest, Run(run)) && Current(v, run)
    ensures Standing(from, labels, w, rest, WaitPort(run, ch)) && ch == v.done
    ensures w.shared == v.shared.(matlabCmd := Some(run)) && w.cancel == Some(run) && Runs(w, run) && w.runs == v.runs
    ensures w.log == v.log + [DidSpawn(run)] && w.done == v.done && w.closed == v.closed
  {
    ch := v.done;
    labels, w := SetsUp(from, before, v, run, rest, ch);
    var e := Goes(w, WaitPort(run, ch)).(shared := w.shared.(matlabCmd := Some(run)));
    labels, w := TakeRun(from, labels, w, rest, Spawn(run, ch), Proceeds, e);
  }

  lemma SetsUp(from: World, before: seq<Label>, v: World, run: nat, rest: seq<Thread>, ch: nat)
    returns (labels: seq<Label>, w: World)
    requires Standing(from, before, v, rest, Run(run)) && Current(v, run) && ch == v.done
    ensures Standing(from, labels, w, rest, Spawn(run, ch))
    ensures w.shared == v.shared && w.cancel == Some(run) && Runs(w, run) && w.runs == v.runs
    ensures w.log == v.log + [DidSpawn(run)] && w.done == v.done && w.closed == v.closed
  {
    labels, w := TakeRun(from, before, v, rest, Run(run), Proceeds, Goes(v, Setup(run, ch)));
    var e := Goes(w, Spawn(run, ch)).(logs := [DidSpawn(run)]);
    labels, w := TakeRun(from, labels, w, rest, Setup(run, ch), Proceeds, e);
  }

  lemma PingInFlight(from: World) returns (labels: seq<Label>, w: World, rest: seq<Thread>, ping: Thread)
    requires from.shared.status == Down && from.hasCommand && Numbered(from)
    ensures ping.Pinged? && Standing(from, labels, w, rest, ping)
    ensures w.shared.status == Starting && w.shared.matlabCmd.Some? && w.shared.attached == from.shared.attached
    ensures w.cancel == Some(from.runs) && Runs(w, from.runs)
  {
    labels, w := Started(from);
    rest := from.threads + [Finished];
    var ch;
    labels, w, ch := Spawns(from, labels, w, from.runs, rest);
    labels, w := Pings(from, labels, w, from.runs, ch, rest);
    ping := Pinged(from.runs, ch);
  }

  lemma Pings(from: World, before: seq<Label>, v: World, run: nat, ch: nat, rest: seq<Thread>)
    returns (labels: seq<Label>, w: World)
    requires Standing(from, before, v, rest, WaitPort(run, ch)) && Runs(v, run)
    ensures Standing(from, labels, w, rest, Pinged(run, ch)) && Runs(w, run)
    ensures w.shared == v.shared && w.cancel == v.cancel && w.log == v.log && w.done == v.done && w.closed == v.closed
  {
    labels, w := TakeRun(from, before, v, rest, WaitPort(run, ch), Proceeds, Goes(v, WaitPing(run, ch)));
    labels, w := TakeRun(from, labels, w, rest, WaitPing(run, ch), Alive, Goes(w, Pinged(run, ch)));
  }

  /** `Stop` gives up waiting for a run that it has asked to end. */
  lemma StopsAnyway(from: World, before: seq<Label>, v: World) returns (labels: seq<Label>, w: World)
    requires Leads(from, before, v) && v.shared.status == Starting && v.shared.matlabCmd.Some?
    ensures Standing(from, labels, w, v.threads, Finished) && w.exited == v.exited
    ensures w.shared.status == Down && w.log != [] && w.log[|w.log| - 1].Returned?
  {
    var rest, stop := v.threads, Stop(false, false, StopBegun(v.shared).1, |v.log|);
    labels, w := StopReads(from, before, v, false, Proceeds, stop);
    if stop.seen.attached {
      labels, w := Detaches(from, labels, w, rest, Proceeds, stop);
      labels, w := WaitsInVain(from, labels, w, rest, stop, true);
    } else {
      labels, w := TakeStop(from, labels, w, rest, StopDecide(stop), Proceeds, Goes(w, StopCancel(stop)));
      labels, w := KillsAnyway(from, labels, w, rest, stop);
    }
  }

  lemma StopReads(from: World, before: seq<Label>, v: World, force: bool, c: Choice, stop: Stop)
    returns (labels: seq<Label>, w: World)
    requires Leads(from, before, v) && v.shared.status != Down
    requires stop == Stop(force, false, StopBegun(v.shared).1, |v.log|)
    ensures labels == before + [CallStop(force)] + [Step(|v.threads|, c)]
    ensures Standing(from, labels, w, v.threads, StopDecide(stop))
    ensures w.log == v.log + [StopBegan(force, stop.seen)]
    ensures w.cancel == v.cancel && w.cancelled == v.cancelled && w.exited == v.exited
    ensures w.shared == v.shared.(status := Stopping) && w.done == v.done && w.closed == v.closed
  {
    labels, w := TakeCall(from, before, v, CallStop(force));
    labels, w := StopEnters(from, labels, w, v.threads, force, c, stop);
  }

  lemma StopEnters(from: World, before: seq<Label>, v: World, rest: seq<Thread>, force: bool, c: Choice, stop: Stop)
    returns (labels: seq<Label>, w: World)
    requires Standing(from, before, v, rest, StopCall(force, false)) && v.shared.status != Down
    requires stop == Stop(force, false, StopBegun(v.shared).1, |v.log|)
    ensures labels == before + [Step(|rest|, c)] && Standing(from, labels, w, rest, StopDecide(stop))
    ensures w.log == v.log + [StopBegan(force, stop.seen)]
    ensures w.cancel == v.cancel && w.cancelled == v.cancelled && w.exited == v.exited
    ensures w.shared == v.shared.(status := Stopping) && w.done == v.done && w.closed == v.closed
  {
    var e := Goes(v, StopDecide(stop)).(shared := StopBegun(v.shared).0, logs := [StopBegan(force, stop.seen)]);
    labels, w := TakeStop(from, before, v, rest, StopCall(force, false), c, e);
  }

  /** What cancelling the context ends at once. */
  function CutShort(w: World, began: nat): seq<Event> {
    if w.cancel.Some? && Runs(w, w.cancel.value) then [CutOff(began, w.cancel.value)] else []
  }

  /** In attach mode `Stop` cancels the context that it finds. */
  lemma Detaches(from: World, before: seq<Label>, v: World, rest: seq<Thread>, c: Choice, stop: Stop)
    returns (labels: seq<Label>, w: World)
    requires Standing(from, before, v, rest, StopDecide(stop)) && (stop.seen.attached || stop.seen.cmd.None?)
    ensures labels == before + [Step(|rest|, c)] + [Step(|rest|, c)]
    ensures Standing(from, labels, w, rest, StopDetachWait(stop, None))
    ensures w.log == v.log + CutShort(v, stop.began) && w.exited == v.exited
  {
    labels, w := TakeStop(from, before, v, rest, StopDecide(stop), c, Goes(v, StopDetach(stop)));
    var e := Cancels(w, stop, StopDetachWait(stop, None));
    labels, w := TakeStop(from, labels, w, rest, StopDetach(stop), c, e);
  }

  lemma KillsAnyway(from: World, before: seq<Label>, v: World, rest: seq<Thread>, stop: Stop)
    returns (labels: seq<Label>, w: World)
    requires Standing(from, before, v, rest, StopCancel(stop)) && !stop.restart
    requires stop.seen.wasStarting && stop.seen.cmd.Some?
    ensures Standing(from, labels, w, rest, Finished) && w.exited == v.exited
    ensures w.shared.status == Down && w.log != [] && w.log[|w.log| - 1].Returned?
  {
    var e := Cancels(v, stop, StopKill(stop));
    labels, w := TakeStop(from, before, v, rest, StopCancel(stop), Proceeds, e);
    labels, w := Kills(from, labels, w, rest, Proceeds, stop);
    labels, w := WaitsInVain(from, labels, w, rest, stop, false);
  }

  function Waits(stop: Stop, on: Option<nat>, detaching: bool): Thread {
    if detaching then StopDetachWait(stop, on) else StopWait(stop, on)
  }

  lemma WaitsInVain(from: World, before: seq<Label>, v: World, rest: seq<Thread>, stop: Stop, detaching: bool)
    returns (labels: seq<Label>, w: World)
    requires Standing(from, before, v, rest, Waits(stop, None, detaching)) && !stop.restart
    ensures Standing(from, labels, w, rest, Finished) && w.exited == v.exited
    ensures w.shared.status == Down && w.log != [] && w.log[|w.log| - 1].Returned?
  {
    var some := Waits(stop, Some(v.done), detaching);
    labels, w := TakeWait(from, before, v, rest, Waits(stop, None, detaching), Proceeds, Goes(v, some));
    var e := Return(w, stop, if detaching then Disconnected(w.shared) else Failed(w.shared));
    labels, w := TakeWait(from, labels, w, rest, some, TimesOut, e);
  }

  /** That `Stop` has returned is not enough: from every reachable state that is down there is a run in
      which a ping is answered while `Stop` times out, and the status comes up after `Stop` has
      returned. */
  lemma LateConnection(before: seq<Label>) returns (labels: seq<Label>, w: World, answered: Label)
    requires Reached(true, before).shared.status == Down
    ensures w == RunOn(Reached(true, before), labels) && w.shared.status == Down
    ensures w.log != [] && w.log[|w.log| - 1].Returned?
    ensures !IsCall(answered) && Next(w, answered).shared.status == Up
  {
    var from := Reached(true, before);
    AlwaysNumbered(true, before);
    var rest, ping;
    labels, w, rest, ping := PingInFlight(from);
    labels, w := StopsAnyway(from, labels, w);
    answered := Connects(w, rest, ping);
    LeadsIsRun(from, labels, w);
  }

  lemma Connects(w: World, rest: seq<Thread>, ping: Thread) returns (answered: Label)
    requires ping.Pinged? && w.threads == rest + [ping] + [Finished]
    ensures !IsCall(answered) && Next(w, answered).shared.status == Up
  {
    answered := Step(|rest|, Proceeds);
    NextIs(w, |rest|, Proceeds, ping, StepOf(w, ping, Proceeds));
    assert StepOf(w, ping, Proceeds).shared.status == Up;
  }

  // ---------------------------------------------------------------- what a stop does

  /** `Stop` is called, and goes on until it has asked for an exit or cancelled its context. */
  function StopSteps(n: nat, force: bool, c: Choice): seq<Label> {
    [CallStop(force)] + [Step(n, c)] + [Step(n, c)] + [Step(n, c)]
  }

  /** What it reads when it begins. */
  function Begins(w: World, force: bool): Event {
    var p := w.shared;
    StopBegan(force, Seen(p.matlabCmd, p.connector, p.status == Starting, p.attached))
  }

  /** A `Stop` that begins after an attach, or without a command, ends a process exactly when the context it
      finds is that of a command that runs: a MATLAB of our own, which `attached` hides from it. */
  lemma DetachEnds(w: World, force: bool, c: Choice)
    requires (w.shared.attached || w.shared.matlabCmd.None?) && w.shared.status != Down
    ensures RunOn(w, StopSteps(|w.threads|, force, c)).log == w.log + [Begins(w, force)] + CutShort(w, |w.log|)
  {
    var stop := Stop(force, false, StopBegun(w.shared).1, |w.log|);
    LeadsNowhere(w);
    var labels, v := StopReads(w, [], w, force, c, stop);
    assert CutShort(v, |w.log|) == CutShort(w, |w.log|);
    assert [] + [CallStop(force)] == [CallStop(force)];
    labels, v := Detaches(w, labels, v, w.threads, c, stop);
    LeadsIsRun(w, labels, v);
  }

  /** A MATLAB of our own is asked to exit, through its connector, exactly when the stop is not forced, MATLAB
      is not starting, and there is a connector. Otherwise its context is cancelled at once. */
  lemma StopAsks(w: World, force: bool, c: Choice)
    requires !w.shared.attached && w.shared.matlabCmd.Some? && w.shared.status != Down
    ensures RunOn(w, StopSteps(|w.threads|, force, c)).log
            == w.log + [Begins(w, force)]
               + if !force && w.shared.status != Starting && w.shared.connector.Some?
                 then [SentExit(|w.log|, w.shared.connector.value, !c.Fails?)]
                 else CutShort(w, |w.log|)
  {
    var stop := Stop(force, false, StopBegun(w.shared).1, |w.log|);
    LeadsNowhere(w);
    var labels, v := StopReads(w, [], w, force, c, stop);
    assert CutShort(v, |w.log|) == CutShort(w, |w.log|);
    assert [] + [CallStop(force)] == [CallStop(force)];
    if CanAsk(stop) {
      labels, v := Asks(w, labels, v, w.threads, c, stop);
    } else {
      labels, v := Cuts(w, labels, v, w.threads, c, stop);
    }
    LeadsIsRun(w, labels, v);
  }

  /** Where it is not asked, it is killed next exactly when the stop is forced or MATLAB was starting. */
  lemma StopKills(w: World, force: bool, c: Choice)
    requires !w.shared.attached && w.shared.matlabCmd.Some? && w.shared.status != Down
    requires force || w.shared.status == Starting || w.shared.connector.None?
    ensures RunOn(w, StopSteps(|w.threads|, force, c) + [Step(|w.threads|, c)]).log
            == w.log + [Begins(w, force)] + CutShort(w, |w.log|)
               + if force || w.shared.status == Starting then [Killed(|w.log|, w.shared.matlabCmd.value)] else []
  {
    var stop := Stop(force, false, StopBegun(w.shared).1, |w.log|);
    LeadsNowhere(w);
    var labels, v := StopReads(w, [], w, force, c, stop);
    assert CutShort(v, |w.log|) == CutShort(w, |w.log|);
    assert [] + [CallStop(force)] == [CallStop(force)];
    labels, v := Cuts(w, labels, v, w.threads, c, stop);
    if force || w.shared.status == Starting {
      labels, v := Kills(w, labels, v, w.threads, c, stop);
    } else {
      labels, v := TakeWait(w, labels, v, w.threads, StopWait(stop, None), c, Goes(v, StopWait(stop, Some(v.done))));
    }
    LeadsIsRun(w, labels, v);
  }

  /** When it does not exit in time, it is cut off and killed after all. */
  lemma StopForces(w: World)
    requires !w.shared.attached && w.shared.matlabCmd.Some? && w.shared.status != Down
    requires w.shared.status != Starting && w.shared.connector.Some?
    ensures var n := |w.threads|;
            RunOn(w, StopSteps(n, false, Proceeds)
                     + [Step(n, Proceeds)] + [Step(n, TimesOut)] + [Step(n, Proceeds)] + [Step(n, Proceeds)]).log
            == w.log + [Begins(w, false)] + [SentExit(|w.log|, w.shared.connector.value, true)] + [GaveUp(|w.log|)]
               + CutShort(w, |w.log|) + [Killed(|w.log|, w.shared.matlabCmd.value)]
  {
    var stop := Stop(false, false, StopBegun(w.shared).1, |w.log|);
    LeadsNowhere(w);
    var labels, v := StopReads(w, [], w, false, Proceeds, stop);
    assert [] + [CallStop(false)] == [CallStop(false)];
    labels, v := Asks(w, labels, v, w.threads, Proceeds, stop);
    labels, v := GivesUpAsking(w, labels, v, w.threads, stop);
    assert CutShort(v, |w.log|) == CutShort(w, |w.log|);
    labels, v := Forces(w, labels, v, w.threads, stop.(force := true));
    LeadsIsRun(w, labels, v);
  }

  lemma Forces(from: World, before: seq<Label>, v: World, rest: seq<Thread>, stop: Stop)
    returns (labels: seq<Label>, w: World)
    requires Standing(from, before, v, rest, StopCancel(stop)) && stop.force && stop.seen.cmd.Some?
    ensures labels == before + [Step(|rest|, Proceeds)] + [Step(|rest|, Proceeds)]
    ensures Standing(from, labels, w, rest, StopWait(stop, None))
    ensures w.log == v.log + CutShort(v, stop.began) + [Killed(stop.began, stop.seen.cmd.value)]
  {
    var e := Cancels(v, stop, StopKill(stop));
    labels, w := TakeStop(from, before, v, rest, StopCancel(stop), Proceeds, e);
    labels, w := Kills(from, labels, w, rest, Proceeds, stop);
  }

  predicate CanAsk(stop: Stop) { !stop.force && !stop.seen.wasStarting && stop.seen.ec.Some? }

  lemma Asks(from: World, before: seq<Label>, v: World, rest: seq<Thread>, c: Choice, stop: Stop)
    returns (labels: seq<Label>, w: World)
    requires Standing(from, before, v, rest, StopDecide(stop)) && CanAsk(stop)
    requires !stop.seen.attached && stop.seen.cmd.Some?
    ensures labels == before + [Step(|rest|, c)] + [Step(|rest|, c)]
    ensures Standing(from, labels, w, rest,
                     if c.Fails? then StopCancel(stop.(force := true)) else StopExitWait(stop, None))
    ensures w.log == v.log + [SentExit(stop.began, stop.seen.ec.value, !c.Fails?)]
    ensures w.cancel == v.cancel && w.cancelled == v.cancelled && w.exited == v.exited
    ensures w.shared == v.shared && w.done == v.done && w.closed == v.closed
  {
    labels, w := TakeStop(from, before, v, rest, StopDecide(stop), c, Goes(v, StopExit(stop)));
    var e := Goes(w, if c.Fails? then StopCancel(stop.(force := true)) else StopExitWait(stop, None))
      .(logs := [SentExit(stop.began, stop.seen.ec.value, !c.Fails?)]);
    labels, w := TakeStop(from, labels, w, rest, StopExit(stop), c, e);
  }

  lemma GivesUpAsking(from: World, before: seq<Label>, v: World, rest: seq<Thread>, stop: Stop)
    returns (labels: seq<Label>, w: World)
    requires Standing(from, before, v, rest, StopExitWait(stop, None))
    ensures labels == before + [Step(|rest|, Proceeds)] + [Step(|rest|, TimesOut)]
    ensures Standing(from, labels, w, rest, StopCancel(stop.(force := true)))
    ensures w.log == v.log + [GaveUp(stop.began)]
    ensures w.cancel == v.cancel && w.cancelled == v.cancelled && w.exited == v.exited
  {
    var some := StopExitWait(stop, Some(v.done));
    labels, w := TakeWait(from, before, v, rest, StopExitWait(stop, None), Proceeds, Goes(v, some));
    var e := Goes(w, StopCancel(stop.(force := true))).(logs := [GaveUp(stop.began)]);
    labels, w := TakeWait(from, labels, w, rest, some, TimesOut, e);
  }

  lemma Cuts(from: World, before: seq<Label>, v: World, rest: seq<Thread>, c: Choice, stop: Stop)
    returns (labels: seq<Label>, w: World)
    requires Standing(from, before, v, rest, StopDecide(stop)) && !CanAsk(stop)
    requires !stop.seen.attached && stop.seen.cmd.Some?
    ensures labels == before + [Step(|rest|, c)] + [Step(|rest|, c)]
    ensures Standing(from, labels, w, rest,
                     if stop.force || stop.seen.wasStarting then StopKill(stop) else StopWait(stop, None))
    ensures w.log == v.log + CutShort(v, stop.began)
  {
    labels, w := TakeStop(from, before, v, rest, StopDecide(stop), c, Goes(v, StopCancel(stop)));
    var e := Cancels(w, stop, if stop.force || stop.seen.wasStarting then StopKill(stop) else StopWait(stop, None));
    labels, w := TakeStop(from, labels, w, rest, StopCancel(stop), c, e);
  }

  lemma Kills(from: World, before: seq<Label>, v: World, rest: seq<Thread>, c: Choice, stop: Stop)
    returns (labels: seq<Label>, w: World)
    requires Standing(from, before, v, rest, StopKill(stop)) && stop.seen.cmd.Some?
    ensures labels == before + [Step(|rest|, c)]
    ensures Standing(from, labels, w, rest, StopWait(stop, None)) && w.exited == v.exited
    ensures w.log == v.log + [Killed(stop.began, stop.seen.cmd.value)]
  {
    var e := Goes(v, StopWait(stop, None)).(logs := [Killed(stop.began, stop.seen.cmd.value)]);
    labels, w := TakeStop(from, before, v, rest, StopKill(stop), c, e);
  }

  /** No process is ever ended under a number that went to an attach: where the context that `Stop`
      finds is that of an attach, it ends nothing. */
  lemma AttachesEndNothing(hasCommand: bool, labels: seq<Label>, run: nat)
    requires run in Reached(hasCommand, labels).attaches
    ensures var w := Reached(hasCommand, labels);
            && !Runs(w, run) && (w.cancel == Some(run) ==> CutShort(w, |w.log|) == [])
            && forall k :: 0 <= k < |w.log| ==> !Ends(w.log[k], run)
  {
    var w := Reached(hasCommand, labels);
    AlwaysNumbered(hasCommand, labels);
    assert DidSpawn(run) !in w.log;
    forall k | 0 <= k < |w.log| ensures !Ends(w.log[k], run) {
      OnlyOursAreEnded(hasCommand, labels, k);
    }
  }

  lemma {:induction false} RunOnAll(from: World, labels: seq<Label>, more: seq<Label>)
    ensures RunOn(from, labels + more) == RunOn(RunOn(from, labels), more)
  {
    if more == [] {
      assert labels + more == labels;
    } else {
      var front := more[..|more| - 1];
      RunOnAll(from, labels, front);
      assert (labels + more)[..|labels + more| - 1] == labels + front;
    }
  }

  /** `attached` is never reset: in every reachable state that is down after an attach, a MATLAB of our
      own can still be started, and a `Stop` then ends it by cancelling its context. */
  lemma EndsThroughContext(before: seq<Label>) returns (labels: seq<Label>, w: World, run: nat)
    requires Reached(true, before).shared.status == Down && DidAttach in Reached(true, before).log
    ensures w == RunOn(Reached(true, before), labels) && w.log != []
    ensures w.log[|w.log| - 1].CutOff? && w.log[|w.log| - 1].run == run
    ensures DidSpawn(run) !in Reached(true, before).log
  {
    var from := Reached(true, before);
    Always(true, before);
    AlwaysNumbered(true, before);
    var rest, ping;
    run := from.runs;
    labels, w, rest, ping := PingInFlight(from);
    LeadsIsRun(from, labels, w);
    var more := StopSteps(|w.threads|, false, Proceeds);
    DetachEnds(w, false, Proceeds);
    RunOnAll(from, labels, more);
    labels, w := labels + more, RunOn(w, more);
  }

  // ---------------------------------------------------------------- a MATLAB left running

  predicate Ends(e: Event, run: nat) {
    match e
    case SentExit(_, ec, _) => ec == Spawned(run)
    case Killed(_, r) => r == run
    case CutOff(_, r) => r == run
    case _ => false
  }

  predicate Misses(seen: Seen, run: nat) { seen.cmd != Some(run) && seen.ec != Some(Spawned(run)) }

  /** A thread that will not end `run`, nor make its context the one that a `Stop` finds. */
  predicate LeavesAlone(t: Thread, run: nat) {
    match t
    case StartCancel(r) => r != run
    case AttachCancel(r) => r != run
    case StopDecide(stop) => stop.seen.attached || Misses(stop.seen, run)
    case StopExit(stop) => Misses(stop.seen, run)
    case StopExitWait(stop, _) => Misses(stop.seen, run)
    case StopCancel(stop) => Misses(stop.seen, run)
    case StopKill(stop) => Misses(stop.seen, run)
    case _ => true
  }

  /** After an attach, with the context of a later run in place, nothing leads to `run` any more. */
  ghost predicate OutOfReach(w: World, run: nat) {
    w.shared.attached && w.cancel != Some(run) && run < w.runs && run !in w.cancelled
    && (forall i :: 0 <= i < |w.threads| ==> LeavesAlone(w.threads[i], run))
  }

  ghost predicate EffectLeaves(w: World, e: Effect, run: nat) {
    e.shared.attached && e.cancel != Some(run) && w.runs <= e.runs && run !in e.cancels
    && LeavesAlone(e.thread, run) && (forall k :: 0 <= k < |e.begins| ==> LeavesAlone(e.begins[k], run))
    && (forall k :: 0 <= k < |e.logs| ==> !Ends(e.logs[k], run))
  }

  lemma StartLeaves(w: World, t: Thread, e: Effect, run: nat)
    requires OutOfReach(w, run) && LeavesAlone(t, run) && IsStart(t) && e == StepStart(w, t)
    ensures EffectLeaves(w, e, run)
  {
  }

  lemma AttachedLeaves(w: World, t: Thread, c: Choice, e: Effect, run: nat)
    requires OutOfReach(w, run) && LeavesAlone(t, run) && IsAttached(t) && e == StepAttached(w, t, c)
    ensures EffectLeaves(w, e, run)
  {
  }

  lemma StopLeaves(w: World, t: Thread, c: Choice, e: Effect, run: nat)
    requires OutOfReach(w, run) && LeavesAlone(t, run) && IsStop(t) && e == StepStop(w, t, c)
    ensures EffectLeaves(w, e, run)
  {
  }

  lemma WaitLeaves(w: World, t: Thread, c: Choice, e: Effect, run: nat)
    requires OutOfReach(w, run) && LeavesAlone(t, run) && IsWait(t) && e == StepWait(w, t, c)
    ensures EffectLeaves(w, e, run)
  {
  }

  lemma RunLeaves(w: World, t: Thread, c: Choice, e: Effect, run: nat)
    requires OutOfReach(w, run) && LeavesAlone(t, run) && IsRun(t) && e == StepRun(w, t, c)
    ensures EffectLeaves(w, e, run)
  {
  }

  lemma EndLeaves(w: World, t: Thread, c: Choice, e: Effect, run: nat)
    requires OutOfReach(w, run) && LeavesAlone(t, run) && IsEnd(t) && e == StepEnd(w, t, c)
    ensures EffectLeaves(w, e, run)
  {
  }

  lemma StepLeaves(w: World, t: Thread, c: Choice, e: Effect, run: nat)
    requires OutOfReach(w, run) && LeavesAlone(t, run) && e == StepOf(w, t, c)
    ensures EffectLeaves(w, e, run)
  {
    if IsStart(t) {
      StartLeaves(w, t, e, run);
    } else if IsAttached(t) {
      AttachedLeaves(w, t, c, e, run);
    } else if IsStop(t) {
      StopLeaves(w, t, c, e, run);
    } else if IsWait(t) {
      WaitLeaves(w, t, c, e, run);
    } else if IsRun(t) {
      RunLeaves(w, t, c, e, run);
    } else {
      EndLeaves(w, t, c, e, run);
    }
  }

  /** `v` comes after `w`, and nothing has ended `run` in between. */
  ghost predicate NotEnded(w: World, v: World, run: nat) {
    w.log <= v.log && run !in v.cancelled && forall k :: |w.log| <= k < |v.log| ==> !Ends(v.log[k], run)
  }

  lemma PerformLeaves(w: World, i: nat, e: Effect, run: nat)
    requires OutOfReach(w, run) && i < |w.threads| && EffectLeaves(w, e, run)
    ensures OutOfReach(Perform(w, i, e), run) && NotEnded(w, Perform(w, i, e), run)
  {
    var w' := Perform(w, i, e);
    forall k | 0 <= k < |w'.threads| ensures LeavesAlone(w'.threads[k], run) {
      if k < |w.threads| && k != i {
        assert LeavesAlone(w.threads[k], run);
      } else if k >= |w.threads| {
        assert w'.threads[k] == e.begins[k - |w.threads|];
      }
    }
    forall k | |w.log| <= k < |w'.log| ensures !Ends(w'.log[k], run) {
      assert w'.log[k] == e.logs[k - |w.log|];
    }
  }

  lemma NextLeaves(w: World, l: Label, run: nat)
    requires OutOfReach(w, run)
    ensures OutOfReach(Next(w, l), run) && NotEnded(w, Next(w, l), run)
  {
    if l.Step? && l.thread < |w.threads| {
      var t := w.threads[l.thread];
      var e := StepOf(w, t, l.choice);
      StepLeaves(w, t, l.choice, e, run);
      PerformLeaves(w, l.thread, e, run);
    }
  }

  /** Whatever is called and happens from then on, nobody ends that process. */
  lemma {:induction false} StaysOutOfReach(w: World, labels: seq<Label>, run: nat)
    requires OutOfReach(w, run)
    ensures OutOfReach(RunOn(w, labels), run) && NotEnded(w, RunOn(w, labels), run)
  {
    if labels != [] {
      var v := RunOn(w, labels[..|labels| - 1]);
      StaysOutOfReach(w, labels[..|labels| - 1], run);
      NextLeaves(v, labels[|labels| - 1], run);
    }
  }

  ghost predicate AllLeaveAlone(threads: seq<Thread>, run: nat) { forall t :: t in threads ==> LeavesAlone(t, run) }

  /** Nothing in a reachable state leads to the run that begins next. */
  lemma NewIsLeftAlone(w: World)
    requires Inv(w) && Numbered(w)
    ensures AllLeaveAlone(w.threads, w.runs)
  {
    assert DidSpawn(w.runs) !in w.log;
    forall t | t in w.threads ensures LeavesAlone(t, w.runs) {
      var i :| 0 <= i < |w.threads| && w.threads[i] == t;
      assert ThreadOk(w.log, t) && ThreadNumbered(t, w.runs, w.attaches);
    }
  }

  /** `Attach` has been called, and its goroutine is about to run. */
  lemma Attaches(from: World, before: seq<Label>, v: World) returns (labels: seq<Label>, w: World)
    requires Leads(from, before, v) && v.shared.status == Down
    ensures Standing(from, labels, w, v.threads + [Finished], RunAttached(v.runs))
    ensures w.shared == AttachBegun(v.shared) && w.runs == v.runs + 1 && w.cancel == Some(v.runs)
    ensures w.log == v.log + [DidAttach] && w.cancelled == v.cancelled && w.exited == v.exited
  {
    var rest, run := v.threads, v.runs;
    labels, w := TakeCall(from, before, v, CallAttach);
    var e := Goes(w, AttachCancel(run))
      .(shared := AttachBegun(w.shared), runs := run + 1, attaches := {run}, logs := [DidAttach]);
    labels, w := TakeStart(from, labels, w, rest, AttachCall, Proceeds, e);
    e := Goes(w, AttachDone(run)).(cancel := Some(run));
    labels, w := TakeStart(from, labels, w, rest, AttachCancel(run), Proceeds, e);
    e := Goes(w, Finished).(done := run, begins := [RunAttached(run)]);
    labels, w := TakeStart(from, labels, w, rest, AttachDone(run), Proceeds, e);
  }

  /** MATLAB has been started, and the wait for it has timed out. */
  lemma TimedOut(from: World) returns (labels: seq<Label>, w: World, ch: nat)
    requires from.shared.status == Down && from.hasCommand && Numbered(from)
    ensures Standing(from, labels, w, from.threads + [Finished], WaitExit(from.runs, ch))
    ensures w.shared.status == Down && w.shared.matlabCmd.Some? && w.runs == from.runs + 1 && Runs(w, from.runs)
  {
    var run, rest := from.runs, from.threads + [Finished];
    labels, w := Started(from);
    labels, w, ch := Spawns(from, labels, w, run, rest);
    var e := Goes(w, WaitExit(run, ch)).(shared := Failed(w.shared));
    labels, w := TakeRun(from, labels, w, rest, WaitPort(run, ch), TimesOut, e);
  }

  lemma AttachesMeanwhile(from: World) returns (labels: seq<Label>, w: World)
    requires from.shared.status == Down && from.hasCommand && Numbered(from) && AllLeaveAlone(from.threads, from.runs)
    ensures Leads(from, labels, w) && OutOfReach(w, from.runs) && Runs(w, from.runs)
    ensures w.shared.status == Starting && w.shared.matlabCmd.Some?
  {
    var ch;
    labels, w, ch := TimedOut(from);
    labels, w := Attaches(from, labels, w);
    LaterLeave(w, from.threads, from.runs, ch);
  }

  lemma LaterLeave(w: World, earlier: seq<Thread>, run: nat, ch: nat)
    requires w.threads == earlier + [Finished] + [WaitExit(run, ch)] + [Finished] + [RunAttached(run + 1)]
    requires AllLeaveAlone(earlier, run)
    ensures forall i :: 0 <= i < |w.threads| ==> LeavesAlone(w.threads[i], run)
  {
    forall i | 0 <= i < |w.threads| ensures LeavesAlone(w.threads[i], run) {
      if i < |earlier| {
        assert w.threads[i] in earlier;
      }
    }
  }

  lemma StopsOver(v: World) returns (labels: seq<Label>, w: World)
    requires v.shared.status == Starting && v.shared.matlabCmd.Some?
    ensures w == RunOn(v, labels) && w.exited == v.exited
    ensures w.shared.status == Down && w.log != [] && w.log[|w.log| - 1].Returned?
  {
    LeadsNowhere(v);
    labels, w := StopsAnyway(v, [], v);
    LeadsIsRun(v, labels, w);
  }

  /** From every reachable state that is down there is a run in which our MATLAB is started, times out and
      still runs while we attach to another, and in which `Stop` then returns with the status down. That
      MATLAB runs on, and no call ever ends it. */
  lemma LeftRunning(before: seq<Label>) returns (labels: seq<Label>, w: World, run: nat)
    requires Reached(true, before).shared.status == Down
    ensures w == RunOn(Reached(true, before), labels) && w.shared.status == Down
    ensures w.log != [] && w.log[|w.log| - 1].Returned?
    ensures Runs(w, run) && DidSpawn(run) !in Reached(true, before).log
    ensures forall more :: NotEnded(w, RunOn(w, more), run)
  {
    var from := Reached(true, before);
    Always(true, before);
    AlwaysNumbered(true, before);
    run := from.runs;
    NewIsLeftAlone(from);
    var v, more;
    labels, v := AttachesMeanwhile(from);
    LeadsIsRun(from, labels, v);
    more, w := StopsOver(v);
    StaysOutOfReach(v, more, run);
    RunOnAll(from, labels, more);
    labels := labels + more;
    forall later ensures NotEnded(w, RunOn(w, later), run) {
      StaysOutOfReach(w, later, run);
    }
  }

  // ---------------------------------------------------------------- the fields

  /** The fields behind the mutex, and what is done to them between `Lock` and `Unlock`. */
  class Process {
    var status: Status
    var connector: Option<Origin>
    var attached: bool
    var matlabCmd: Option<nat>
    var busy: bool

    ghost function Fields(): Shared
      reads this
    {
      Shared(status, connector, attached, matlabCmd, busy)
    }

    ghost predicate Valid()
      reads this
    {
      Safe(Fields())
    }

    constructor ()
      ensures Valid() && Fields() == INITIAL
    {
      status, connector, attached, matlabCmd, busy := Down, None, false, None, false;
    }

    /** `Start`, once nothing is in its way. */
    method CommitStart()
      requires Valid()
      modifies this
      ensures Valid() && Fields() == StartCommitted(old(Fields()))
    {
      status := Starting;
      busy := false;
      connector := None;
    }

    /** `Attach`. */
    method BeginAttach() returns (ok: bool)
      requires Valid()
      modifies this
      ensures Valid() && ok == (old(status) == Down)
      ensures Fields() == if ok then AttachBegun(old(Fields())) else old(Fields())
    {
      ok := status == Down;
      if ok {
        status := Starting;
        attached := true;
      }
    }

    /** A ping was answered; a connector to someone else's process comes after `Attach`. */
    method Connect(ec: Origin)
      requires Valid() && (ec.External? ==> attached)
      modifies this
      ensures Valid() && Fields() == Connected(old(Fields()), ec)
    {
      connector := Some(ec);
      status := Up;
    }

    /** The monitor of an attached process gives up, or `Stop` has detached. */
    method Disconnect()
      requires Valid()
      modifies this
      ensures Valid() && Fields() == Disconnected(old(Fields()))
    {
      status := Down;
      busy := false;
      connector := None;
    }

    /** The end of `run`. */
    method EndRun()
      requires Valid()
      modifies this
      ensures Valid() && Fields() == RunEnded(old(Fields()))
    {
      status := Down;
      busy := false;
      connector := None;
      matlabCmd := None;
    }

    /** `setError`, and other ends that leave the connector. */
    method Fail()
      requires Valid()
      modifies this
      ensures Valid() && Fields() == Failed(old(Fields()))
    {
      status := Down;
    }

    /** The first critical section of `Stop`. */
    method BeginStop() returns (seen: Option<Seen>)
      requires Valid()
      modifies this
      ensures Valid() && (seen.None? <==> old(status) == Down)
      ensures (Fields(), seen) == if old(status) == Down then (old(Fields()), None)
                                  else var (p, s) := StopBegun(old(Fields())); (p, Some(s))
      ensures seen.Some? && seen.value.ec.Some? && seen.value.ec.value.External? ==> seen.value.attached
    {
      if status == Down {
        return None;
      }
      seen := Some(Seen(matlabCmd, connector, status == Starting, attached));
      status := Stopping;
    }
  }
}
