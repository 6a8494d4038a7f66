/** The time-sliced write queue (xterm.js module 5981): chunks wait in line, a slice works on them
    until its time is up, and what is left is taken up by the next slice. */
module WriteBuffer {

  /** A chunk of output, text or bytes. */
  type Chunk = seq<nat>
  /** What the caller wants to be called when the chunk has been parsed; it may want nothing. */
  datatype Callback = NoCallback | Callback(id: nat)
  datatype Entry = Entry(chunk: Chunk, callback: Callback)
  /** What the outside sees. */
  datatype Event = Ran(chunk: Chunk) | Called(id: nat)

  const DISCARD_WATERMARK := 50000000
  const WRITE_BUFFER_LENGTH_THRESHOLD := 50

  // ---------------------------------------------------------------- what has to come out

  function LogOfEntry(e: Entry): seq<Event> {
    [Ran(e.chunk)] + if e.callback.Callback? then [Called(e.callback.id)] else []
  }

  /** Every chunk is acted on, and its callback called, before the next. */
  function LogOf(entries: seq<Entry>): seq<Event> {
    if entries == [] then [] else LogOf(entries[..|entries| - 1]) + LogOfEntry(entries[|entries| - 1])
  }

  function Total(entries: seq<Entry>): nat {
    if entries == [] then 0 else |entries[0].chunk| + Total(entries[1..])
  }

  function Runs(log: seq<Event>): seq<Chunk> {
    if log == [] then []
    else Runs(log[..|log| - 1]) + if log[|log| - 1].Ran? then [log[|log| - 1].chunk] else []
  }

  function Calls(log: seq<Event>): seq<nat> {
    if log == [] then []
    else Calls(log[..|log| - 1]) + if log[|log| - 1].Called? then [log[|log| - 1].id] else []
  }

  function Chunks(entries: seq<Entry>): seq<Chunk> {
    if entries == [] then [] else Chunks(entries[..|entries| - 1]) + [entries[|entries| - 1].chunk]
  }

  function Wanted(entries: seq<Entry>): seq<nat> {
    if entries == [] then []
    else
      var e := entries[|entries| - 1];
      Wanted(entries[..|entries| - 1]) + if e.callback.Callback? then [e.callback.id] else []
  }

  lemma LogMore(log: seq<Event>, e: Event)
    ensures Runs(log + [e]) == Runs(log) + if e.Ran? then [e.chunk] else []
    ensures Calls(log + [e]) == Calls(log) + if e.Called? then [e.id] else []
  {
    assert (log + [e])[..|log|] == log;
  }

  /** Each action runs once and in order, and so does each callback. */
  lemma {:induction false} OnceAndInOrder(entries: seq<Entry>)
    ensures Runs(LogOf(entries)) == Chunks(entries)
    ensures Calls(LogOf(entries)) == Wanted(entries)
  {
    if entries != [] {
      var front, e := entries[..|entries| - 1], entries[|entries| - 1];
      OnceAndInOrder(front);
      EntryLogged(LogOf(front), e, LogOf(entries));
    }
  }

  lemma EntryLogged(log: seq<Event>, e: Entry, log': seq<Event>)
    requires log' == log + LogOfEntry(e)
    ensures Runs(log') == Runs(log) + [e.chunk]
    ensures Calls(log') == Calls(log) + if e.callback.Callback? then [e.callback.id] else []
  {
    var ran := log + [Ran(e.chunk)];
    LogMore(log, Ran(e.chunk));
    if e.callback.Callback? {
      LogMore(ran, Called(e.callback.id));
      assert log' == ran + [Called(e.callback.id)];
    } else {
      assert log' == ran;
    }
  }

  /** Where entry `k` begins in the log: after one event for every entry before it, and one for every
      callback wanted. */
  function Place(entries: seq<Entry>, k: nat): nat
    requires k <= |entries|
  {
    k + |Wanted(entries[..k])|
  }

  lemma PlaceNext(entries: seq<Entry>, k: nat)
    requires k < |entries|
    ensures Place(entries, k + 1) == Place(entries, k) + if entries[k].callback.Callback? then 2 else 1
  {
    assert entries[..k + 1][..k] == entries[..k];
  }

  /** The log of the first entries comes first. */
  lemma {:induction false} LogBegins(entries: seq<Entry>, k: nat)
    requires k <= |entries|
    ensures LogOf(entries[..k]) <= LogOf(entries) && |LogOf(entries[..k])| == Place(entries, k)
    decreases |entries| - k, k
  {
    LogLength(entries[..k]);
    if k == |entries| {
      assert entries[..k] == entries;
    } else {
      LogBegins(entries, k + 1);
      LogNext(entries, k);
    }
  }

  lemma LogNext(entries: seq<Entry>, k: nat)
    requires k < |entries|
    ensures LogOf(entries[..k + 1]) == LogOf(entries[..k]) + LogOfEntry(entries[k])
  {
    assert entries[..k + 1][..k] == entries[..k];
  }

  lemma {:induction false} LogLength(entries: seq<Entry>)
    ensures |LogOf(entries)| == |entries| + |Wanted(entries)|
  {
    if entries != [] {
      LogLength(entries[..|entries| - 1]);
    }
  }

  /** In the log of what is done, every chunk is acted on when all before it have been and no other, and
      its callback, if any, is the very next event: after its own action and before that of the next. */
  lemma ActsThenCalls(entries: seq<Entry>, k: nat)
    requires k < |entries|
    ensures var log, p := LogOf(entries), Place(entries, k);
            && p < |log| && log[p] == Ran(entries[k].chunk)
            && Runs(log[..p]) == Chunks(entries[..k]) && Calls(log[..p]) == Wanted(entries[..k])
            && (entries[k].callback.Callback? ==> p + 1 < |log| && log[p + 1] == Called(entries[k].callback.id))
            && Place(entries, k + 1) == p + if entries[k].callback.Callback? then 2 else 1
  {
    LogBegins(entries, k);
    LogBegins(entries, k + 1);
    LogNext(entries, k);
    PlaceNext(entries, k);
    OnceAndInOrder(entries[..k]);
    assert LogOf(entries)[..Place(entries, k)] == LogOf(entries[..k]);
    FoundAt(LogOf(entries), LogOf(entries[..k]), LogOfEntry(entries[k]));
  }

  lemma FoundAt(log: seq<Event>, before: seq<Event>, piece: seq<Event>)
    requires before + piece <= log
    ensures forall i :: 0 <= i < |piece| ==> log[|before| + i] == piece[i]
  {
    forall i | 0 <= i < |piece| ensures log[|before| + i] == piece[i] {
      assert (before + piece)[|before| + i] == piece[i];
    }
  }

  /** There is nothing else in the log. */
  lemma {:induction false} NothingElse(entries: seq<Entry>, n: nat, q: nat) returns (k: nat)
    requires n <= |entries| && q < Place(entries, n)
    ensures k < n && (q == Place(entries, k) || (q == Place(entries, k) + 1 && entries[k].callback.Callback?))
  {
    PlaceNext(entries, n - 1);
    if q < Place(entries, n - 1) {
      k := NothingElse(entries, n - 1, q);
    } else {
      k := n - 1;
    }
  }

  /** So every call in the log comes right after the action on the chunk it was given with. */
  lemma CalledAfterItsChunk(entries: seq<Entry>, q: nat)
    requires q < |LogOf(entries)| && LogOf(entries)[q].Called?
    ensures exists k | 0 <= k < |entries| ::
              && Place(entries, k) + 1 == q && LogOf(entries)[q - 1] == Ran(entries[k].chunk)
              && entries[k].callback == Callback(LogOf(entries)[q].id)
  {
    LogBegins(entries, |entries|);
    assert entries[..|entries|] == entries;
    var k := NothingElse(entries, |entries|, q);
    ActsThenCalls(entries, k);
    assert Place(entries, k) + 1 == q;
  }

  lemma {:induction false} TotalMore(entries: seq<Entry>, e: Entry)
    ensures Total(entries + [e]) == Total(entries) + |e.chunk|
  {
    if entries != [] {
      assert (entries + [e])[1..] == entries[1..] + [e];
      TotalMore(entries[1..], e);
    } else {
      assert [e][1..] == [];
    }
  }

  // ---------------------------------------------------------------- what may happen meanwhile

  /** What an action or a callback may do to the queue. */
  datatype Act = Write(entry: Entry) | UserInput

  /** One turn of the loop: what the action does, what the callback does, and whether the time of the
      slice is up after it. */
  datatype Turn = Turn(inAction: seq<Act>, inCallback: seq<Act>, timeUp: bool)

  /** The turns of a slice; those that are not listed are quiet. */
  function TurnAt(script: seq<Turn>, k: nat): Turn {
    if k < |script| then script[k] else Turn([], [], false)
  }

  /** A slice takes entries from the front until nothing is left or the time is up, at least one; what
      is written meanwhile goes to the end. */
  ghost predicate Sliced(finished: seq<Entry>, waiting: seq<Entry>, script: seq<Turn>,
                         finished': seq<Entry>, waiting': seq<Entry>) {
    finished + waiting <= finished' + waiting' && |finished| < |finished'|
    && var k := |finished'| - |finished|;
       (forall j :: 0 <= j < k - 1 ==> !TurnAt(script, j).timeUp)
       && (waiting' != [] ==> TurnAt(script, k - 1).timeUp)
  }

  // ---------------------------------------------------------------- the queue

  class WriteBuffer {
    var writeBuffer: seq<Chunk>
    var callbacks: seq<Callback>
    var pendingData: int
    var bufferOffset: nat
    var didUserInput: bool
    /** Slices that have been asked for and have not begun. */
    var scheduled: nat
    /** What is done, what waits, and what the outside has seen. */
    ghost var finished: seq<Entry>
    ghost var waiting: seq<Entry>
    ghost var log: seq<Event>

    /** Everything accepted so far. */
    ghost function Written(): seq<Entry>
      reads this
    {
      finished + waiting
    }

    /** What waits is in the two lists from the offset on, and its size is known. */
    ghost predicate Conserves()
      reads this
    {
      |writeBuffer| == |callbacks| && bufferOffset <= |writeBuffer| && |waiting| == |writeBuffer| - bufferOffset
      && (forall k :: 0 <= k < |waiting| ==>
            waiting[k] == Entry(writeBuffer[bufferOffset..][k], callbacks[bufferOffset..][k]))
      && pendingData == Total(waiting)
    }

    /** Between calls: the log is that of what is done, and one slice is scheduled exactly when work
        remains. */
    ghost predicate Valid()
      reads this
    {
      Conserves() && log == LogOf(finished)
      && scheduled == (if waiting != [] then 1 else 0)
      && (writeBuffer != [] ==> waiting != [])
    }

    constructor ()
      ensures Valid() && Written() == [] && log == [] && !didUserInput
    {
      writeBuffer, callbacks, pendingData, bufferOffset, didUserInput, scheduled := [], [], 0, 0, false, 0;
      finished, waiting, log := [], [], [];
    }

    method HandleUserInput()
      requires Valid()
      modifies this`didUserInput
      ensures Valid() && didUserInput
    {
      didUserInput := true;
    }

    /** The end of `write`: the entry is in line. */
    method Enqueue(e: Entry)
      requires Conserves()
      modifies this`writeBuffer, this`callbacks, this`pendingData, this`waiting
      ensures Conserves() && waiting == old(waiting) + [e] && writeBuffer != []
    {
      TotalMore(waiting, e);
      ghost var chunks, calls := writeBuffer[bufferOffset..], callbacks[bufferOffset..];
      pendingData := pendingData + |e.chunk|;
      writeBuffer := writeBuffer + [e.chunk];
      callbacks := callbacks + [e.callback];
      waiting := waiting + [e];
      assert writeBuffer[bufferOffset..] == chunks + [e.chunk] && callbacks[bufferOffset..] == calls + [e.callback];
    }

    /** `write` while there are chunks in line. */
    method WriteBusy(e: Entry) returns (accepted: bool)
      requires Conserves() && writeBuffer != []
      modifies this`writeBuffer, this`callbacks, this`pendingData, this`waiting
      ensures Conserves() && writeBuffer != []
      ensures accepted == (old(pendingData) <= DISCARD_WATERMARK)
      ensures waiting == old(waiting) + if accepted then [e] else []
    {
      accepted := false;
      if !(pendingData > DISCARD_WATERMARK) {
        Enqueue(e);
        accepted := true;
      }
    }

    /** `write(chunk, callback)`; the error it throws is that nothing is accepted. `script` says what
        happens in the slice that user input starts at once. */
    method Write(e: Entry, script: seq<Turn>) returns (accepted: bool)
      requires Valid()
      modifies this
      ensures Valid()
      ensures accepted == (old(pendingData) <= DISCARD_WATERMARK)
      ensures !accepted ==> unchanged(this)
      ensures accepted && !(old(didUserInput) && old(waiting) == []) ==>
                finished == old(finished) && waiting == old(waiting) + [e] && didUserInput == old(didUserInput)
      ensures accepted && old(didUserInput) && old(waiting) == [] ==>
                Sliced(old(finished), [e], script, finished, waiting)
    {
      if pendingData > DISCARD_WATERMARK {
        return false;
      }
      accepted := true;
      if |writeBuffer| == 0 {
        bufferOffset := 0;
        if didUserInput {
          didUserInput := false;
          Enqueue(e);
          InnerWrite(script);
          return;
        }
        scheduled := scheduled + 1;
      }
      Enqueue(e);
    }

    /** A scheduled slice begins. */
    method Slice(script: seq<Turn>)
      requires Valid() && scheduled > 0
      modifies this
      ensures Valid() && Sliced(old(finished), old(waiting), script, finished, waiting)
    {
      scheduled := scheduled - 1;
      InnerWrite(script);
    }

    /** `_innerWrite`. */
    method InnerWrite(script: seq<Turn>)
      requires Conserves() && log == LogOf(finished) && scheduled == 0 && waiting != []
      modifies this
      ensures Valid() && Sliced(old(finished), old(waiting), script, finished, waiting)
    {
      var k := 0;
      var timeUp := false;
      while |writeBuffer| > bufferOffset && !timeUp
        invariant Conserves() && log == LogOf(finished) && scheduled == 0 && writeBuffer != []
        invariant old(Written()) <= Written() && |finished| == old(|finished|) + k && (k == 0 ==> waiting != [])
        invariant timeUp ==> k > 0 && TurnAt(script, k - 1).timeUp
        invariant forall j :: 0 <= j < (if timeUp then k - 1 else k) ==> !TurnAt(script, j).timeUp
        decreases if k < |script| then |script| - k else 0, |waiting|, !timeUp
      {
        timeUp := OneTurn(TurnAt(script, k));
        k := k + 1;
      }
      if |writeBuffer| > bufferOffset {
        if bufferOffset > WRITE_BUFFER_LENGTH_THRESHOLD {
          writeBuffer := writeBuffer[bufferOffset..];
          callbacks := callbacks[bufferOffset..];
          bufferOffset := 0;
        }
        scheduled := scheduled + 1;
      } else {
        writeBuffer, callbacks, pendingData, bufferOffset := [], [], 0, 0;
      }
    }

    /** One turn of the loop. */
    method OneTurn(turn: Turn) returns (timeUp: bool)
      requires Conserves() && log == LogOf(finished) && waiting != [] && writeBuffer != []
      modifies this
      ensures Conserves() && log == LogOf(finished) && writeBuffer != []
      ensures |finished| == old(|finished|) + 1 && old(Written()) <= Written()
      ensures scheduled == old(scheduled) && timeUp == turn.timeUp
      ensures turn.inAction == [] && turn.inCallback == [] ==> |waiting| == old(|waiting|) - 1
    {
      ghost var e, others, log0, finished0 := waiting[0], waiting, log, finished;
      var chunk := Act(turn.inAction);
      CallBack(turn.inCallback);
      LogDone(log0, finished0, e, log);
      EndTurn(|chunk|, e, others);
      timeUp := turn.timeUp;
    }

    /** The entry in front is done with; those that were waiting still come in order. */
    method EndTurn(length: nat, ghost e: Entry, ghost others: seq<Entry>)
      requires Conserves() && waiting != [] && waiting[0] == e && |e.chunk| == length
      requires log == LogOf(finished + [e]) && others <= waiting
      modifies this`bufferOffset, this`pendingData, this`finished, this`waiting
      ensures Conserves() && bufferOffset == old(bufferOffset) + 1 && log == LogOf(finished)
      ensures finished == old(finished) + [e] && |waiting| == old(|waiting|) - 1
      ensures old(finished) + others <= finished + waiting
    {
      ghost var finished0 := finished;
      Advance(length, e);
      InOrder(finished0, others, e, finished, waiting);
    }

    method Act(meanwhile: seq<Act>) returns (chunk: Chunk)
      requires Conserves() && waiting != [] && writeBuffer != []
      modifies this`writeBuffer, this`callbacks, this`pendingData, this`waiting, this`didUserInput, this`log
      ensures Conserves() && writeBuffer != []
      ensures old(waiting) <= waiting && (meanwhile == [] ==> waiting == old(waiting))
      ensures chunk == old(waiting)[0].chunk && log == old(log) + [Ran(chunk)]
    {
      chunk := FrontChunk();
      log := log + [Ran(chunk)];
      Meanwhile(meanwhile);
    }

    method CallBack(meanwhile: seq<Act>)
      requires Conserves() && waiting != [] && writeBuffer != []
      modifies this`writeBuffer, this`callbacks, this`pendingData, this`waiting, this`didUserInput, this`log
      ensures Conserves() && writeBuffer != []
      ensures old(waiting) <= waiting && (meanwhile == [] ==> waiting == old(waiting))
      ensures var callback := old(waiting)[0].callback;
              log == old(log) + if callback.Callback? then [Called(callback.id)] else []
    {
      var callback := FrontCallback();
      if callback.Callback? {
        log := log + [Called(callback.id)];
        Meanwhile(meanwhile);
      }
    }

    method FrontChunk() returns (chunk: Chunk)
      requires Conserves() && waiting != []
      ensures chunk == waiting[0].chunk
    {
      chunk := writeBuffer[bufferOffset];
      assert waiting[0].chunk == writeBuffer[bufferOffset..][0];
    }

    method FrontCallback() returns (callback: Callback)
      requires Conserves() && waiting != []
      ensures callback == waiting[0].callback
    {
      callback := callbacks[bufferOffset];
      assert waiting[0].callback == callbacks[bufferOffset..][0];
    }

    method Advance(length: nat, ghost e: Entry)
      requires Conserves() && waiting != [] && waiting[0] == e && |e.chunk| == length
      modifies this`bufferOffset, this`pendingData, this`finished, this`waiting
      ensures Conserves() && bufferOffset == old(bufferOffset) + 1
      ensures finished == old(finished) + [e] && old(waiting) == [e] + waiting
    {
      assert writeBuffer[bufferOffset..][1..] == writeBuffer[bufferOffset + 1..];
      assert callbacks[bufferOffset..][1..] == callbacks[bufferOffset + 1..];
      bufferOffset := bufferOffset + 1;
      pendingData := pendingData - length;
      finished, waiting := finished + [e], waiting[1..];
    }

    /** What an action or a callback does to the queue while it is being worked on. */
    method Meanwhile(acts: seq<Act>)
      requires Conserves() && writeBuffer != []
      modifies this`writeBuffer, this`callbacks, this`pendingData, this`waiting, this`didUserInput
      ensures Conserves() && writeBuffer != [] && old(waiting) <= waiting
      ensures acts == [] ==> waiting == old(waiting)
    {
      for i := 0 to |acts|
        invariant Conserves() && writeBuffer != [] && old(waiting) <= waiting
        invariant i == 0 ==> waiting == old(waiting)
      {
        match acts[i]
        case Write(entry) => var _ := WriteBusy(entry);
        case UserInput => didUserInput := true;
      }
    }
  }

  lemma InOrder(finished: seq<Entry>, waiting: seq<Entry>, e: Entry, finished': seq<Entry>, waiting': seq<Entry>)
    requires waiting <= [e] + waiting' && finished' == finished + [e]
    ensures finished + waiting <= finished' + waiting'
  {
    assert finished + ([e] + waiting') == finished' + waiting';
  }

  lemma LogDone(before: seq<Event>, finished: seq<Entry>, e: Entry, after: seq<Event>)
    requires before == LogOf(finished) && after == before + LogOfEntry(e)
    ensures after == LogOf(finished + [e])
  {
    assert (finished + [e])[..|finished|] == finished;
  }
}
