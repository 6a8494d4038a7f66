/** The single-viewer lease (internal/session/session.go): of several clients that poll, one at a time
    is the active one, until it stops polling, leaves, or another one takes over. */
module Lease {

  type Client = string

  /** Nobody. */
  const NOBODY: Client := ""

  /** `ActiveClientTimeout`, in nanoseconds. */
  const TIMEOUT: nat := 10000000000

  /** The active client and when it last polled; 0 is the zero time, which no clock shows. */
  datatype State = State(active: Client, seen: nat)

  const INITIAL := State(NOBODY, 0)

  datatype Event = Poll(client: Client, transfer: bool, now: nat) | Clear(client: Client)

  function Expired(s: State, now: nat): bool {
    s.active != NOBODY && s.seen != 0 && now - s.seen > TIMEOUT
  }

  /** A poll, and whether it is granted. */
  function Polled(s: State, client: Client, transfer: bool, now: nat): (State, bool) {
    var active := if Expired(s, now) then NOBODY else s.active;
    if active == NOBODY || active == client || transfer then (State(client, now), true)
    else (s.(active := active), false)
  }

  function Cleared(s: State, client: Client): State {
    if s.active == client then s.(active := NOBODY) else s
  }

  function Next(s: State, e: Event): State {
    match e
    case Poll(client, transfer, now) => Polled(s, client, transfer, now).0
    case Clear(client) => Cleared(s, client)
  }

  function After(events: seq<Event>): State {
    if events == [] then INITIAL else Next(After(events[..|events| - 1]), events[|events| - 1])
  }

  /** Event `i` is a poll that is granted. */
  predicate Granted(events: seq<Event>, i: nat)
    requires i < |events|
  {
    events[i].Poll?
    && var e := events[i]; Polled(After(events[..i]), e.client, e.transfer, e.now).1
  }

  /** Clients have names, and no clock shows the zero time. */
  ghost predicate Sensible(events: seq<Event>) {
    forall i :: 0 <= i < |events| && events[i].Poll? ==> events[i].client != NOBODY && events[i].now > 0
  }

  // ---------------------------------------------------------------- who has it

  lemma AfterMore(events: seq<Event>, i: nat)
    requires i < |events|
    ensures After(events[..i + 1]) == Next(After(events[..i]), events[i])
  {
    assert events[..i + 1][..i] == events[..i];
  }

  /** The last poll among events `i` to `j - 1` that was granted to the client of event `i`. */
  function LastGrant(events: seq<Event>, i: nat, j: nat): (k: nat)
    requires i < j <= |events| && Granted(events, i)
    ensures i <= k < j && Granted(events, k) && events[k].client == events[i].client
  {
    if j == i + 1 then i
    else if Granted(events, j - 1) && events[j - 1].client == events[i].client then j - 1
    else LastGrant(events, i, j - 1)
  }

  /** The client is cleared after event `i` and before event `j`. */
  ghost predicate ClearedBetween(events: seq<Event>, client: Client, i: nat, j: nat)
    requires j <= |events|
  {
    exists k :: i < k < j && events[k] == Clear(client)
  }

  /** No other client is granted between events `i` and `j`. */
  predicate NobodyElse(events: seq<Event>, i: nat, j: nat)
    requires i < |events| && events[i].Poll? && j <= |events|
  {
    j <= i + 1
    || (NobodyElse(events, i, j - 1) && (Granted(events, j - 1) ==> events[j - 1].client == events[i].client))
  }

  /** The client has the lease as of event `last`, unless it has been cleared since; then nobody has it. */
  ghost predicate HeldSince(events: seq<Event>, client: Client, last: nat, j: nat, s: State)
    requires last < j <= |events| && events[last].Poll?
  {
    if ClearedBetween(events, client, last, j) then s.active == NOBODY else s == State(client, events[last].now)
  }

  /** While nobody else is granted, the client has the lease as of its last granted poll, unless it has
      been cleared since; then nobody has it. */
  lemma {:induction false} Holds(events: seq<Event>, i: nat, j: nat)
    requires Sensible(events) && i < j <= |events| && Granted(events, i) && NobodyElse(events, i, j)
    ensures HeldSince(events, events[i].client, LastGrant(events, i, j), j, After(events[..j]))
  {
    AfterMore(events, j - 1);
    if i + 1 < j {
      Holds(events, i, j - 1);
      HoldsNext(events, events[i].client, LastGrant(events, i, j - 1), j, After(events[..j - 1]));
    }
  }

  /** One more event. */
  lemma HoldsNext(events: seq<Event>, client: Client, last: nat, j: nat, s: State)
    requires last + 1 < j <= |events| && events[last].Poll? && events[last].now > 0 && client != NOBODY
    requires HeldSince(events, client, last, j - 1, s)
    requires var e := events[j - 1];
             e.Poll? ==> e.client != NOBODY && e.now > 0
                         && (Polled(s, e.client, e.transfer, e.now).1 ==> e.client == client)
    ensures var e := events[j - 1];
            if e.Poll? && Polled(s, e.client, e.transfer, e.now).1 then HeldSince(events, client, j - 1, j, Next(s, e))
            else HeldSince(events, client, last, j, Next(s, e))
  {
    ClearedMore(events, client, last, j);
  }

  lemma ClearedMore(events: seq<Event>, client: Client, last: nat, j: nat)
    requires last + 1 < j <= |events|
    ensures ClearedBetween(events, client, last, j) <==>
              ClearedBetween(events, client, last, j - 1) || events[j - 1] == Clear(client)
  {
    if ClearedBetween(events, client, last, j - 1) {
      var k :| last < k < j - 1 && events[k] == Clear(client);
      assert last < k < j && events[k] == Clear(client);
    }
  }

  /** The lease passes on: after a grant to one client, the next poll of another is granted exactly when
      it asks for a transfer, or the first client has been cleared since its last granted poll, or that
      is more than the timeout ago. */
  lemma PassesOn(events: seq<Event>, i: nat, j: nat)
    requires Sensible(events) && i < j < |events| && Granted(events, i) && NobodyElse(events, i, j)
    requires events[j].Poll? && events[j].client != events[i].client
    ensures var last := LastGrant(events, i, j);
            Granted(events, j) <==>
              events[j].transfer
              || ClearedBetween(events, events[i].client, last, j)
              || events[j].now - events[last].now > TIMEOUT
  {
    Holds(events, i, j);
  }

  /** While nobody else is granted, every poll of the client is: it keeps the lease by polling, and gets it
      back when it has let it run out or has been cleared. */
  lemma KeepsOn(events: seq<Event>, i: nat, j: nat)
    requires Sensible(events) && i < j < |events| && Granted(events, i) && NobodyElse(events, i, j)
    requires events[j].Poll? && events[j].client == events[i].client
    ensures Granted(events, j)
  {
    Holds(events, i, j);
  }

  /** Nobody has the lease before the first grant: the first poll gets it. */
  lemma {:induction false} FirstPoll(events: seq<Event>, j: nat)
    requires j < |events| && events[j].Poll? && forall k :: 0 <= k < j ==> !events[k].Poll?
    ensures Granted(events, j)
  {
    NobodyYet(events, j);
  }

  lemma {:induction false} NobodyYet(events: seq<Event>, j: nat)
    requires j <= |events| && forall k :: 0 <= k < j ==> !events[k].Poll?
    ensures After(events[..j]).active == NOBODY
  {
    if j > 0 {
      NobodyYet(events, j - 1);
      AfterMore(events, j - 1);
    }
  }

  // ---------------------------------------------------------------- the manager

  class Manager {
    var activeClientID: Client
    var activeClientSeen: nat
    const concurrencyEnabled: bool

    ghost function View(): State
      reads this
    {
      State(activeClientID, activeClientSeen)
    }

    constructor (concurrencyEnabled: bool)
      ensures View() == INITIAL && this.concurrencyEnabled == concurrencyEnabled
    {
      activeClientID, activeClientSeen := NOBODY, 0;
      this.concurrencyEnabled := concurrencyEnabled;
    }

    /** `SetActiveClient`, at the time `now`. */
    method SetActiveClient(clientID: Client, transferSession: bool, now: nat) returns (isActive: bool)
      modifies this
      ensures if concurrencyEnabled then (View(), isActive) == Polled(old(View()), clientID, transferSession, now)
              else isActive && View() == old(View())
    {
      if !concurrencyEnabled {
        return true;
      }
      var activeExpired := activeClientID != "" && activeClientSeen != 0 && now - activeClientSeen > TIMEOUT;
      if activeExpired {
        activeClientID := "";
      }
      if activeClientID == "" {
        activeClientID := clientID;
        activeClientSeen := now;
        return true;
      }
      if activeClientID == clientID {
        activeClientSeen := now;
        return true;
      }
      if transferSession {
        activeClientID := clientID;
        activeClientSeen := now;
        return true;
      }
      return false;
    }

    method ClearClient(clientID: Client)
      modifies this
      ensures View() == Cleared(old(View()), clientID)
    {
      if activeClientID == clientID {
        activeClientID := "";
      }
    }
  }
}
