/** Who controls a session: the arbitration between the host and remote clients. */
module Control {
  import opened Common
  import opened Lifecycle

  type ClientId = string

  datatype Kind = Nobody | Host | Remote

  /** The controlling part of a session entry. */
  datatype Entry = Entry(status: Status, clientId: Option<ClientId>, kind: Kind)

  /** A remote controller always has a client id, and nobody is named when there is no controller,
      which happens only for sessions that failed to start. */
  predicate WellFormed(e: Entry) {
    && (e.kind.Remote? ==> e.clientId.Some?)
    && (e.kind.Nobody? ==> e.clientId.None? && IsTerminal(e.status))
  }

  // ----- operations on one entry -----

  function Request(e: Entry, client: ClientId, kind: Kind): (Entry, bool) {
    if !IsInteractive(e.status) || kind.Nobody? then (e, false)
    else if !e.kind.Remote? || kind.Host? then (e.(clientId := Some(client), kind := kind), true)
    else (e, e.clientId == Some(client))
  }

  function Release(e: Entry, client: ClientId): (Entry, bool) {
    if e.kind.Nobody? then (e, true)
    else if e.clientId.None? then (e, e.kind.Host?)
    else if e.clientId != Some(client) then (e, false)
    else (Reset(e), true)
  }

  function Reset(e: Entry): Entry { e.(clientId := None, kind := Host) }

  predicate Has(e: Entry, client: ClientId) { e.clientId == Some(client) && !e.kind.Nobody? }

  /** `stopped` and `after` say what the process layer reports. */
  function Stop(e: Entry, stopped: bool, after: Status): (Entry, bool) {
    if IsTerminal(e.status) then (Reset(e), true)
    else if stopped then (Reset(e.(status := after)), true)
    else (e, false)
  }

  function ShutDown(e: Entry, skipped: bool, after: Status): Entry {
    if skipped then e else Reset(e.(status := after))
  }

  // ----- the manager -----

  class SessionManager {
    var sessions: map<string, Entry>

    ghost predicate Valid()
      reads this
    {
      forall id :: id in sessions ==> WellFormed(sessions[id])
    }

    constructor ()
      ensures Valid() && sessions == map[]
    {
      sessions := map[];
    }

    /** Sessions that start are controlled by the host; failed ones by nobody. */
    method AddSession(id: string, started: bool)
      requires Valid() && id !in sessions
      modifies this
      ensures Valid()
      ensures sessions
           == old(sessions)[id := if started then Entry(Running, None, Host) else Entry(Error, None, Nobody)]
    {
      sessions := sessions[id := if started then Entry(Running, None, Host) else Entry(Error, None, Nobody)];
    }

    method RequestControl(id: string, client: ClientId, kind: Kind) returns (granted: bool)
      requires Valid()
      modifies this
      ensures Valid()
      ensures id !in old(sessions) ==> !granted && sessions == old(sessions)
      ensures id in old(sessions) ==>
        var (e, ok) := Request(old(sessions)[id], client, kind);
        granted == ok && sessions == old(sessions)[id := e]
    {
      if id !in sessions { return false; }
      var e := sessions[id];
      assert sessions == sessions[id := e];
      if !IsInteractive(e.status) || kind.Nobody? { return false; }
      if e.kind.Host? || e.kind.Nobody? {
        sessions := sessions[id := e.(clientId := Some(client), kind := kind)];
        return true;
      }
      if e.kind.Remote? && kind.Host? {
        sessions := sessions[id := e.(clientId := Some(client), kind := kind)];
        return true;
      }
      // the dereference of the source is defined: a remote controller has a client id
      return e.clientId.value == client;
    }

    method ReleaseControl(id: string, client: ClientId) returns (released: bool)
      requires Valid()
      modifies this
      ensures Valid()
      ensures id !in old(sessions) ==> !released && sessions == old(sessions)
      ensures id in old(sessions) ==>
        var (e, ok) := Release(old(sessions)[id], client);
        released == ok && sessions == old(sessions)[id := e]
    {
      if id !in sessions { return false; }
      var e := sessions[id];
      assert sessions == sessions[id := e];
      if e.kind.Nobody? { return true; }
      if e.clientId.None? { return e.kind.Host?; }
      if e.clientId.value != client { return false; }
      sessions := sessions[id := e.(clientId := None, kind := Host)];
      return true;
    }

    method HasControl(id: string, client: ClientId) returns (held: bool)
      requires Valid()
      ensures held <==> id in sessions && Has(sessions[id], client)
    {
      if id !in sessions { return false; }
      var e := sessions[id];
      return e.clientId.Some? && e.clientId.value == client && !e.kind.Nobody?;
    }

    method StopSession(id: string, processStopped: bool, after: Status) returns (stopped: bool)
      requires Valid()
      modifies this
      ensures Valid()
      ensures id !in old(sessions) ==> !stopped && sessions == old(sessions)
      ensures id in old(sessions) ==>
        var (e, ok) := Stop(old(sessions)[id], processStopped, after);
        stopped == ok && sessions == old(sessions)[id := e]
    {
      if id !in sessions { return false; }
      var e := sessions[id];
      assert sessions == sessions[id := e];
      if IsTerminal(e.status) {
        sessions := sessions[id := Reset(e)];
        return true;
      }
      if processStopped {
        sessions := sessions[id := Reset(e.(status := after))];
      }
      return processStopped;
    }

    /** Sessions whose status is not interactive are forgotten. */
    method ClearInactive() returns (removed: nat)
      requires Valid()
      modifies this
      ensures Valid()
      ensures sessions == map id | id in old(sessions) && IsInteractive(old(sessions)[id].status) :: old(sessions)[id]
      ensures removed + |sessions| == |old(sessions)|
    {
      var kept := map id | id in sessions && IsInteractive(sessions[id].status) :: sessions[id];
      assert kept.Keys <= sessions.Keys;
      assert |sessions.Keys - kept.Keys| == |sessions.Keys| - |kept.Keys|;
      removed := |sessions| - |kept|;
      sessions := kept;
    }
  }

  // ----- runs over one session -----

  datatype Event =
    | RequestControl(client: ClientId, kind: Kind)
    | ReleaseControl(client: ClientId)
    | StatusChange(status: Status)
    | StopSession(stopped: bool, after: Status)
    | ShutdownAll(skipped: bool, after: Status)
    | ClearInactive

  /** The session's entry, or nothing once it has been cleared. */
  type Slot = Option<Entry>

  /** A finished session does not come back to life. */
  predicate Possible(slot: Slot, ev: Event) {
    slot.Some? && ev.StatusChange? && IsTerminal(slot.value.status) ==> IsTerminal(ev.status)
  }

  function After(slot: Slot, ev: Event): Slot {
    if slot.None? then None
    else
      var e := slot.value;
      match ev
      case RequestControl(client, kind) => Some(Request(e, client, kind).0)
      case ReleaseControl(client) => Some(Release(e, client).0)
      case StatusChange(status) => Some(e.(status := status))
      case StopSession(stopped, after) => Some(Stop(e, stopped, after).0)
      case ShutdownAll(skipped, after) => Some(ShutDown(e, skipped, after))
      case ClearInactive => if IsInteractive(e.status) then slot else None
  }

  predicate Proper(slot: Slot) { slot.Some? ==> WellFormed(slot.value) }

  ghost predicate IsRun(slots: seq<Slot>, events: seq<Event>) {
    && |slots| == |events| + 1
    && (slots[0] == Some(Entry(Running, None, Host)) || slots[0] == Some(Entry(Error, None, Nobody)))
    && forall i :: 0 <= i < |events| ==> Possible(slots[i], events[i]) && slots[i + 1] == After(slots[i], events[i])
  }

  /** In every reachable state a remote controller has a client id and a missing controller has none. */
  lemma {:induction false} ReachableProper(slots: seq<Slot>, events: seq<Event>, k: nat)
    requires IsRun(slots, events) && k < |slots|
    ensures Proper(slots[k])
    decreases k
  {
    if k == 0 {
    } else {
      ReachableProper(slots, events, k - 1);
      assert Possible(slots[k - 1], events[k - 1]);
    }
  }

  /** A request is granted exactly when it leaves the requester in control; a refused request
      changes nothing. */
  lemma {:induction false} GrantedMeansControl(e: Entry, client: ClientId, kind: Kind)
    requires WellFormed(e) && !kind.Nobody?
    ensures var (e', granted) := Request(e, client, kind);
      && (granted ==> Has(e', client) && IsInteractive(e'.status))
      && (!granted ==> e' == e && (IsInteractive(e.status) ==> !Has(e', client)))
  {}

  /** A request is refused exactly when the session is not interactive, or it is a remote one and another
      client holds control remotely; granted, it makes the requester the controller of the kind it asked
      for and changes nothing else. */
  lemma {:induction false} RefusedExactly(e: Entry, client: ClientId, kind: Kind)
    requires WellFormed(e) && !kind.Nobody?
    ensures var (e', granted) := Request(e, client, kind);
      && (!granted <==> || !IsInteractive(e.status)
                        || (kind.Remote? && exists other :: other != client && HeldRemotely(Some(e), other)))
      && e' == if granted then Entry(e.status, Some(client), kind) else e
  {
    if e.kind.Remote? { assert HeldRemotely(Some(e), e.clientId.value); }
  }

  /** A release is refused exactly when another client is the controller. */
  lemma {:induction false} ReleaseAnswer(e: Entry, client: ClientId)
    requires WellFormed(e)
    ensures !Release(e, client).1 <==> exists other :: other != client && Has(e, other)
  {
    if e.clientId.Some? { assert Has(e, e.clientId.value) || e.kind.Nobody?; }
  }

  /** Stopping frees the session for the host, unless the process could not be stopped. */
  lemma {:induction false} StopFreesControl(e: Entry, stopped: bool, after: Status, client: ClientId)
    ensures var (e', ok) := Stop(e, stopped, after);
      && (ok ==> !Has(e', client) && e'.kind.Host?)
      && (!ok ==> e' == e && !IsTerminal(e.status) && !stopped)
  {}

  /** Control is released by the holder only, and releasing always leaves the host in charge. */
  lemma {:induction false} ReleaseIsByHolder(e: Entry, client: ClientId)
    requires WellFormed(e)
    ensures var e' := Release(e, client).0;
      && (Has(e, client) ==> e' == Reset(e))
      && (!Has(e, client) ==> e' == e)
      && !Has(e', client)
  {}

  predicate HeldRemotely(slot: Slot, client: ClientId) {
    slot.Some? && slot.value.kind.Remote? && slot.value.clientId == Some(client)
  }

  /** The events that take control away from a remote holder: its own release, a host request while
      the session is interactive, a stop, a shutdown, and the removal of a finished session. */
  predicate Displaces(e: Entry, ev: Event, client: ClientId) {
    match ev
    case RequestControl(_, kind) => kind.Host? && IsInteractive(e.status)
    case ReleaseControl(releaser) => releaser == client
    case StatusChange(_) => false
    case StopSession(stopped, _) => IsTerminal(e.status) || stopped
    case ShutdownAll(skipped, _) => !skipped
    case ClearInactive => !IsInteractive(e.status)
  }

  lemma {:induction false} DisplacementIsExact(slot: Slot, ev: Event, client: ClientId)
    requires Proper(slot) && HeldRemotely(slot, client)
    ensures HeldRemotely(After(slot, ev), client) <==> !Displaces(slot.value, ev, client)
  {}

  /** Over every run, between a state where a client holds control remotely and a later one where it
      does not, a displacing event happened while it still held control.  In particular no other
      remote client's request ever displaces it. */
  lemma {:induction false} DisplacedOnlyByLaw(slots: seq<Slot>, events: seq<Event>, client: ClientId, i: nat, j: nat)
    returns (k: nat)
    requires IsRun(slots, events) && i <= j < |slots|
    requires HeldRemotely(slots[i], client) && !HeldRemotely(slots[j], client)
    ensures i <= k < j && HeldRemotely(slots[k], client) && Displaces(slots[k].value, events[k], client)
    decreases j - i
  {
    ReachableProper(slots, events, i);
    DisplacementIsExact(slots[i], events[i], client);
    if Displaces(slots[i].value, events[i], client) {
      k := i;
    } else {
      k := DisplacedOnlyByLaw(slots, events, client, i + 1, j);
    }
  }

  /** A run in which clearing inactive sessions ends remote control: the session has exited meanwhile. */
  lemma {:induction false} ClearingEndsControl(client: ClientId) returns (slots: seq<Slot>, events: seq<Event>)
    ensures IsRun(slots, events) && |slots| == 4
    ensures HeldRemotely(slots[2], client) && events[2].ClearInactive? && !HeldRemotely(slots[3], client)
  {
    slots := [Some(Entry(Running, None, Host)), Some(Entry(Running, Some(client), Remote)),
              Some(Entry(Exited, Some(client), Remote)), None];
    events := [RequestControl(client, Remote), StatusChange(Exited), ClearInactive];
    forall i | 0 <= i < |events| ensures Possible(slots[i], events[i]) && slots[i + 1] == After(slots[i], events[i]) {
      assert i == 0 || i == 1 || i == 2;
    }
  }
}
