/** The three kinds of sockets that take and release control of a session, running against the
    session manager in arbitrary interleavings of their completion handlers.

    The server runs its handlers on one thread, so each handler is one atomic step.  An operation
    whose result had already been queued when its socket was closed still delivers that result;
    only operations started after the close are bound to fail. */
module ControlSockets {
  import opened Common
  import opened Lifecycle
  import opened Control

  /** An asynchronous operation: none, one that may still succeed, one started on a closed socket. */
  datatype Pending = Idle | Live | Doomed

  function Restart(closed: bool): Pending { if closed then Doomed else Live }

  datatype ObserverState = ObserverState(closed: bool, read: Pending)

  datatype RemoteState = RemoteState(hasControl: bool, closed: bool)

  datatype LocalState = LocalState(hasControl: bool, closed: bool, accepted: bool, read: Pending, wait: Pending)

  datatype Socket = Observer(o: ObserverState) | Remotely(r: RemoteState) | Locally(l: LocalState)

  function RequestIn(slot: Slot, client: ClientId, kind: Kind): (Slot, bool) {
    if slot.None? then (None, false)
    else
      var (e, granted) := Request(slot.value, client, kind);
      (Some(e), granted)
  }

  function ReleaseIn(slot: Slot, client: ClientId): (Slot, bool) {
    if slot.None? then (None, false)
    else
      var (e, released) := Release(slot.value, client);
      (Some(e), released)
  }

  predicate HasIn(slot: Slot, client: ClientId) { slot.Some? && Has(slot.value, client) }

  // ----- handlers of the local controller, on values -----

  function LocalClose(slot: Slot, id: ClientId, s: LocalState): (Slot, LocalState) {
    if s.closed then (slot, s)
    else if s.hasControl then (ReleaseIn(slot, id).0, s.(closed := true, hasControl := false))
    else (slot, s.(closed := true))
  }

  /** Taking control before input; `resized` is the outcome of the PTY resize. */
  function LocalEnsure(slot: Slot, id: ClientId, s: LocalState, resized: bool): (Slot, LocalState, bool) {
    if s.hasControl && HasIn(slot, id) then (slot, s, true)
    else
      var (slot', granted) := RequestIn(slot, id, Host);
      (slot', s.(hasControl := granted && resized), granted && resized)
  }

  /** The handshake: control is requested for the host, then the PTY is resized. */
  function LocalHandshake(slot: Slot, id: ClientId, resized: bool): (Slot, LocalState) {
    var (slot', granted) := RequestIn(slot, id, Host);
    (slot', LocalState(granted, false, granted && resized, Idle, Idle))
  }

  /** Does the readable handler find the session alive and in the hands of an unnamed host? */
  predicate Reclaimable(slot: Slot) {
    slot.Some? && !IsTerminal(slot.value.status) && slot.value.kind.Host? && slot.value.clientId.None?
  }

  /** The control part of the handler that runs when the PTY has become readable. */
  function LocalReadable(slot: Slot, id: ClientId, s: LocalState): (Slot, LocalState) {
    var s1 := if s.hasControl && !HasIn(slot, id) then s.(hasControl := false) else s;
    if !s1.hasControl && Reclaimable(slot) then
      var (slot', granted) := RequestIn(slot, id, Host);
      (slot', s1.(hasControl := s1.hasControl || granted))
    else (slot, s1)
  }

  // ----- the same handlers as the source performs them -----

  ghost function SlotOf(m: SessionManager, session: string): Slot
    reads m
  {
    if session in m.sessions then Some(m.sessions[session]) else None
  }

  /** Only the given session's entry may have changed. */
  ghost predicate OthersKept(before: map<string, Entry>, after: map<string, Entry>, session: string) {
    && (session in after <==> session in before)
    && forall id :: id != session ==> (id in after <==> id in before) && (id in after ==> after[id] == before[id])
  }

  class LocalControllerSession {
    const manager: SessionManager
    const sessionId: string
    const clientId: ClientId
    var hasControl: bool
    var closed: bool
    var accepted: bool
    var read: Pending
    var wait: Pending

    ghost function State(): LocalState
      reads this
    {
      LocalState(hasControl, closed, accepted, read, wait)
    }

    constructor (manager: SessionManager, sessionId: string, clientId: ClientId)
      ensures this.manager == manager && this.sessionId == sessionId && this.clientId == clientId
      ensures State() == LocalState(false, false, false, Idle, Idle)
    {
      this.manager, this.sessionId, this.clientId := manager, sessionId, clientId;
      hasControl, closed, accepted, read, wait := false, false, false, Idle, Idle;
    }

    method ReleaseControlIfHeld()
      requires manager.Valid()
      modifies this`hasControl, manager
      ensures manager.Valid() && !hasControl
      ensures OthersKept(old(manager.sessions), manager.sessions, sessionId)
      ensures SlotOf(manager, sessionId)
           == if old(hasControl) then ReleaseIn(old(SlotOf(manager, sessionId)), clientId).0
              else old(SlotOf(manager, sessionId))
    {
      if !hasControl { return; }
      var released := manager.ReleaseControl(sessionId, clientId);
      hasControl := false;
    }

    method ForceClose()
      requires manager.Valid()
      modifies this`hasControl, this`closed, manager
      ensures manager.Valid() && OthersKept(old(manager.sessions), manager.sessions, sessionId)
      ensures (SlotOf(manager, sessionId), State())
           == LocalClose(old(SlotOf(manager, sessionId)), clientId, old(State()))
    {
      if closed { return; }
      closed := true;
      ReleaseControlIfHeld();
    }

    method HandleHandshake(resized: bool)
      requires manager.Valid() && State() == LocalState(false, false, false, Idle, Idle)
      modifies this`hasControl, this`accepted, manager
      ensures manager.Valid() && OthersKept(old(manager.sessions), manager.sessions, sessionId)
      ensures (SlotOf(manager, sessionId), State())
           == LocalHandshake(old(SlotOf(manager, sessionId)), clientId, resized)
    {
      var granted := manager.RequestControl(sessionId, clientId, Host);
      if !granted { return; }
      hasControl := true;
      accepted := resized;
    }

    method EnsureControlForInput(resized: bool) returns (ok: bool)
      requires manager.Valid()
      modifies this`hasControl, manager
      ensures manager.Valid() && OthersKept(old(manager.sessions), manager.sessions, sessionId)
      ensures (SlotOf(manager, sessionId), State(), ok)
           == LocalEnsure(old(SlotOf(manager, sessionId)), clientId, old(State()), resized)
    {
      var held := manager.HasControl(sessionId, clientId);
      if hasControl && held { return true; }
      var granted := manager.RequestControl(sessionId, clientId, Host);
      if !granted {
        hasControl := false;
        return false;
      }
      hasControl := true;
      if !resized {
        hasControl := false;
        return false;
      }
      return true;
    }

    method OnReadable()
      requires manager.Valid()
      modifies this`hasControl, manager
      ensures manager.Valid() && OthersKept(old(manager.sessions), manager.sessions, sessionId)
      ensures (SlotOf(manager, sessionId), State())
           == LocalReadable(old(SlotOf(manager, sessionId)), clientId, old(State()))
    {
      var held := manager.HasControl(sessionId, clientId);
      if hasControl && !held { hasControl := false; }
      if sessionId !in manager.sessions || IsTerminal(manager.sessions[sessionId].status) { return; }
      var e := manager.sessions[sessionId];
      if !hasControl && e.kind.Host? && e.clientId.None? {
        var granted := manager.RequestControl(sessionId, clientId, Host);
        if granted { hasControl := true; }
      }
    }
  }

  // ----- handlers of the remote controller -----

  function RemoteClose(slot: Slot, id: ClientId, s: RemoteState): (Slot, RemoteState) {
    if s.closed then (slot, s)
    else if s.hasControl then (ReleaseIn(slot, id).0, s.(closed := true, hasControl := false))
    else (slot, s.(closed := true))
  }

  function RemoteRelease(slot: Slot, id: ClientId, s: RemoteState): (Slot, RemoteState) {
    var (slot', released) := ReleaseIn(slot, id);
    (slot', if released then s.(hasControl := false) else s)
  }

  function RemoteGone(slot: Slot, id: ClientId, s: RemoteState): Slot {
    if s.hasControl then ReleaseIn(slot, id).0 else slot
  }

  class RemoteControllerSession {
    const manager: SessionManager
    const sessionId: string
    const clientId: ClientId
    var hasControl: bool
    var closed: bool

    ghost function State(): RemoteState
      reads this
    {
      RemoteState(hasControl, closed)
    }

    constructor (manager: SessionManager, sessionId: string, clientId: ClientId)
      ensures this.manager == manager && this.sessionId == sessionId && this.clientId == clientId
      ensures State() == RemoteState(false, false)
    {
      this.manager, this.sessionId, this.clientId := manager, sessionId, clientId;
      hasControl, closed := false, false;
    }

    method OnAccepted()
      requires manager.Valid() && !hasControl
      modifies this`hasControl, manager
      ensures manager.Valid() && OthersKept(old(manager.sessions), manager.sessions, sessionId)
      ensures (SlotOf(manager, sessionId), hasControl) == RequestIn(old(SlotOf(manager, sessionId)), clientId, Remote)
    {
      var granted := manager.RequestControl(sessionId, clientId, Remote);
      if granted { hasControl := true; }
    }

    method ForceClose()
      requires manager.Valid()
      modifies this`hasControl, this`closed, manager
      ensures manager.Valid() && OthersKept(old(manager.sessions), manager.sessions, sessionId)
      ensures (SlotOf(manager, sessionId), State())
           == RemoteClose(old(SlotOf(manager, sessionId)), clientId, old(State()))
    {
      if closed { return; }
      closed := true;
      if hasControl {
        var released := manager.ReleaseControl(sessionId, clientId);
        hasControl := false;
      }
    }

    /** What happens when the object goes away. */
    method Dispose()
      requires manager.Valid()
      modifies this`hasControl, manager
      ensures manager.Valid() && OthersKept(old(manager.sessions), manager.sessions, sessionId)
      ensures SlotOf(manager, sessionId) == RemoteGone(old(SlotOf(manager, sessionId)), clientId, old(State()))
    {
      if hasControl {
        var released := manager.ReleaseControl(sessionId, clientId);
        hasControl := false;
      }
    }

    method OnReleaseCommand()
      requires manager.Valid()
      modifies this`hasControl, manager
      ensures manager.Valid() && OthersKept(old(manager.sessions), manager.sessions, sessionId)
      ensures (SlotOf(manager, sessionId), State())
           == RemoteRelease(old(SlotOf(manager, sessionId)), clientId, old(State()))
    {
      var released := manager.ReleaseControl(sessionId, clientId);
      if released { hasControl := false; }
    }
  }

  // ----- handlers of the observer -----

  /** The control side of an observing web socket: it keeps no flag, and gives up whatever it holds
      on every failure and when it is closed. */
  class ObserverSession {
    const manager: SessionManager
    const sessionId: string
    const clientId: ClientId
    var closed: bool
    var read: Pending

    ghost function State(): ObserverState
      reads this
    {
      ObserverState(closed, read)
    }

    constructor (manager: SessionManager, sessionId: string, clientId: ClientId)
      ensures this.manager == manager && this.sessionId == sessionId && this.clientId == clientId
      ensures State() == ObserverState(false, Live)
    {
      this.manager, this.sessionId, this.clientId := manager, sessionId, clientId;
      closed, read := false, Live;
    }

    method OnRequestCommand(kind: Kind)
      requires manager.Valid() && read.Live?
      modifies this`read, manager
      ensures manager.Valid() && OthersKept(old(manager.sessions), manager.sessions, sessionId)
      ensures SlotOf(manager, sessionId) == RequestIn(old(SlotOf(manager, sessionId)), clientId, kind).0
      ensures State() == old(State()).(read := Restart(closed))
    {
      var granted := manager.RequestControl(sessionId, clientId, kind);
      read := if closed then Doomed else Live;
    }

    method OnReadError()
      requires manager.Valid() && !read.Idle?
      modifies this`read, manager
      ensures manager.Valid() && OthersKept(old(manager.sessions), manager.sessions, sessionId)
      ensures SlotOf(manager, sessionId) == ReleaseIn(old(SlotOf(manager, sessionId)), clientId).0
      ensures State() == old(State()).(read := Idle)
    {
      var released := manager.ReleaseControl(sessionId, clientId);
      read := Idle;
    }

    method ForceClose()
      requires manager.Valid()
      modifies this`closed, manager
      ensures manager.Valid() && OthersKept(old(manager.sessions), manager.sessions, sessionId)
      ensures SlotOf(manager, sessionId) == if old(closed) then old(SlotOf(manager, sessionId))
                                            else ReleaseIn(old(SlotOf(manager, sessionId)), clientId).0
      ensures State() == old(State()).(closed := true)
    {
      if closed { return; }
      closed := true;
      var released := manager.ReleaseControl(sessionId, clientId);
    }

    /** What happens when the object goes away. */
    method Dispose()
      requires manager.Valid()
      modifies manager
      ensures manager.Valid() && OthersKept(old(manager.sessions), manager.sessions, sessionId)
      ensures SlotOf(manager, sessionId) == ReleaseIn(old(SlotOf(manager, sessionId)), clientId).0
    {
      var released := manager.ReleaseControl(sessionId, clientId);
    }
  }

  // ----- the system -----

  datatype System = System(slot: Slot, sockets: map<ClientId, Socket>)

  datatype Step =
    // the manager on its own: status changes, stops, shutdown, clearing
    | Manager(ev: Event)
    // observer web socket
    | ObserverOpen(id: ClientId)
    | ObserverRequest(id: ClientId, kind: Kind)
    | ObserverRelease(id: ClientId)
    | ObserverOtherRead(id: ClientId)
    | ObserverReadError(id: ClientId)
    | ObserverWriteError(id: ClientId)
    | ObserverForceClose(id: ClientId)
    // remote controller web socket
    | RemoteOpen(id: ClientId, usable: bool)
    | RemoteReleased(id: ClientId)
    | RemotePump(id: ClientId)
    | RemoteForceClose(id: ClientId)
    // local controller socket
    | LocalOpen(id: ClientId, resized: bool)
    | LocalReady(id: ClientId)
    | LocalControlFrame(id: ClientId, resized: bool)
    | LocalOtherFrame(id: ClientId, accepted: bool)
    | LocalReadError(id: ClientId)
    | LocalWaitDone(id: ClientId, rearm: bool)
    | LocalWaitError(id: ClientId, aborted: bool)
    | LocalForceClose(id: ClientId)
    // the object goes away; its id may come back
    | Destroyed(id: ClientId)

  predicate IsObserver(s: System, id: ClientId) { id in s.sockets && s.sockets[id].Observer? }

  predicate IsRemote(s: System, id: ClientId) { id in s.sockets && s.sockets[id].Remotely? }

  predicate IsLocal(s: System, id: ClientId) { id in s.sockets && s.sockets[id].Locally? }

  /** No handler of the socket is left to run.  A local controller always ends by closing itself.  The
      handlers of a remote controller are not followed one by one, so it may end at any time. */
  predicate Finished(sock: Socket) {
    match sock
    case Observer(o) => o.read.Idle?
    case Remotely(_) => true
    case Locally(l) => l.closed && !l.accepted && l.read.Idle? && l.wait.Idle?
  }

  /** The ids of sockets that exist differ; handlers run only for operations that are outstanding, and
      deliver success only for operations started on an open socket. */
  predicate Enabled(s: System, step: Step) {
    match step
    case Manager(ev) => !ev.RequestControl? && !ev.ReleaseControl? && Possible(s.slot, ev)
    case ObserverOpen(id) => id !in s.sockets
    case ObserverRequest(id, _) => IsObserver(s, id) && s.sockets[id].o.read.Live?
    case ObserverRelease(id) => IsObserver(s, id) && s.sockets[id].o.read.Live?
    case ObserverOtherRead(id) => IsObserver(s, id) && s.sockets[id].o.read.Live?
    case ObserverReadError(id) => IsObserver(s, id) && !s.sockets[id].o.read.Idle?
    case ObserverWriteError(id) => IsObserver(s, id)
    case ObserverForceClose(id) => IsObserver(s, id)
    case RemoteOpen(id, _) => id !in s.sockets
    case RemoteReleased(id) => IsRemote(s, id)
    case RemotePump(id) => IsRemote(s, id)
    case RemoteForceClose(id) => IsRemote(s, id)
    case LocalOpen(id, _) => id !in s.sockets
    case LocalReady(id) => IsLocal(s, id) && s.sockets[id].l.accepted
    case LocalControlFrame(id, _) => IsLocal(s, id) && s.sockets[id].l.read.Live?
    case LocalOtherFrame(id, _) => IsLocal(s, id) && s.sockets[id].l.read.Live?
    case LocalReadError(id) => IsLocal(s, id) && !s.sockets[id].l.read.Idle?
    case LocalWaitDone(id, _) => IsLocal(s, id) && s.sockets[id].l.wait.Live?
    case LocalWaitError(id, _) => IsLocal(s, id) && !s.sockets[id].l.wait.Idle?
    case LocalForceClose(id) => IsLocal(s, id)
    case Destroyed(id) => id in s.sockets && Finished(s.sockets[id])
  }

  function PutObserver(s: System, id: ClientId, slot: Slot, o: ObserverState): System {
    System(slot, s.sockets[id := Observer(o)])
  }

  function PutRemote(s: System, id: ClientId, r: (Slot, RemoteState)): System {
    System(r.0, s.sockets[id := Remotely(r.1)])
  }

  function PutLocal(s: System, id: ClientId, r: (Slot, LocalState)): System {
    System(r.0, s.sockets[id := Locally(r.1)])
  }

  function ApplyObserver(s: System, id: ClientId, o: ObserverState, step: Step): System {
    match step
    case ObserverRequest(_, kind) => PutObserver(s, id, RequestIn(s.slot, id, kind).0, o.(read := Restart(o.closed)))
    case ObserverRelease(_) => PutObserver(s, id, ReleaseIn(s.slot, id).0, o.(read := Restart(o.closed)))
    case ObserverOtherRead(_) => PutObserver(s, id, s.slot, o.(read := Restart(o.closed)))
    case ObserverReadError(_) => PutObserver(s, id, ReleaseIn(s.slot, id).0, o.(read := Idle))
    case ObserverWriteError(_) => s.(slot := ReleaseIn(s.slot, id).0)
    case ObserverForceClose(_) =>
      if o.closed then s else PutObserver(s, id, ReleaseIn(s.slot, id).0, o.(closed := true))
    case _ => s
  }

  function ApplyRemote(s: System, id: ClientId, r: RemoteState, step: Step): System {
    match step
    case RemoteReleased(_) => PutRemote(s, id, RemoteRelease(s.slot, id, r))
    case RemotePump(_) =>
      if !r.closed && r.hasControl && !HasIn(s.slot, id) then PutRemote(s, id, (s.slot, r.(hasControl := false))) else s
    case RemoteForceClose(_) => PutRemote(s, id, RemoteClose(s.slot, id, r))
    case _ => s
  }

  function ApplyLocal(s: System, id: ClientId, l: LocalState, step: Step): System {
    match step
    case LocalReady(_) =>
      var wait := if l.closed then Idle else Live;
      PutLocal(s, id, (s.slot, l.(accepted := false, read := Restart(l.closed), wait := wait)))
    case LocalControlFrame(_, resized) =>
      var (slot, l1, _) := LocalEnsure(s.slot, id, l, resized);
      PutLocal(s, id, (slot, l1.(read := Restart(l1.closed))))
    case LocalOtherFrame(_, accepted) =>
      if !(l.hasControl && HasIn(s.slot, id)) then
        PutLocal(s, id, (s.slot, l.(hasControl := false, read := Restart(l.closed))))
      else if accepted then PutLocal(s, id, (s.slot, l.(read := Restart(l.closed))))
      else PutLocal(s, id, LocalClose(s.slot, id, l.(read := Idle)))
    case LocalReadError(_) => PutLocal(s, id, LocalClose(s.slot, id, l.(read := Idle)))
    case LocalWaitDone(_, rearm) =>
      var (slot, l1) := LocalReadable(s.slot, id, l);
      PutLocal(s, id, (slot, l1.(wait := if rearm && !l1.closed then Live else Idle)))
    case LocalWaitError(_, aborted) =>
      if aborted then PutLocal(s, id, (s.slot, l.(wait := Idle)))
      else PutLocal(s, id, LocalClose(s.slot, id, l.(wait := Idle)))
    case LocalForceClose(_) => PutLocal(s, id, LocalClose(s.slot, id, l))
    case _ => s
  }

  /** Observers and remote controllers release control in their destructors, local ones do not. */
  function Gone(s: System, id: ClientId): System
    requires id in s.sockets
  {
    var slot := match s.sockets[id]
      case Observer(_) => ReleaseIn(s.slot, id).0
      case Remotely(r) => RemoteGone(s.slot, id, r)
      case Locally(_) => s.slot;
    System(slot, s.sockets - {id})
  }

  function Apply(s: System, step: Step): System
    requires Enabled(s, step)
  {
    match step
    case Manager(ev) => s.(slot := After(s.slot, ev))
    case ObserverOpen(id) => PutObserver(s, id, s.slot, ObserverState(false, Live))
    case RemoteOpen(id, usable) =>
      if !usable then PutRemote(s, id, (s.slot, RemoteState(false, true)))
      else
        var (slot, granted) := RequestIn(s.slot, id, Remote);
        PutRemote(s, id, (slot, RemoteState(granted, false)))
    case LocalOpen(id, resized) => PutLocal(s, id, LocalHandshake(s.slot, id, resized))
    case Destroyed(id) => Gone(s, id)
    case _ =>
      var id := step.id;
      match s.sockets[id]
      case Observer(o) => ApplyObserver(s, id, o, step)
      case Remotely(r) => ApplyRemote(s, id, r, step)
      case Locally(l) => ApplyLocal(s, id, l, step)
  }

  /** A socket is torn down when it has been closed, an observer also when its last read has failed. */
  predicate TornDown(sock: Socket) {
    match sock
    case Observer(o) => o.closed || o.read.Idle?
    case Remotely(r) => r.closed
    case Locally(l) => l.closed
  }

  /** A socket that will release control: a controller when it is closed, an observer at the latest when
      its outstanding read fails. */
  predicate Accountable(sock: Socket) {
    match sock
    case Observer(o) => !o.read.Idle?
    case Remotely(r) => !r.closed && r.hasControl
    case Locally(l) => !l.closed && l.hasControl
  }

  predicate Named(s: System, id: ClientId) { s.slot.Some? && s.slot.value.clientId == Some(id) }

  /** Whoever the manager names as controller is a socket that will give control back. */
  ghost predicate Inv(s: System) {
    && Proper(s.slot)
    && forall id :: Named(s, id) ==> id in s.sockets && Accountable(s.sockets[id])
  }

  /** The steps that break this, all of the local controller: taking control in a handler that runs
      after the socket was closed, and dropping the control flag after a failed resize. */
  predicate Strands(s: System, step: Step)
    requires Enabled(s, step)
  {
    match step
    case LocalControlFrame(id, resized) =>
      var l := s.sockets[id].l;
      !(l.hasControl && HasIn(s.slot, id)) && RequestIn(s.slot, id, Host).1 && (l.closed || !resized)
    case LocalWaitDone(id, _) =>
      var l := s.sockets[id].l;
      l.closed && !(l.hasControl && HasIn(s.slot, id)) && Reclaimable(s.slot) && RequestIn(s.slot, id, Host).1
    case _ => false
  }

  lemma {:induction false} ManagerStepKeeps(s: System, step: Step)
    requires Inv(s) && Enabled(s, step) && step.Manager?
    ensures Inv(Apply(s, step))
  {
    var s' := Apply(s, step);
    forall id | Named(s', id) ensures id in s'.sockets && Accountable(s'.sockets[id]) { assert Named(s, id); }
  }

  lemma {:induction false} OpenStepKeeps(s: System, step: Step)
    requires Inv(s) && Enabled(s, step) && (step.ObserverOpen? || step.RemoteOpen? || step.LocalOpen?)
    ensures Inv(Apply(s, step))
  {
    var s' := Apply(s, step);
    forall id | Named(s', id) ensures id in s'.sockets && Accountable(s'.sockets[id]) {
      assert id == step.id || Named(s, id);
    }
  }

  lemma {:induction false} ObserverStepKeeps(s: System, id: ClientId, o: ObserverState, step: Step)
    requires Inv(s) && Enabled(s, step) && !step.Manager? && step.id == id
    requires id in s.sockets && s.sockets[id] == Observer(o)
    ensures Inv(ApplyObserver(s, id, o, step))
  {
    var s' := ApplyObserver(s, id, o, step);
    forall x | Named(s', x) ensures x in s'.sockets && Accountable(s'.sockets[x]) {
      assert x == id || Named(s, x);
    }
  }

  lemma {:induction false} RemoteStepKeeps(s: System, id: ClientId, r: RemoteState, step: Step)
    requires Inv(s) && Enabled(s, step) && !step.Manager? && step.id == id
    requires id in s.sockets && s.sockets[id] == Remotely(r)
    ensures Inv(ApplyRemote(s, id, r, step))
  {
    var s' := ApplyRemote(s, id, r, step);
    forall x | Named(s', x) ensures x in s'.sockets && Accountable(s'.sockets[x]) { assert Named(s, x); }
  }

  lemma {:induction false} LocalStepExact(s: System, id: ClientId, l: LocalState, step: Step)
    requires Inv(s) && Enabled(s, step) && !step.Manager? && step.id == id
    requires id in s.sockets && s.sockets[id] == Locally(l)
    ensures Inv(ApplyLocal(s, id, l, step)) <==> !Strands(s, step)
  {
    var s' := ApplyLocal(s, id, l, step);
    assert Strands(s, step) ==> Named(s', id) && !Accountable(s'.sockets[id]);
    if !Strands(s, step) {
      forall x | Named(s', x) ensures x in s'.sockets && Accountable(s'.sockets[x]) {
        assert x == id || Named(s, x);
      }
    }
  }

  lemma {:induction false} DestroyedStepKeeps(s: System, step: Step)
    requires Inv(s) && Enabled(s, step) && step.Destroyed?
    ensures Inv(Apply(s, step))
  {
    var s' := Apply(s, step);
    forall x | Named(s', x) ensures x in s'.sockets && Accountable(s'.sockets[x]) { assert Named(s, x); }
  }

  /** Each step keeps the invariant exactly when it is not one of those. */
  lemma {:induction false} StepExact(s: System, step: Step)
    requires Inv(s) && Enabled(s, step)
    ensures Inv(Apply(s, step)) <==> !Strands(s, step)
  {
    if step.Manager? {
      ManagerStepKeeps(s, step);
    } else if step.Destroyed? {
      DestroyedStepKeeps(s, step);
    } else if step.id !in s.sockets {
      OpenStepKeeps(s, step);
    } else {
      match s.sockets[step.id] {
        case Observer(o) => ObserverStepKeeps(s, step.id, o, step);
        case Remotely(r) => RemoteStepKeeps(s, step.id, r, step);
        case Locally(l) => LocalStepExact(s, step.id, l, step);
      }
    }
  }

  /** Whoever is named is moreover not torn down. */
  ghost predicate Safe(s: System) {
    Inv(s) && forall id :: Named(s, id) ==> !TornDown(s.sockets[id])
  }

  /** An observer that had been closed is granted control by a request it had already received. */
  predicate GrantsLate(s: System, step: Step)
    requires Enabled(s, step)
  {
    match step
    case ObserverRequest(id, kind) => s.sockets[id].o.closed && RequestIn(s.slot, id, kind).1
    case _ => false
  }

  lemma {:induction false} ObserverStaysOpen(s: System, id: ClientId, o: ObserverState, step: Step)
    requires Safe(s) && Enabled(s, step) && !step.Manager? && !step.Destroyed? && step.id == id
    requires id in s.sockets && s.sockets[id] == Observer(o) && Inv(ApplyObserver(s, id, o, step))
    ensures Safe(ApplyObserver(s, id, o, step)) <==> !GrantsLate(s, step)
  {
    var s' := ApplyObserver(s, id, o, step);
    if GrantsLate(s, step) {
      assert Named(s', id) && TornDown(s'.sockets[id]);
    } else {
      forall x | Named(s', x) ensures !TornDown(s'.sockets[x]) { assert Named(s, x) || x == id; }
    }
  }

  /** A step of anything but an observer leaves observers as they are. */
  lemma {:induction false} OthersLeaveObservers(s: System, step: Step)
    requires Safe(s) && Enabled(s, step) && !step.Manager? && !step.Destroyed? && step.id in s.sockets
    requires !IsObserver(s, step.id) && Inv(Apply(s, step))
    ensures Safe(Apply(s, step))
  {
    var s' := Apply(s, step);
    forall x | Named(s', x) ensures !TornDown(s'.sockets[x]) {
      assert Accountable(s'.sockets[x]);
      assert x != step.id ==> Named(s, x);
    }
  }

  lemma {:induction false} OpenLeavesObservers(s: System, step: Step)
    requires Safe(s) && Enabled(s, step) && Inv(Apply(s, step))
    requires step.Manager? || step.Destroyed? || step.id !in s.sockets
    ensures Safe(Apply(s, step))
  {
    var s' := Apply(s, step);
    forall x | Named(s', x) ensures !TornDown(s'.sockets[x]) {
      assert Named(s, x) || (!step.Manager? && x == step.id);
    }
  }

  /** Each step keeps the named controller from being torn down exactly when it neither strands a local
      controller nor grants control to a closed observer. */
  lemma {:induction false} SafeStepExact(s: System, step: Step)
    requires Safe(s) && Enabled(s, step)
    ensures Safe(Apply(s, step)) <==> !Strands(s, step) && !GrantsLate(s, step)
  {
    StepExact(s, step);
    if Strands(s, step) {
      assert !Inv(Apply(s, step));
    } else if step.Manager? || step.Destroyed? || step.id !in s.sockets {
      OpenLeavesObservers(s, step);
    } else if IsObserver(s, step.id) {
      ObserverStaysOpen(s, step.id, s.sockets[step.id].o, step);
    } else {
      OthersLeaveObservers(s, step);
    }
  }

  // ----- runs -----

  const START := System(Some(Entry(Running, None, Host)), map[])

  ghost predicate IsSystemRun(ss: seq<System>, steps: seq<Step>) {
    && |ss| == |steps| + 1
    && ss[0] == START
    && forall i :: 0 <= i < |steps| ==> Enabled(ss[i], steps[i]) && ss[i + 1] == Apply(ss[i], steps[i])
  }

  lemma {:induction false} RunInv(ss: seq<System>, steps: seq<Step>, k: nat)
    requires IsSystemRun(ss, steps) && k < |ss|
    requires forall i :: 0 <= i < k ==> Enabled(ss[i], steps[i]) && !Strands(ss[i], steps[i])
    ensures Inv(ss[k])
    decreases k
  {
    if k == 0 {
    } else {
      RunInv(ss, steps, k - 1);
      StepExact(ss[k - 1], steps[k - 1]);
    }
  }

  /** No stranded controller: in every interleaving free of those steps, the client the manager
      names belongs to a socket that is not torn down. */
  lemma {:induction false} NoStrandedController(ss: seq<System>, steps: seq<Step>, k: nat, id: ClientId)
    requires IsSystemRun(ss, steps) && k < |ss| && Named(ss[k], id)
    requires forall i :: 0 <= i < k ==>
               Enabled(ss[i], steps[i]) && !Strands(ss[i], steps[i]) && !GrantsLate(ss[i], steps[i])
    ensures id in ss[k].sockets && !TornDown(ss[k].sockets[id])
  {
    RunSafe(ss, steps, k);
  }

  lemma {:induction false} RunSafe(ss: seq<System>, steps: seq<Step>, k: nat)
    requires IsSystemRun(ss, steps) && k < |ss|
    requires forall i :: 0 <= i < k ==>
               Enabled(ss[i], steps[i]) && !Strands(ss[i], steps[i]) && !GrantsLate(ss[i], steps[i])
    ensures Safe(ss[k])
    decreases k
  {
    if k == 0 {
    } else {
      RunSafe(ss, steps, k - 1);
      SafeStepExact(ss[k - 1], steps[k - 1]);
    }
  }

  /** The local controllers that were still named when they went away. */
  function Lost(ss: seq<System>, steps: seq<Step>, k: nat): set<ClientId>
    requires k <= |steps| <= |ss|
  {
    if k == 0 then {} else Lost(ss, steps, k - 1) + LostBy(ss[k - 1], steps[k - 1])
  }

  function LostBy(s: System, step: Step): set<ClientId> {
    if step.Destroyed? && IsLocal(s, step.id) && Named(s, step.id) then {step.id} else {}
  }

  /** Not stranded, whatever local controllers do: open and accountable, or an observer that was closed
      and whose outstanding read is bound to fail. */
  predicate GivesBack(sock: Socket) {
    Accountable(sock) && (sock.Observer? && sock.o.closed ==> sock.o.read.Doomed?)
  }

  /** Whoever is named will give control back, or is a local controller, or was one. */
  ghost predicate LocalAtFault(s: System, lost: set<ClientId>) {
    && Proper(s.slot)
    && forall id :: Named(s, id) ==> id in lost || (id in s.sockets && LocalOrGivesBack(s.sockets[id]))
  }

  predicate LocalOrGivesBack(sock: Socket) { sock.Locally? || GivesBack(sock) }

  /** Every step keeps this, stranding steps included. */
  lemma {:induction false} StepKeepsOthersSafe(s: System, step: Step, lost: set<ClientId>)
    requires LocalAtFault(s, lost) && Enabled(s, step)
    ensures LocalAtFault(Apply(s, step), lost + LostBy(s, step))
  {
    if step.Manager? || step.id !in s.sockets || step.Destroyed? {
      OpenKeepsOthersSafe(s, step, lost);
    } else {
      HandlerKeepsOthersSafe(s, step, step.id, lost);
    }
  }

  lemma {:induction false} OpenKeepsOthersSafe(s: System, step: Step, lost: set<ClientId>)
    requires LocalAtFault(s, lost) && Enabled(s, step)
    requires step.Manager? || step.id !in s.sockets || step.Destroyed?
    ensures LocalAtFault(Apply(s, step), lost + LostBy(s, step))
  {
    var s' := Apply(s, step);
    forall x | Named(s', x) && x !in lost + LostBy(s, step)
      ensures x in s'.sockets && LocalOrGivesBack(s'.sockets[x])
    {
      assert Named(s, x) || (!step.Manager? && x == step.id);
    }
  }

  lemma {:induction false} HandlerKeepsOthersSafe(s: System, step: Step, id: ClientId, lost: set<ClientId>)
    requires LocalAtFault(s, lost) && Enabled(s, step)
    requires !step.Manager? && !step.Destroyed? && id == step.id && id in s.sockets
    ensures LocalAtFault(Apply(s, step), lost)
  {
    var s' := Apply(s, step);
    forall x | Named(s', x) && x !in lost
      ensures x in s'.sockets && LocalOrGivesBack(s'.sockets[x])
    {
      assert Named(s, x) || x == id;
    }
  }

  lemma {:induction false} RunKeepsOthersSafe(ss: seq<System>, steps: seq<Step>, k: nat)
    requires IsSystemRun(ss, steps) && k < |ss|
    ensures LocalAtFault(ss[k], Lost(ss, steps, k))
    decreases k
  {
    if k == 0 {
    } else {
      RunKeepsOthersSafe(ss, steps, k - 1);
      StepKeepsOthersSafe(ss[k - 1], steps[k - 1], Lost(ss, steps, k - 1));
    }
  }

  /** Observers and remote controllers are never stranded: in every state of every interleaving, a named
      client whose socket is torn down or gone is or was a local controller, or is an observer whose
      outstanding read is bound to fail. */
  lemma {:induction false} OnlyLocalControllersStrand(ss: seq<System>, steps: seq<Step>, k: nat, id: ClientId)
    requires IsSystemRun(ss, steps) && k < |ss| && Named(ss[k], id)
    ensures id in Lost(ss, steps, k) || (id in ss[k].sockets && (TornDown(ss[k].sockets[id]) ==>
              ss[k].sockets[id].Locally? || (ss[k].sockets[id].Observer? && ss[k].sockets[id].o.read.Doomed?)))
  {
    RunKeepsOthersSafe(ss, steps, k);
  }

  /** Being lost takes a local controller that goes away while it is named, which in turn takes a
      stranding step. */
  lemma {:induction false} LostWereStranded(ss: seq<System>, steps: seq<Step>, k: nat, id: ClientId) returns (i: nat)
    requires IsSystemRun(ss, steps) && k < |ss| && id in Lost(ss, steps, k)
    ensures i < k && steps[i] == Destroyed(id) && IsLocal(ss[i], id) && Named(ss[i], id)
    ensures exists j :: 0 <= j < i && Enabled(ss[j], steps[j]) && Strands(ss[j], steps[j])
    decreases k
  {
    if id in LostBy(ss[k - 1], steps[k - 1]) {
      i := k - 1;
      assert Enabled(ss[i], steps[i]) && !Accountable(ss[i].sockets[id]);
      if forall j :: 0 <= j < i ==> Enabled(ss[j], steps[j]) && !Strands(ss[j], steps[j]) {
        RunInv(ss, steps, i);
        assert false;
      }
    } else {
      i := LostWereStranded(ss, steps, k - 1, id);
    }
  }

  /** Such an observer takes no further command, and gives control back when that read fails. */
  lemma {:induction false} DoomedObserverGivesBack(s: System, id: ClientId)
    requires Proper(s.slot) && IsObserver(s, id) && s.sockets[id].o.read.Doomed?
    ensures forall kind :: !Enabled(s, ObserverRequest(id, kind))
    ensures Enabled(s, ObserverReadError(id)) && !Named(Apply(s, ObserverReadError(id)), id)
  {}

  function ObserverAlone(id: ClientId, slot: Slot, o: ObserverState): System { System(slot, map[id := Observer(o)]) }

  /** A request had been received when the host disconnected the observer. */
  lemma {:induction false} LateGrantIsReachable(id: ClientId) returns (ss: seq<System>, steps: seq<Step>)
    ensures IsSystemRun(ss, steps)
    ensures Named(ss[|ss| - 1], id) && IsObserver(ss[|ss| - 1], id) && ss[|ss| - 1].sockets[id].o.closed
    ensures forall i :: 0 <= i < |steps| ==> Enabled(ss[i], steps[i]) && !Strands(ss[i], steps[i])
  {
    var taken := Some(Entry(Running, Some(id), Remote));
    ss := [START, ObserverAlone(id, FREE, ObserverState(false, Live)),
           ObserverAlone(id, FREE, ObserverState(true, Live)), ObserverAlone(id, taken, ObserverState(true, Doomed))];
    steps := [ObserverOpen(id), ObserverForceClose(id), ObserverRequest(id, Remote)];
    assert Goes(ss[0], steps[0], ss[1]) && Goes(ss[1], steps[1], ss[2]) && Goes(ss[2], steps[2], ss[3]);
    forall i | 0 <= i < |steps| ensures Goes(ss[i], steps[i], ss[i + 1]) && !Strands(ss[i], steps[i]) {
      assert i == 0 || i == 1 || i == 2;
    }
  }

  predicate TearsDown(step: Step) {
    || step.ObserverReadError? || step.ObserverWriteError? || step.ObserverForceClose?
    || step.RemoteForceClose? || step.LocalReadError? || step.LocalWaitError? || step.LocalForceClose?
    || step.Destroyed?
  }

  /** The step finds its socket open and closes it, or is the failure of an observer's socket. */
  predicate Closes(s: System, step: Step)
    requires Enabled(s, step)
  {
    match step
    case ObserverReadError(_) => true
    case ObserverWriteError(_) => true
    case ObserverForceClose(id) => !s.sockets[id].o.closed
    case RemoteForceClose(id) => !s.sockets[id].r.closed
    case LocalReadError(id) => !s.sockets[id].l.closed
    case LocalWaitError(id, aborted) => !s.sockets[id].l.closed && !aborted
    case LocalForceClose(id) => !s.sockets[id].l.closed
    case Destroyed(_) => true
    case _ => false
  }

  /** Tearing down a socket that is not the controller never changes the controller, and closing an
      accountable controller hands control back to the host. */
  lemma {:induction false} TeardownTouchesOnlyTheController(s: System, step: Step)
    requires Enabled(s, step) && TearsDown(step) && Proper(s.slot)
    ensures !Named(s, step.id) ==> Apply(s, step).slot == s.slot
    ensures Apply(s, step).slot == s.slot || Apply(s, step).slot == Some(Reset(s.slot.value))
    ensures Named(s, step.id) && Accountable(s.sockets[step.id]) && Closes(s, step) ==>
              Apply(s, step).slot == Some(Reset(s.slot.value))
  {}

  // ----- how control changes hands -----

  /** What the step asks control as, if it asks for it. */
  function Asks(s: System, step: Step): Option<Kind>
    requires Enabled(s, step)
  {
    match step
    case ObserverRequest(_, kind) => Some(kind)
    case RemoteOpen(_, usable) => if usable then Some(Remote) else None
    case LocalOpen(_, _) => Some(Host)
    case LocalControlFrame(_, _) => Some(Host)
    case LocalWaitDone(_, _) => if Reclaimable(s.slot) then Some(Host) else None
    case _ => None
  }

  /** The step asks, the session is interactive, and no other client holds control remotely against a
      remote request. */
  predicate Wins(s: System, step: Step)
    requires Enabled(s, step) && !step.Manager?
  {
    var asked := Asks(s, step);
    && asked.Some? && !asked.value.Nobody?
    && s.slot.Some? && IsInteractive(s.slot.value.status)
    && (asked.value.Host? || !s.slot.value.kind.Remote? || Named(s, step.id))
  }

  /** The socket is open and knows that it has control. */
  predicate Holding(sock: Socket) {
    match sock
    case Observer(o) => !o.closed
    case Remotely(r) => !r.closed && r.hasControl
    case Locally(l) => !l.closed && l.hasControl
  }

  /** The step gives up control if its own socket has it. */
  predicate GivesUp(s: System, step: Step)
    requires Enabled(s, step)
  {
    match step
    case ObserverRelease(_) => true
    case ObserverReadError(_) => true
    case ObserverWriteError(_) => true
    case ObserverForceClose(id) => Holding(s.sockets[id])
    case RemoteReleased(_) => true
    case RemoteForceClose(id) => Holding(s.sockets[id])
    case LocalOtherFrame(id, accepted) => !accepted && Holding(s.sockets[id])
    case LocalReadError(id) => Holding(s.sockets[id])
    case LocalWaitError(id, aborted) => !aborted && Holding(s.sockets[id])
    case LocalForceClose(id) => Holding(s.sockets[id])
    case Destroyed(id) => s.sockets[id].Observer? || (s.sockets[id].Remotely? && s.sockets[id].r.hasControl)
    case _ => false
  }

  /** Who is named after a step: its own client if it wins control, and otherwise whoever was named
      before, unless that client gives it up. */
  lemma {:induction false} Handover(s: System, step: Step, id: ClientId)
    requires Proper(s.slot) && Enabled(s, step) && !step.Manager?
    ensures Named(Apply(s, step), id) <==>
              if Wins(s, step) then id == step.id else Named(s, id) && !(id == step.id && GivesUp(s, step))
  {
    if step.Destroyed? || step.id !in s.sockets {
    } else {
      match s.sockets[step.id] {
        case Observer(o) => HandoverOfObserver(s, step.id, o, step, id);
        case Remotely(r) => HandoverOfRemote(s, step.id, r, step, id);
        case Locally(l) => HandoverOfLocal(s, step.id, l, step, id);
      }
    }
  }

  lemma {:induction false} HandoverOfObserver(s: System, own: ClientId, o: ObserverState, step: Step, id: ClientId)
    requires Proper(s.slot) && Enabled(s, step) && !step.Manager? && !step.Destroyed? && step.id == own
    requires own in s.sockets && s.sockets[own] == Observer(o)
    ensures Named(ApplyObserver(s, own, o, step), id) <==>
              if Wins(s, step) then id == own else Named(s, id) && !(id == own && GivesUp(s, step))
  {}

  lemma {:induction false} HandoverOfRemote(s: System, own: ClientId, r: RemoteState, step: Step, id: ClientId)
    requires Proper(s.slot) && Enabled(s, step) && !step.Manager? && !step.Destroyed? && step.id == own
    requires own in s.sockets && s.sockets[own] == Remotely(r)
    ensures Named(ApplyRemote(s, own, r, step), id) <==> Named(s, id) && !(id == own && GivesUp(s, step))
    ensures !Wins(s, step)
  {}

  lemma {:induction false} HandoverOfLocal(s: System, own: ClientId, l: LocalState, step: Step, id: ClientId)
    requires Proper(s.slot) && Enabled(s, step) && !step.Manager? && !step.Destroyed? && step.id == own
    requires own in s.sockets && s.sockets[own] == Locally(l)
    ensures Named(ApplyLocal(s, own, l, step), id) <==>
              if Wins(s, step) then id == own else Named(s, id) && !(id == own && GivesUp(s, step))
  {}

  // ----- the stranding steps are reachable -----

  /** Closed, nothing outstanding, and still named: no handler of this socket is left to run. */
  predicate IsStranded(s: System, id: ClientId) {
    && Named(s, id) && IsLocal(s, id)
    && s.sockets[id].l == LocalState(s.sockets[id].l.hasControl, true, false, Idle, Idle)
  }

  predicate Goes(s: System, step: Step, s': System) { Enabled(s, step) && Apply(s, step) == s' }

  function Held(id: ClientId): Slot { Some(Entry(Running, Some(id), Host)) }

  const FREE: Slot := Some(Entry(Running, None, Host))

  function Alone(id: ClientId, slot: Slot, l: LocalState): System { System(slot, map[id := Locally(l)]) }

  lemma {:induction false} OpenAndReady(id: ClientId)
    ensures Goes(START, LocalOpen(id, true), Alone(id, Held(id), LocalState(true, false, true, Idle, Idle)))
    ensures Goes(Alone(id, Held(id), LocalState(true, false, true, Idle, Idle)), LocalReady(id),
                 Alone(id, Held(id), LocalState(true, false, false, Live, Live)))
  {}

  /** A control frame had been read when a write on the same socket failed. */
  lemma {:induction false} LateFrameStrands(id: ClientId)
    ensures Goes(Alone(id, Held(id), LocalState(true, false, false, Live, Live)), LocalForceClose(id),
                 Alone(id, FREE, LocalState(false, true, false, Live, Live)))
    ensures Goes(Alone(id, FREE, LocalState(false, true, false, Live, Live)), LocalControlFrame(id, true),
                 Alone(id, Held(id), LocalState(true, true, false, Doomed, Live)))
    ensures Goes(Alone(id, Held(id), LocalState(true, true, false, Doomed, Live)), LocalReadError(id),
                 Alone(id, Held(id), LocalState(true, true, false, Idle, Live)))
    ensures Goes(Alone(id, Held(id), LocalState(true, true, false, Idle, Live)), LocalWaitError(id, true),
                 Alone(id, Held(id), LocalState(true, true, false, Idle, Idle)))
    ensures IsStranded(Alone(id, Held(id), LocalState(true, true, false, Idle, Idle)), id)
  {}

  /** The PTY had become readable when the socket was closed. */
  lemma {:induction false} LateWaitStrands(id: ClientId)
    ensures Goes(Alone(id, Held(id), LocalState(true, false, false, Live, Live)), LocalReadError(id),
                 Alone(id, FREE, LocalState(false, true, false, Idle, Live)))
    ensures Goes(Alone(id, FREE, LocalState(false, true, false, Idle, Live)), LocalWaitDone(id, true),
                 Alone(id, Held(id), LocalState(true, true, false, Idle, Idle)))
    ensures IsStranded(Alone(id, Held(id), LocalState(true, true, false, Idle, Idle)), id)
  {}

  /** A local controller and a remote one. */
  function Pair(id: ClientId, other: ClientId, slot: Slot, l: LocalState): System {
    System(slot, map[id := Locally(l), other := Remotely(RemoteState(true, false))])
  }

  /** A remote client takes control, the host takes it back but the resize fails, and the local client
      then disconnects. */
  lemma {:induction false} FailedResizeStrands(id: ClientId, other: ClientId)
    requires id != other
    ensures var taken := Some(Entry(Running, Some(other), Remote));
      && Goes(Alone(id, Held(id), LocalState(true, false, false, Live, Live)), RemoteOpen(other, true),
              Pair(id, other, taken, LocalState(true, false, false, Live, Live)))
      && Goes(Pair(id, other, taken, LocalState(true, false, false, Live, Live)), LocalControlFrame(id, false),
              Pair(id, other, Held(id), LocalState(false, false, false, Live, Live)))
      && Goes(Pair(id, other, Held(id), LocalState(false, false, false, Live, Live)), LocalReadError(id),
              Pair(id, other, Held(id), LocalState(false, true, false, Idle, Live)))
      && Goes(Pair(id, other, Held(id), LocalState(false, true, false, Idle, Live)), LocalWaitError(id, true),
              Pair(id, other, Held(id), LocalState(false, true, false, Idle, Idle)))
    ensures IsStranded(Pair(id, other, Held(id), LocalState(false, true, false, Idle, Idle)), id)
  {
    RemoteTakesOver(id, other);
    ResizeFails(id, other);
  }

  lemma {:induction false} RemoteTakesOver(id: ClientId, other: ClientId)
    requires id != other
    ensures Goes(Alone(id, Held(id), LocalState(true, false, false, Live, Live)), RemoteOpen(other, true),
                 Pair(id, other, Some(Entry(Running, Some(other), Remote)), LocalState(true, false, false, Live, Live)))
  {}

  lemma {:induction false} ResizeFails(id: ClientId, other: ClientId)
    requires id != other
    ensures Goes(Pair(id, other, Some(Entry(Running, Some(other), Remote)), LocalState(true, false, false, Live, Live)),
                 LocalControlFrame(id, false),
                 Pair(id, other, Held(id), LocalState(false, false, false, Live, Live)))
  {
    var s := Pair(id, other, Some(Entry(Running, Some(other), Remote)), LocalState(true, false, false, Live, Live));
    assert Apply(s, LocalControlFrame(id, false)).sockets
        == Pair(id, other, Held(id), LocalState(false, false, false, Live, Live)).sockets;
  }

  /** Whole runs, from the start of the session, at whose end a closed and finished local socket is still
      the controller: one for each cause. */
  lemma {:induction false} StrandingIsReachable(id: ClientId) returns (ss: seq<System>, steps: seq<Step>)
    ensures IsSystemRun(ss, steps) && IsStranded(ss[|ss| - 1], id)
  {
    OpenAndReady(id);
    LateFrameStrands(id);
    ss, steps := [START], [];
    ss, steps := Extend(ss, steps, LocalOpen(id, true), Alone(id, Held(id), LocalState(true, false, true, Idle, Idle)));
    ss, steps := Extend(ss, steps, LocalReady(id), Alone(id, Held(id), LocalState(true, false, false, Live, Live)));
    ss, steps := Extend(ss, steps, LocalForceClose(id), Alone(id, FREE, LocalState(false, true, false, Live, Live)));
    ss, steps := Extend(ss, steps, LocalControlFrame(id, true),
                         Alone(id, Held(id), LocalState(true, true, false, Doomed, Live)));
    ss, steps := Extend(ss, steps, LocalReadError(id), Alone(id, Held(id), LocalState(true, true, false, Idle, Live)));
    ss, steps := Extend(ss, steps, LocalWaitError(id, true),
                         Alone(id, Held(id), LocalState(true, true, false, Idle, Idle)));
  }

  lemma {:induction false} LateWaitIsReachable(id: ClientId) returns (ss: seq<System>, steps: seq<Step>)
    ensures IsSystemRun(ss, steps) && IsStranded(ss[|ss| - 1], id)
  {
    OpenAndReady(id);
    LateWaitStrands(id);
    ss, steps := [START], [];
    ss, steps := Extend(ss, steps, LocalOpen(id, true), Alone(id, Held(id), LocalState(true, false, true, Idle, Idle)));
    ss, steps := Extend(ss, steps, LocalReady(id), Alone(id, Held(id), LocalState(true, false, false, Live, Live)));
    ss, steps := Extend(ss, steps, LocalReadError(id), Alone(id, FREE, LocalState(false, true, false, Idle, Live)));
    ss, steps := Extend(ss, steps, LocalWaitDone(id, true),
                         Alone(id, Held(id), LocalState(true, true, false, Idle, Idle)));
  }

  lemma {:induction false} FailedResizeIsReachable(id: ClientId, other: ClientId)
    returns (ss: seq<System>, steps: seq<Step>)
    requires id != other
    ensures IsSystemRun(ss, steps) && IsStranded(ss[|ss| - 1], id)
  {
    OpenAndReady(id);
    FailedResizeStrands(id, other);
    var taken := Some(Entry(Running, Some(other), Remote));
    ss, steps := [START], [];
    ss, steps := Extend(ss, steps, LocalOpen(id, true), Alone(id, Held(id), LocalState(true, false, true, Idle, Idle)));
    ss, steps := Extend(ss, steps, LocalReady(id), Alone(id, Held(id), LocalState(true, false, false, Live, Live)));
    ss, steps := Extend(ss, steps, RemoteOpen(other, true),
                         Pair(id, other, taken, LocalState(true, false, false, Live, Live)));
    ss, steps := Extend(ss, steps, LocalControlFrame(id, false),
                         Pair(id, other, Held(id), LocalState(false, false, false, Live, Live)));
    ss, steps := Extend(ss, steps, LocalReadError(id),
                         Pair(id, other, Held(id), LocalState(false, true, false, Idle, Live)));
    ss, steps := Extend(ss, steps, LocalWaitError(id, true),
                         Pair(id, other, Held(id), LocalState(false, true, false, Idle, Idle)));
  }

  lemma {:induction false} Extend(ss: seq<System>, steps: seq<Step>, step: Step, s: System)
    returns (longer: seq<System>, more: seq<Step>)
    requires IsSystemRun(ss, steps) && Goes(ss[|ss| - 1], step, s)
    ensures IsSystemRun(longer, more) && longer[|longer| - 1] == s
  {
    longer, more := ss + [s], steps + [step];
    forall i | 0 <= i < |more| ensures Enabled(longer[i], more[i]) && longer[i + 1] == Apply(longer[i], more[i]) {
      if i < |steps| { assert longer[i] == ss[i] && longer[i + 1] == ss[i + 1] && more[i] == steps[i]; }
    }
  }

  /** A stranded socket cannot free the session: nothing it can still do, going away included, changes
      the controller. */
  lemma {:induction false} StrandedStays(s: System, id: ClientId, step: Step)
    requires IsStranded(s, id) && Enabled(s, step) && !step.Manager? && step.id == id
    ensures Apply(s, step).slot == s.slot
    ensures step.Destroyed? || IsStranded(Apply(s, step), id)
  {}
}
