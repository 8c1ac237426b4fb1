/** Pairing of devices: requests, approvals, rejections and claims. */
module Pairing {
  import opened Common

  datatype Request = Request(name: string, code: string, requestedAt: int)

  datatype Record = Record(device: string, name: string, token: string, approvedAt: int)

  datatype ApprovedClaim = ApprovedClaim(code: string, record: Record)

  /** The store's pending requests and approved records, and the claims kept in memory. */
  datatype State = State(
    pending: map<string, Request>, records: map<string, Record>,
    approved: map<string, ApprovedClaim>, rejected: map<string, int>)

  const INITIAL := State(map[], map[], map[], map[])

  predicate IsExpired(r: Request, now: int, ttl: int) { ttl > 0 && r.requestedAt + ttl < now }

  /** Pending requests after the expired ones are removed, but for those the store failed to remove. */
  function Swept(pending: map<string, Request>, now: int, ttl: int, kept: set<string>): map<string, Request> {
    map id | id in pending && (!IsExpired(pending[id], now, ttl) || id in kept) :: pending[id]
  }

  /** What happens to the service.  The clock, the generators and whether the store succeeds are part of
      the event: `kept` are the expired requests the store fails to remove, and `undone` says whether a
      record is taken back when its request could not be removed.  A restart of the host forgets the
      claims; the store outlives it. */
  datatype Event =
    | Start(now: int, name: string, id: string, code: string, stored: bool, kept: set<string>)
    | Approve(now: int, id: string, code: string, device: string, token: string, at: int,
              stored: bool, removed: bool, undone: bool, kept: set<string>)
    | Reject(now: int, id: string, removed: bool)
    | Restart

  // ----- the operations on values -----

  predicate Starts(e: Event) { e.Start? && e.name != "" && e.id != "" && |e.code| == 6 && e.stored }

  /** The request is pending, in time, and has the code. */
  predicate Accepts(s: State, now: int, id: string, code: string, ttl: int) {
    id in s.pending && !IsExpired(s.pending[id], now, ttl) && s.pending[id].code == code
  }

  /** A record is stored for the request. */
  predicate Records(s: State, e: Event, ttl: int) {
    e.Approve? && Accepts(s, e.now, e.id, e.code, ttl) && e.device != "" && e.token != "" && e.stored
  }

  predicate Approves(s: State, e: Event, ttl: int) { Records(s, e, ttl) && e.removed }

  function Step(s: State, e: Event, ttl: int): State {
    match e
    case Start(now, name, id, code, stored, kept) =>
      if name == "" then s
      else
        var swept := s.(pending := Swept(s.pending, now, ttl, kept));
        if Starts(e) then swept.(pending := swept.pending[id := Request(name, code, now)]) else swept
    case Approve(now, id, code, device, token, at, stored, removed, undone, kept) =>
      var swept := s.(pending := Swept(s.pending, now, ttl, kept));
      if !Records(s, e, ttl) then swept
      else
        var record := Record(device, s.pending[id].name, token, at);
        if !removed then swept.(records := if undone then s.records - {device} else s.records[device := record])
        else State(swept.pending - {id}, s.records[device := record],
              s.approved[id := ApprovedClaim(code, record)], s.rejected - {id})
    case Reject(now, id, removed) =>
      s.(pending := if removed then s.pending - {id} else s.pending,
         approved := s.approved - {id}, rejected := s.rejected[id := now])
    case Restart => s.(approved := map[], rejected := map[])
  }

  function Claim(s: State, id: string, code: string): Option<Record> {
    if id in s.approved && s.approved[id].code == code then Some(s.approved[id].record) else None
  }

  datatype Status = Pending | Approved | Rejected | Expired

  function ClaimStatus(s: State, id: string, code: string, now: int, ttl: int): Status {
    if id in s.approved then if s.approved[id].code == code then Approved else Rejected
    else if id in s.rejected then Rejected
    else if id !in s.pending then Rejected
    else if IsExpired(s.pending[id], now, ttl) then Expired
    else if s.pending[id].code == code then Pending
    else Rejected
  }

  // ----- the service -----

  class PairingService {
    const ttl: int
    var state: State

    constructor (ttl: int)
      ensures state == INITIAL && this.ttl == ttl
    {
      this.ttl := ttl;
      state := INITIAL;
    }

    method Sweep(now: int, kept: set<string>)
      modifies this
      ensures state == old(state).(pending := Swept(old(state).pending, now, ttl, kept))
    {
      var pending := state.pending;
      var todo, left := pending.Keys, pending;
      while todo != {}
        invariant todo <= pending.Keys && state == old(state)
        invariant left == map id | id in pending && (id in todo || !IsExpired(pending[id], now, ttl) || id in kept)
                            :: pending[id]
        decreases |todo|
      {
        var id :| id in todo;
        if IsExpired(pending[id], now, ttl) && id !in kept { left := left - {id}; }
        todo := todo - {id};
      }
      state := state.(pending := left);
    }

    method StartPairing(now: int, name: string, id: string, code: string, stored: bool, kept: set<string>)
      returns (request: Option<Request>)
      modifies this
      ensures state == Step(old(state), Start(now, name, id, code, stored, kept), ttl)
      ensures request.Some? <==> Starts(Start(now, name, id, code, stored, kept))
      ensures request.Some? ==> id in state.pending && state.pending[id] == request.value
    {
      if name == "" { return None; }
      Sweep(now, kept);
      var r := Request(name, code, now);
      if id == "" || |code| != 6 { return None; }
      if !stored { return None; }
      state := state.(pending := state.pending[id := r]);
      request := Some(r);
    }

    method ApprovePairing(
      now: int, id: string, code: string, device: string, token: string, at: int,
      stored: bool, removed: bool, undone: bool, kept: set<string>)
      returns (record: Option<Record>)
      modifies this
      ensures var e := Approve(now, id, code, device, token, at, stored, removed, undone, kept);
              && state == Step(old(state), e, ttl)
              && (record.Some? <==> Approves(old(state), e, ttl))
              && (record.Some? ==> Claim(state, id, code) == record)
    {
      var pending := state.pending;
      Sweep(now, kept);
      if id !in pending || IsExpired(pending[id], now, ttl) || pending[id].code != code { return None; }
      var r := Record(device, pending[id].name, token, at);
      if r.device == "" || r.token == "" { return None; }
      if !stored { return None; }
      state := state.(records := state.records[device := r]);
      if !removed {
        if undone {
          assert old(state).records[device := r] - {device} == old(state).records - {device};
          state := state.(records := state.records - {device});
        }
        return None;
      }
      state := state.(pending := state.pending - {id});
      state := state.(approved := state.approved[id := ApprovedClaim(code, r)], rejected := state.rejected - {id});
      record := Some(r);
    }

    method ClaimApprovedPairing(id: string, code: string) returns (record: Option<Record>)
      ensures record == Claim(state, id, code)
    {
      if id !in state.approved || state.approved[id].code != code { return None; }
      record := Some(state.approved[id].record);
    }

    method GetPairingClaimStatus(id: string, code: string, now: int) returns (status: Status)
      ensures status == ClaimStatus(state, id, code, now, ttl)
    {
      if id in state.approved {
        return if state.approved[id].code == code then Approved else Rejected;
      }
      if id in state.rejected { return Rejected; }
      if id !in state.pending { return Rejected; }
      if IsExpired(state.pending[id], now, ttl) { return Expired; }
      status := if state.pending[id].code == code then Pending else Rejected;
    }

    method RejectPairing(now: int, id: string, removed: bool) returns (ok: bool)
      modifies this
      ensures state == Step(old(state), Reject(now, id, removed), ttl)
      ensures ok == (removed && id in old(state).pending)
    {
      state := state.(approved := state.approved - {id}, rejected := state.rejected[id := now]);
      ok := id in state.pending && removed;
      if ok { state := state.(pending := state.pending - {id}); }
      assert id !in old(state).pending ==> old(state).pending - {id} == old(state).pending;
    }
  }

  // ----- runs -----

  /** The state after the first `n` events, counted from when the store was empty. */
  function StateAt(events: seq<Event>, n: nat, ttl: int): State
    requires n <= |events|
  {
    if n == 0 then INITIAL else Step(StateAt(events, n - 1, ttl), events[n - 1], ttl)
  }

  /** Event `i` is an approval of the request that goes through. */
  ghost predicate ApprovedAt(events: seq<Event>, i: nat, id: string, ttl: int)
    requires i < |events|
  {
    events[i].Approve? && events[i].id == id && Approves(StateAt(events, i, ttl), events[i], ttl)
  }

  /** Event `i` decides about the request: an approval that goes through, a rejection, or a restart,
      which takes any decision back. */
  ghost predicate DecidedAt(events: seq<Event>, i: nat, id: string, ttl: int)
    requires i < |events|
  {
    ApprovedAt(events, i, id, ttl) || (events[i].Reject? && events[i].id == id) || events[i].Restart?
  }

  /** Event `i` is the last of the first `n` to decide about the request. */
  ghost predicate LastDecision(events: seq<Event>, i: nat, n: nat, id: string, ttl: int)
    requires n <= |events|
  {
    i < n && DecidedAt(events, i, id, ttl) && forall j :: i < j < n ==> !DecidedAt(events, j, id, ttl)
  }

  /** A step that does not decide about the request leaves its claims as they are. */
  lemma {:induction false} Undecided(s: State, e: Event, id: string, ttl: int)
    requires !(e.Reject? && e.id == id) && !(e.Approve? && e.id == id && Approves(s, e, ttl)) && !e.Restart?
    ensures id in Step(s, e, ttl).approved <==> id in s.approved
    ensures id in s.approved ==> Step(s, e, ttl).approved[id] == s.approved[id]
    ensures id in Step(s, e, ttl).rejected <==> id in s.rejected
  {}

  /** After a last decision: the claim is there with the code and record of the approval, or the request
      is marked as rejected, or neither after a restart. */
  lemma {:induction false} DecisionStands(events: seq<Event>, i: nat, n: nat, id: string, ttl: int)
    requires n <= |events| && LastDecision(events, i, n, id, ttl)
    ensures var s, e := StateAt(events, n, ttl), events[i];
            if e.Approve?
            then id in s.approved && id !in s.rejected && s.approved[id].code == e.code
                 && s.approved[id].record == Record(e.device, StateAt(events, i, ttl).pending[id].name, e.token, e.at)
            else id !in s.approved && (id in s.rejected <==> e.Reject?)
  {
    if i >= n - 1 {
    } else {
      assert LastDecision(events, i, n - 1, id, ttl);
      DecisionStands(events, i, n - 1, id, ttl);
      assert !DecidedAt(events, n - 1, id, ttl);
      Undecided(StateAt(events, n - 1, ttl), events[n - 1], id, ttl);
    }
  }

  lemma {:induction false} NoDecision(events: seq<Event>, n: nat, id: string, ttl: int)
    requires n <= |events| && forall j :: 0 <= j < n ==> !DecidedAt(events, j, id, ttl)
    ensures var s := StateAt(events, n, ttl); id !in s.approved && id !in s.rejected
  {
    if n == 0 {
    } else {
      NoDecision(events, n - 1, id, ttl);
      assert !DecidedAt(events, n - 1, id, ttl);
      Undecided(StateAt(events, n - 1, ttl), events[n - 1], id, ttl);
    }
  }

  /** The last decision among the first `n` events, if there is one. */
  lemma {:induction false} FindDecision(events: seq<Event>, n: nat, id: string, ttl: int) returns (i: Option<nat>)
    requires n <= |events|
    ensures i.Some? ==> LastDecision(events, i.value, n, id, ttl)
    ensures i.None? ==> forall j :: 0 <= j < n ==> !DecidedAt(events, j, id, ttl)
  {
    i := None;
    if n == 0 {
    } else {
      if DecidedAt(events, n - 1, id, ttl) { i := Some(n - 1); } else { i := FindDecision(events, n - 1, id, ttl); }
    }
  }

  /** A claim succeeds if and only if the last decision about its request is an approval with its code,
      and the host has not been restarted since. */
  lemma {:induction false} ClaimLaw(events: seq<Event>, n: nat, id: string, code: string, ttl: int)
    requires n <= |events|
    ensures Claim(StateAt(events, n, ttl), id, code).Some?
       <==> exists i ::
              0 <= i < n && LastDecision(events, i, n, id, ttl) && events[i].Approve? && events[i].code == code
  {
    var i := FindDecision(events, n, id, ttl);
    if i.Some? {
      DecisionStands(events, i.value, n, id, ttl);
    } else {
      NoDecision(events, n, id, ttl);
    }
  }

  /** No request is both approved and rejected. */
  lemma {:induction false} ClaimsDisjoint(events: seq<Event>, n: nat, ttl: int)
    requires n <= |events|
    ensures var s := StateAt(events, n, ttl); s.approved.Keys !! s.rejected.Keys
  {
    if n == 0 {
    } else {
      ClaimsDisjoint(events, n - 1, ttl);
    }
  }

  // ----- where approvals come from -----

  /** Event `i` closes the request: restarts, approves or withdraws it. */
  ghost predicate ClosedAt(events: seq<Event>, i: nat, id: string, ttl: int)
    requires i < |events|
  {
    || (Starts(events[i]) && events[i].id == id)
    || ApprovedAt(events, i, id, ttl)
    || (events[i].Reject? && events[i].id == id && events[i].removed)
  }

  /** Event `j` starts the request that is still open before event `n`. */
  ghost predicate OpenSince(events: seq<Event>, j: nat, n: nat, id: string, ttl: int)
    requires n <= |events|
  {
    j < n && Starts(events[j]) && events[j].id == id && forall k :: j < k < n ==> !ClosedAt(events, k, id, ttl)
  }

  /** The event finds a request of that time expired and removes it. */
  predicate Expires(e: Event, id: string, since: int, ttl: int) {
    && ((e.Start? && e.name != "") || e.Approve?)
    && ttl > 0 && since + ttl < e.now && id !in e.kept
  }

  /** None of the events after `j` finds the request expired. */
  ghost predicate Unexpired(events: seq<Event>, j: nat, n: nat, id: string, ttl: int)
    requires j < n <= |events| && events[j].Start?
  {
    forall k :: j < k < n ==> !Expires(events[k], id, events[j].now, ttl)
  }

  /** A pending request was started with its name, code and time, and has been neither closed nor found
      expired since. */
  lemma {:induction false} PendingWasStarted(events: seq<Event>, n: nat, id: string, ttl: int) returns (j: nat)
    requires n <= |events| && id in StateAt(events, n, ttl).pending
    ensures OpenSince(events, j, n, id, ttl) && Unexpired(events, j, n, id, ttl)
    ensures StateAt(events, n, ttl).pending[id] == Request(events[j].name, events[j].code, events[j].now)
  {
    var e := events[n - 1];
    if Starts(e) && e.id == id {
      j := n - 1;
    } else {
      StillPending(StateAt(events, n - 1, ttl), e, id, ttl);
      j := PendingWasStarted(events, n - 1, id, ttl);
    }
  }

  lemma {:induction false} StillPending(s: State, e: Event, id: string, ttl: int)
    requires id in Step(s, e, ttl).pending && !(Starts(e) && e.id == id)
    ensures id in s.pending && Step(s, e, ttl).pending[id] == s.pending[id]
    ensures !(e.Approve? && e.id == id && Approves(s, e, ttl)) && !(e.Reject? && e.id == id && e.removed)
    ensures !Expires(e, id, s.pending[id].requestedAt, ttl)
  {}

  /** Every approval is of a request started with that code, not expired, and not started again, approved
      or withdrawn in between; so a request is approved at most once for each time it is started. */
  lemma {:induction false} ApprovalLaw(events: seq<Event>, i: nat, id: string, ttl: int) returns (j: nat)
    requires i < |events| && ApprovedAt(events, i, id, ttl)
    ensures OpenSince(events, j, i, id, ttl) && Unexpired(events, j, i, id, ttl)
    ensures events[j].code == events[i].code && (ttl > 0 ==> events[i].now <= events[j].now + ttl)
  {
    j := PendingWasStarted(events, i, id, ttl);
  }

  lemma {:induction false} ApprovedOncePerStart(events: seq<Event>, i: nat, k: nat, id: string, ttl: int)
    requires i < k < |events| && ApprovedAt(events, i, id, ttl) && ApprovedAt(events, k, id, ttl)
    ensures exists j :: i < j < k && Starts(events[j]) && events[j].id == id
  {
    var j := ApprovalLaw(events, k, id, ttl);
    assert ClosedAt(events, i, id, ttl);
  }

  // ----- when an approval goes through -----

  /** A request that is neither closed nor found expired stays as it was started. */
  lemma {:induction false} StaysPending(events: seq<Event>, j: nat, n: nat, id: string, ttl: int)
    requires n <= |events| && OpenSince(events, j, n, id, ttl) && Unexpired(events, j, n, id, ttl)
    ensures var s := StateAt(events, n, ttl);
            id in s.pending && s.pending[id] == Request(events[j].name, events[j].code, events[j].now)
    decreases n
  {
    if j == n - 1 {
    } else {
      assert OpenSince(events, j, n - 1, id, ttl);
      StaysPending(events, j, n - 1, id, ttl);
      assert !ClosedAt(events, n - 1, id, ttl) && !Expires(events[n - 1], id, events[j].now, ttl);
      StepKeepsPending(StateAt(events, n - 1, ttl), events[n - 1], id, ttl);
    }
  }

  lemma {:induction false} StepKeepsPending(s: State, e: Event, id: string, ttl: int)
    requires id in s.pending && !Expires(e, id, s.pending[id].requestedAt, ttl)
    requires !(Starts(e) && e.id == id) && !(e.Approve? && e.id == id && Approves(s, e, ttl))
    requires !(e.Reject? && e.id == id && e.removed)
    ensures id in Step(s, e, ttl).pending && Step(s, e, ttl).pending[id] == s.pending[id]
  {}

  /** Event `i` can approve the request of event `j`: it is still open, was never found expired, has the
      code, and is not older than its time limit. */
  ghost predicate Approvable(events: seq<Event>, j: nat, i: nat, id: string, ttl: int)
    requires i < |events| && events[i].Approve?
  {
    && OpenSince(events, j, i, id, ttl) && Unexpired(events, j, i, id, ttl)
    && events[j].code == events[i].code && (ttl > 0 ==> events[i].now <= events[j].now + ttl)
  }

  /** An approval goes through if and only if there is such a request and nothing fails. */
  lemma {:induction false} ApprovalExact(events: seq<Event>, i: nat, id: string, ttl: int)
    requires i < |events| && events[i].Approve? && events[i].id == id
    ensures ApprovedAt(events, i, id, ttl)
       <==> && events[i].device != "" && events[i].token != "" && events[i].stored && events[i].removed
            && exists j :: Approvable(events, j, i, id, ttl)
  {
    if ApprovedAt(events, i, id, ttl) {
      var j := ApprovalLaw(events, i, id, ttl);
      assert Approvable(events, j, i, id, ttl);
    } else if exists j :: Approvable(events, j, i, id, ttl) {
      var j :| Approvable(events, j, i, id, ttl);
      StaysPending(events, j, i, id, ttl);
    }
  }

  // ----- what a client is told -----

  /** Told to be approved exactly when a claim would succeed; to be pending exactly when there is no
      decision yet and an approval with that code would be accepted now; to be expired exactly when there
      is no decision and the request is still there but older than its time limit; and rejected otherwise. */
  lemma {:induction false} StatusLaw(s: State, id: string, code: string, now: int, ttl: int)
    ensures ClaimStatus(s, id, code, now, ttl).Approved? <==> Claim(s, id, code).Some?
    ensures ClaimStatus(s, id, code, now, ttl).Pending?
       <==> id !in s.approved && id !in s.rejected && Accepts(s, now, id, code, ttl)
    ensures ClaimStatus(s, id, code, now, ttl).Expired?
       <==> && id !in s.approved && id !in s.rejected && id in s.pending
            && ttl > 0 && now > s.pending[id].requestedAt + ttl
  {}
}
