/** From the output buffer to one observer's web socket: sequence window, frame queue, and the
    guarantee that every chunk is delivered at most once and in order. */
module StreamDelivery {
  import opened Common
  import opened OutputBuffer

  const INITIAL_TAIL_BYTES: nat := 64 * 1024

  /** A queued web-socket frame.  `next` is the sequence number the client is caught up to once the
      frame has been written.  `Status` stands for every frame that carries no terminal output. */
  datatype Frame =
    | Status(next: nat)
    | Initial(next: nat, slice: Slice)
    | Output(next: nat, slice: Slice)

  datatype Client = Client(
    raw: bool, delivered: nat, reserved: nat, queue: seq<Frame>, writing: bool, initialSent: bool)

  // ----- the socket's operations on values -----

  function QueueFrame(c: Client, f: Frame): Client {
    c.(reserved := Max(c.reserved, f.next), queue := c.queue + [f], writing := true)
  }

  /** Output frames without data are suppressed in raw mode only. */
  function QueueOutputFrame(c: Client, f: Frame): Client
    requires !f.Status?
  {
    if c.raw && f.slice.data == "" then c else QueueFrame(c, f)
  }

  function QueueStatuses(c: Client, count: nat): Client
    decreases count
  {
    if count == 0 then c else QueueStatuses(QueueFrame(c, Status(c.reserved)), count - 1)
  }

  function InitialFrame(c: Client, tail: Slice): Frame {
    Initial(if tail.last > 0 then tail.last + 1 else c.delivered, tail)
  }

  function QueueInitial(c: Client, statuses: nat, tail: Slice): Client {
    if c.initialSent then c
    else
      var c1 := QueueStatuses(c.(initialSent := true), statuses);
      QueueOutputFrame(c1, InitialFrame(c1, tail))
  }

  function SendPending(c: Client, statuses: nat, output: Slice): Client {
    var c1 := QueueStatuses(c, statuses);
    if output.data == "" then c1 else QueueOutputFrame(c1, Output(output.last + 1, output))
  }

  function WriteDone(c: Client): Client
    requires c.queue != []
  {
    var next := c.queue[0].next;
    c.(delivered := next, reserved := Max(c.reserved, next), queue := c.queue[1..], writing := |c.queue| > 1)
  }

  // ----- the same operations as the source performs them -----

  class StreamSequenceWindow {
    var deliveredNext: nat
    var reservedNext: nat

    constructor ()
      ensures deliveredNext == 1 && reservedNext == 1
    {
      deliveredNext, reservedNext := 1, 1;
    }

    method ReserveThrough(next: nat)
      modifies this
      ensures reservedNext == Max(old(reservedNext), next) && deliveredNext == old(deliveredNext)
    {
      reservedNext := Max(reservedNext, next);
    }

    method MarkDelivered(next: nat)
      modifies this
      ensures deliveredNext == next && reservedNext == Max(old(reservedNext), next)
    {
      deliveredNext := next;
      reservedNext := Max(reservedNext, deliveredNext);
    }
  }

  class WebSocketSession {
    const rawOutputMode: bool
    const window: StreamSequenceWindow
    var pendingFrames: seq<Frame>
    var writeInProgress: bool
    var initialEventsSent: bool

    ghost function State(): Client
      reads this, window
    {
      Client(rawOutputMode, window.deliveredNext, window.reservedNext, pendingFrames, writeInProgress,
             initialEventsSent)
    }

    constructor (raw: bool)
      ensures State() == Client(raw, 1, 1, [], false, false) && fresh(window)
    {
      rawOutputMode := raw;
      window := new StreamSequenceWindow();
      pendingFrames, writeInProgress, initialEventsSent := [], false, false;
    }

    method QueueOne(f: Frame)
      modifies this`pendingFrames, this`writeInProgress, window
      ensures State() == QueueFrame(old(State()), f)
    {
      window.ReserveThrough(f.next);
      pendingFrames := pendingFrames + [f];
      if !writeInProgress { DoWrite(); }
    }

    /** Starts writing the front frame, if any. */
    method DoWrite()
      modifies this`writeInProgress
      ensures writeInProgress == (pendingFrames != [])
    {
      writeInProgress := pendingFrames != [];
    }

    method QueueOutput(f: Frame)
      requires !f.Status?
      modifies this`pendingFrames, this`writeInProgress, window
      ensures State() == QueueOutputFrame(old(State()), f)
    {
      if rawOutputMode && f.slice.data == "" { return; }
      QueueOne(f);
    }

    /** `count` is the number of status events the source finds to report. */
    method QueueStatusEvents(count: nat)
      modifies this`pendingFrames, this`writeInProgress, window
      ensures State() == QueueStatuses(old(State()), count)
    {
      var left := count;
      while left > 0
        invariant QueueStatuses(State(), left) == QueueStatuses(old(State()), count)
      {
        QueueOne(Status(window.reservedNext));
        left := left - 1;
      }
    }

    method QueueInitialEvents(statuses: nat, buffer: SessionOutputBuffer) returns (tail: Slice)
      requires buffer.Valid()
      modifies this, window
      ensures IsTail(buffer.chunks, INITIAL_TAIL_BYTES, tail)
      ensures State() == QueueInitial(old(State()), statuses, tail)
    {
      tail := buffer.Tail(INITIAL_TAIL_BYTES);
      if initialEventsSent { return; }
      initialEventsSent := true;
      QueueStatusEvents(statuses);
      QueueOutput(Initial(if tail.last > 0 then tail.last + 1 else window.deliveredNext, tail));
    }

    method SendPendingOutput(statuses: nat, buffer: SessionOutputBuffer)
      requires buffer.Valid()
      modifies this, window
      ensures var before := old(State());
        State() == SendPending(before, statuses,
                               SliceFrom(buffer.chunks, QueueStatuses(before, statuses).reserved))
    {
      QueueStatusEvents(statuses);
      var output := buffer.SliceFromSequence(window.reservedNext);
      if output.data == "" { return; }
      QueueOutput(Output(output.last + 1, output));
    }

    /** The completion handler of a successful write of the front frame. */
    method OnWritten()
      requires pendingFrames != []
      modifies this`pendingFrames, this`writeInProgress, window
      ensures State() == WriteDone(old(State()))
    {
      window.MarkDelivered(pendingFrames[0].next);
      pendingFrames := pendingFrames[1..];
      DoWrite();
    }
  }

  // ----- runs -----

  /** A frame together with the moment it was queued: how many chunks had been produced by then,
      and how many of those the buffer had already evicted. */
  datatype Queued = Queued(frame: Frame, produced: nat, evicted: nat)

  /** The producer, one client, every frame ever queued for it, and how many have been written. */
  datatype World = World(
    capacity: nat, history: seq<string>, client: Client, trace: seq<Queued>, written: nat, failed: bool)

  datatype Step =
    | Produce(data: string)
    | Connect(statuses: nat, tail: Slice)
    | Poll(statuses: nat)
    | Notice
    | WriteOk
    | WriteFail

  function Start(capacity: nat, raw: bool): World {
    World(capacity, [], Client(raw, 1, 1, [], false, false), [], 0, false)
  }

  function Evicted(history: seq<string>, capacity: nat): nat {
    var kept := |Retained(history, capacity)|;
    if kept <= |history| then |history| - kept else 0
  }

  function Push(w: World, f: Frame): World {
    w.(client := QueueFrame(w.client, f),
       trace := w.trace + [Queued(f, |w.history|, Evicted(w.history, w.capacity))])
  }

  function PushStatuses(w: World, count: nat): World
    decreases count
  {
    if count == 0 then w else PushStatuses(Push(w, Status(w.client.reserved)), count - 1)
  }

  function PushOutput(w: World, f: Frame): World
    requires !f.Status?
  {
    if w.client.raw && f.slice.data == "" then w else Push(w, f)
  }

  function PendingOutput(w: World): Slice {
    SliceFrom(Retained(w.history, w.capacity), w.client.reserved)
  }

  predicate Enabled(w: World, step: Step) {
    match step
    case Produce(_) => true
    case Connect(_, _) => !w.client.initialSent
    case Poll(_) => w.client.initialSent
    case Notice => w.client.initialSent
    case WriteOk => w.client.writing && !w.failed && w.client.queue != []
    case WriteFail => w.client.writing && !w.failed
  }

  function Apply(w: World, step: Step): World
    requires Enabled(w, step)
  {
    match step
    case Produce(data) => if data == "" then w else w.(history := w.history + [data])
    case Connect(statuses, tail) =>
      var w1 := PushStatuses(w.(client := w.client.(initialSent := true)), statuses);
      PushOutput(w1, InitialFrame(w1.client, tail))
    case Poll(statuses) =>
      var w1 := PushStatuses(w, statuses);
      var output := PendingOutput(w1);
      if output.data == "" then w1 else PushOutput(w1, Output(output.last + 1, output))
    case Notice => Push(w, Status(w.client.reserved))
    case WriteOk => w.(client := WriteDone(w.client), written := w.written + 1)
    case WriteFail => w.(failed := true)
  }

  ghost predicate Next(w: World, step: Step, w': World) {
    && Enabled(w, step)
    && (step.Connect? ==> IsTail(Retained(w.history, w.capacity), INITIAL_TAIL_BYTES, step.tail))
    && w' == Apply(w, step)
  }

  ghost predicate IsRun(ws: seq<World>, steps: seq<Step>) {
    && |ws| == |steps| + 1
    && ws[0] == Start(ws[0].capacity, ws[0].client.raw)
    && forall i :: 0 <= i < |steps| ==> Next(ws[i], steps[i], ws[i + 1])
  }

  lemma {:induction false} PushStatusesClient(w: World, count: nat)
    ensures PushStatuses(w, count).client == QueueStatuses(w.client, count)
    ensures PushStatuses(w, count).history == w.history && PushStatuses(w, count).capacity == w.capacity
    decreases count
  {
    if count == 0 {
    } else {
      PushStatusesClient(Push(w, Status(w.client.reserved)), count - 1);
    }
  }

  /** What was queued is kept, followed by that many status frames. */
  ghost predicate StatusesFollow(w: World, w': World, count: nat) {
    && |w'.trace| >= |w.trace| + count && w'.trace[..|w.trace|] == w.trace
    && forall k :: |w.trace| <= k < |w.trace| + count ==> w'.trace[k].frame.Status?
  }

  lemma {:induction false} PushStatusesTrace(w: World, count: nat)
    ensures StatusesFollow(w, PushStatuses(w, count), count)
    ensures |PushStatuses(w, count).trace| == |w.trace| + count
    decreases count
  {
    if count == 0 {
    } else {
      var w1, r := Push(w, Status(w.client.reserved)), PushStatuses(w, count);
      PushStatusesTrace(w1, count - 1);
      assert r.trace[..|w.trace|] == r.trace[..|w1.trace|][..|w.trace|];
      assert r.trace[|w.trace|] == r.trace[..|w1.trace|][|w.trace|];
    }
  }

  /** The number of status events a step reports. */
  function StatusesOf(step: Step): nat {
    match step
    case Connect(statuses, _) => statuses
    case Poll(statuses) => statuses
    case Notice => 1
    case _ => 0
  }

  /** A step queues every status event it has to report, and after them at most one frame of output. */
  lemma {:induction false} StatusesAreQueued(w: World, step: Step)
    requires Enabled(w, step)
    ensures var w', n := Apply(w, step), StatusesOf(step);
      && StatusesFollow(w, w', n) && |w'.trace| <= |w.trace| + n + 1
      && (|w'.trace| > |w.trace| + n ==> !w'.trace[|w.trace| + n].frame.Status?)
  {
    if step.Connect? {
      PushStatusesTrace(w.(client := w.client.(initialSent := true)), step.statuses);
    } else if step.Poll? {
      PushStatusesTrace(w, step.statuses);
    }
  }

  /** The steps move the client exactly as the socket's own operations do. */
  lemma {:induction false} StepsAreTheSocketOperations(w: World, step: Step)
    requires Enabled(w, step)
    ensures var c, c' := w.client, Apply(w, step).client;
      match step
      case Produce(_) => c' == c
      case Connect(n, tail) => c' == QueueInitial(c, n, tail)
      case Poll(n) => c' == SendPending(c, n, SliceFrom(Retained(w.history, w.capacity), QueueStatuses(c, n).reserved))
      case Notice => c' == QueueStatuses(c, 1)
      case WriteOk => c' == WriteDone(c)
      case WriteFail => c' == c
  {
    if step.Connect? {
      PushStatusesClient(w.(client := w.client.(initialSent := true)), step.statuses);
    } else if step.Poll? {
      PushStatusesClient(w, step.statuses);
    } else if step.Notice? {
      var c1 := QueueFrame(w.client, Status(w.client.reserved));
      assert QueueStatuses(w.client, 1) == QueueStatuses(c1, 0);
    }
  }

  // ----- the invariant of every run -----

  /** The sequence number wanted next, after the first `i` queued frames. */
  function Wanted(trace: seq<Queued>, i: nat): nat
    requires i <= |trace|
  {
    if i == 0 then 1 else trace[i - 1].frame.next
  }

  /** A frame queued when `wanted` was the next number to send moves on from there, and an output
      frame holds exactly the chunks it names; `cs` are all chunks produced so far. */
  ghost predicate Carries(cs: seq<Chunk>, wanted: nat, f: Frame) {
    && 1 <= wanted <= f.next <= |cs| + 1
    && match f
       case Status(next) => next == wanted
       case Initial(next, slice) => wanted == 1 && next == slice.last + 1
       case Output(next, slice) =>
         && wanted <= slice.first <= slice.last && next == slice.last + 1
         && slice.data == Joined(cs, slice.first, slice.last)
  }

  /** How the frame came about, in terms of what the buffer held when it was queued. */
  ghost predicate Sourced(capacity: nat, history: seq<string>, wanted: nat, q: Queued) {
    && q.produced <= |history|
    && q.evicted == Evicted(history[..q.produced], capacity)
    && (q.frame.Initial? ==> IsTail(Retained(history[..q.produced], capacity), INITIAL_TAIL_BYTES, q.frame.slice))
    && (q.frame.Output? ==> q.frame.slice.first == Max(wanted, q.evicted + 1))
  }

  ghost predicate CarriesAt(cs: seq<Chunk>, trace: seq<Queued>, i: nat)
    requires i < |trace|
  {
    Carries(cs, Wanted(trace, i), trace[i].frame)
  }

  ghost predicate SourcedAt(capacity: nat, history: seq<string>, trace: seq<Queued>, i: nat)
    requires i < |trace|
  {
    Sourced(capacity, history, Wanted(trace, i), trace[i])
  }

  ghost predicate CarriesAll(cs: seq<Chunk>, trace: seq<Queued>) {
    forall i :: 0 <= i < |trace| ==> CarriesAt(cs, trace, i)
  }

  ghost predicate SourcedAll(capacity: nat, history: seq<string>, trace: seq<Queued>) {
    forall i :: 0 <= i < |trace| ==> SourcedAt(capacity, history, trace, i)
  }

  /** The queue is the unwritten end of the trace, and the window follows the trace. */
  ghost predicate QueueInv(c: Client, trace: seq<Queued>, written: nat) {
    && written <= |trace|
    && |c.queue| == |trace| - written
    && (forall i :: 0 <= i < |c.queue| ==> c.queue[i] == trace[written + i].frame)
    && c.reserved == Wanted(trace, |trace|)
    && c.delivered == Wanted(trace, written)
    && (!c.initialSent ==> trace == [])
  }

  ghost predicate Inv(w: World) {
    && (forall i :: 0 <= i < |w.history| ==> w.history[i] != "")
    && CarriesAll(Stored(w.history, w.capacity), w.trace)
    && SourcedAll(w.capacity, w.history, w.trace)
    && QueueInv(w.client, w.trace, w.written)
  }

  lemma {:induction false} WantedGrows(cs: seq<Chunk>, trace: seq<Queued>, i: nat, j: nat)
    requires CarriesAll(cs, trace) && i <= j <= |trace|
    ensures 1 <= Wanted(trace, i) <= Wanted(trace, j) <= |cs| + 1
    decreases j
  {
    if j == 0 {
    } else {
      assert CarriesAt(cs, trace, j - 1);
      WantedGrows(cs, trace, if i < j then i else j - 1, j - 1);
    }
  }

  lemma {:induction false} WantedBounds(w: World)
    requires Inv(w)
    ensures 1 <= w.client.delivered <= w.client.reserved <= |w.history| + 1
    ensures w.client.queue == [] ==> w.client.delivered == w.client.reserved
  {
    WantedGrows(Stored(w.history, w.capacity), w.trace, w.written, |w.trace|);
  }

  lemma {:induction false} CarriesAllSnoc(cs: seq<Chunk>, trace: seq<Queued>, q: Queued)
    requires CarriesAll(cs, trace) && Carries(cs, Wanted(trace, |trace|), q.frame)
    ensures CarriesAll(cs, trace + [q])
  {
    forall i | 0 <= i < |trace| + 1 ensures CarriesAt(cs, trace + [q], i) {
      if i < |trace| { assert CarriesAt(cs, trace, i); }
    }
  }

  lemma {:induction false} SourcedAllSnoc(capacity: nat, history: seq<string>, trace: seq<Queued>, q: Queued)
    requires SourcedAll(capacity, history, trace) && Sourced(capacity, history, Wanted(trace, |trace|), q)
    ensures SourcedAll(capacity, history, trace + [q])
  {
    forall i | 0 <= i < |trace| + 1 ensures SourcedAt(capacity, history, trace + [q], i) {
      if i < |trace| { assert SourcedAt(capacity, history, trace, i); }
    }
  }

  lemma {:induction false} PushQueueInv(c: Client, trace: seq<Queued>, written: nat, q: Queued)
    requires QueueInv(c, trace, written) && c.initialSent && c.reserved <= q.frame.next
    ensures QueueInv(QueueFrame(c, q.frame), trace + [q], written)
  {}

  lemma {:induction false} PushInv(w: World, f: Frame)
    requires Inv(w) && w.client.initialSent
    requires Carries(Stored(w.history, w.capacity), w.client.reserved, f)
    requires Sourced(w.capacity, w.history, w.client.reserved, Queued(f, |w.history|, Evicted(w.history, w.capacity)))
    ensures Inv(Push(w, f))
  {
    var q := Queued(f, |w.history|, Evicted(w.history, w.capacity));
    CarriesAllSnoc(Stored(w.history, w.capacity), w.trace, q);
    SourcedAllSnoc(w.capacity, w.history, w.trace, q);
    PushQueueInv(w.client, w.trace, w.written, q);
  }

  lemma {:induction false} PushStatusInv(w: World)
    requires Inv(w) && w.client.initialSent
    ensures Inv(Push(w, Status(w.client.reserved)))
  {
    WantedBounds(w);
    assert w.history[..|w.history|] == w.history;
    PushInv(w, Status(w.client.reserved));
  }

  lemma {:induction false} PushStatusesInv(w: World, count: nat)
    requires Inv(w) && w.client.initialSent
    ensures Inv(PushStatuses(w, count))
    decreases count
  {
    if count == 0 {
    } else {
      PushStatusInv(w);
      PushStatusesInv(Push(w, Status(w.client.reserved)), count - 1);
    }
  }

  lemma {:induction false} QueueStatusesKeeps(c: Client, count: nat)
    ensures var c' := QueueStatuses(c, count);
      && c'.raw == c.raw && c'.initialSent == c.initialSent
      && c'.reserved == c.reserved && c'.delivered == c.delivered
    decreases count
  {
    if count == 0 {
    } else {
      QueueStatusesKeeps(QueueFrame(c, Status(c.reserved)), count - 1);
    }
  }

  lemma {:induction false} PushPendingInv(w: World)
    requires Inv(w) && w.client.initialSent && PendingOutput(w).data != ""
    ensures Inv(Push(w, Output(PendingOutput(w).last + 1, PendingOutput(w))))
  {
    WantedBounds(w);
    RetainedIsStoredSuffix(w.history, w.capacity);
    SliceFromHistory(w.history, w.capacity, w.client.reserved);
    assert w.history[..|w.history|] == w.history;
    PushInv(w, Output(PendingOutput(w).last + 1, PendingOutput(w)));
  }

  lemma {:induction false} TailEndsAtNewest(history: seq<string>, capacity: nat, n: nat, s: Slice)
    requires IsTail(Retained(history, capacity), n, s)
    ensures s.last == 0 || s.last == |history|
  {
    RetainedShape(history, capacity);
  }

  lemma {:induction false} ConnectInv(w: World, statuses: nat, tail: Slice)
    requires Inv(w) && !w.client.initialSent
    requires IsTail(Retained(w.history, w.capacity), INITIAL_TAIL_BYTES, tail)
    ensures Inv(Apply(w, Connect(statuses, tail)))
  {
    var w0 := w.(client := w.client.(initialSent := true));
    PushStatusesInv(w0, statuses);
    PushStatusesClient(w0, statuses);
    QueueStatusesKeeps(w0.client, statuses);
    TailEndsAtNewest(w.history, w.capacity, INITIAL_TAIL_BYTES, tail);
    var w1 := PushStatuses(w0, statuses);
    assert w1.history[..|w1.history|] == w1.history;
    if !(w1.client.raw && tail.data == "") {
      PushInv(w1, InitialFrame(w1.client, tail));
    }
  }

  lemma {:induction false} PollInv(w: World, statuses: nat)
    requires Inv(w) && w.client.initialSent
    ensures Inv(Apply(w, Poll(statuses)))
  {
    PushStatusesInv(w, statuses);
    PushStatusesClient(w, statuses);
    QueueStatusesKeeps(w.client, statuses);
    var w1 := PushStatuses(w, statuses);
    if PendingOutput(w1).data != "" { PushPendingInv(w1); }
  }

  lemma {:induction false} CarriesGrows(cs: seq<Chunk>, c: Chunk, wanted: nat, f: Frame)
    requires Carries(cs, wanted, f)
    ensures Carries(cs + [c], wanted, f)
  {
    if f.Output? {
      assert (cs + [c])[f.slice.first - 1..f.slice.last] == cs[f.slice.first - 1..f.slice.last];
    }
  }

  lemma {:induction false} SourcedGrows(capacity: nat, history: seq<string>, data: string, wanted: nat, q: Queued)
    requires Sourced(capacity, history, wanted, q)
    ensures Sourced(capacity, history + [data], wanted, q)
  {
    assert (history + [data])[..q.produced] == history[..q.produced];
  }

  lemma {:induction false} ProduceInv(w: World, data: string)
    requires Inv(w) && data != ""
    ensures Inv(w.(history := w.history + [data]))
  {
    var h, c := w.history + [data], Chunk(|w.history| + 1, LastBytes(data, w.capacity));
    var cs := Stored(w.history, w.capacity);
    assert Stored(h, w.capacity) == cs + [c];
    forall i | 0 <= i < |w.trace| ensures CarriesAt(cs + [c], w.trace, i) {
      assert CarriesAt(cs, w.trace, i);
      CarriesGrows(cs, c, Wanted(w.trace, i), w.trace[i].frame);
    }
    forall i | 0 <= i < |w.trace| ensures SourcedAt(w.capacity, h, w.trace, i) {
      assert SourcedAt(w.capacity, w.history, w.trace, i);
      SourcedGrows(w.capacity, w.history, data, Wanted(w.trace, i), w.trace[i]);
    }
  }

  lemma {:induction false} WriteInv(w: World)
    requires Inv(w) && Enabled(w, WriteOk)
    ensures Inv(Apply(w, WriteOk))
    ensures w.client.delivered <= Apply(w, WriteOk).client.delivered
  {
    var n, cs := w.written, Stored(w.history, w.capacity);
    WantedGrows(cs, w.trace, n + 1, |w.trace|);
    WantedGrows(cs, w.trace, n, n + 1);
  }

  lemma {:induction false} StepInv(w: World, step: Step, w': World)
    requires Inv(w) && Next(w, step, w')
    ensures Inv(w')
  {
    match step
    case Produce(data) => if data != "" { ProduceInv(w, data); }
    case Connect(n, tail) => ConnectInv(w, n, tail);
    case Poll(n) => PollInv(w, n);
    case Notice => PushStatusInv(w);
    case WriteOk => WriteInv(w);
    case WriteFail => assert Inv(w');
  }

  lemma {:induction false} StepDelivers(w: World, step: Step, w': World)
    requires Inv(w) && Next(w, step, w')
    ensures w.client.delivered <= w'.client.delivered
  {
    StepsAreTheSocketOperations(w, step);
    match step
    case Connect(n, _) => QueueStatusesKeeps(w.client.(initialSent := true), n);
    case Poll(n) => QueueStatusesKeeps(w.client, n);
    case Notice => QueueStatusesKeeps(w.client, 1);
    case WriteOk => WriteInv(w);
    case _ =>
  }

  lemma {:induction false} RunInv(ws: seq<World>, steps: seq<Step>, k: nat)
    requires IsRun(ws, steps) && k < |ws|
    ensures Inv(ws[k])
    decreases k
  {
    if k == 0 {
    } else {
      RunInv(ws, steps, k - 1);
      StepInv(ws[k - 1], steps[k - 1], ws[k]);
    }
  }

  // ----- what every run guarantees -----

  /** Counters: in every state of every run `delivered` is at most `reserved`, which is at most one
      past the newest chunk; the two are equal when nothing is queued; `delivered` never decreases. */
  lemma {:induction false} DeliveredNeverDecreases(ws: seq<World>, steps: seq<Step>, i: nat, j: nat)
    requires IsRun(ws, steps) && i <= j < |ws|
    ensures 1 <= ws[i].client.delivered <= ws[j].client.delivered <= ws[j].client.reserved <= |ws[j].history| + 1
    ensures ws[j].client.queue == [] ==> ws[j].client.delivered == ws[j].client.reserved
    decreases j
  {
    CountersInOrder(ws, steps, j);
    if i >= j {
    } else {
      DeliveredNeverDecreases(ws, steps, i, j - 1);
      StepOfRunDelivers(ws, steps, j - 1);
    }
  }

  lemma {:induction false} CountersInOrder(ws: seq<World>, steps: seq<Step>, j: nat)
    requires IsRun(ws, steps) && j < |ws|
    ensures 1 <= ws[j].client.delivered <= ws[j].client.reserved <= |ws[j].history| + 1
    ensures ws[j].client.queue == [] ==> ws[j].client.delivered == ws[j].client.reserved
  {
    RunInv(ws, steps, j);
    WantedBounds(ws[j]);
  }

  lemma {:induction false} StepOfRunDelivers(ws: seq<World>, steps: seq<Step>, j: nat)
    requires IsRun(ws, steps) && j + 1 < |ws|
    ensures ws[j].client.delivered <= ws[j + 1].client.delivered
  {
    RunInv(ws, steps, j);
    StepDelivers(ws[j], steps[j], ws[j + 1]);
  }

  /** Every output frame carries exactly the stored data of the chunks it names, and starts at the
      wanted chunk unless the buffer had evicted that chunk by the time of the poll. */
  lemma {:induction false} FramesCarryTheirChunks(ws: seq<World>, steps: seq<Step>, k: nat, i: nat)
    requires IsRun(ws, steps) && k < |ws| && i < |ws[k].trace| && ws[k].trace[i].frame.Output?
    ensures var w, q := ws[k], ws[k].trace[i];
      var s, wanted := q.frame.slice, Wanted(ws[k].trace, i);
      && 1 <= wanted <= s.first <= s.last <= |w.history| && q.produced <= |w.history|
      && s.data == Joined(Stored(w.history, w.capacity), s.first, s.last)
      && (s.first > wanted ==> wanted <= Evicted(w.history[..q.produced], w.capacity))
      && q.frame.next == s.last + 1
  {
    var w := ws[k];
    RunInv(ws, steps, k);
    assert CarriesAt(Stored(w.history, w.capacity), w.trace, i);
    assert SourcedAt(w.capacity, w.history, w.trace, i);
  }

  /** At most once and in order: ranges of later output frames lie strictly after those of all
      earlier frames, the initial tail included. */
  lemma {:induction false} OutputRangesIncrease(ws: seq<World>, steps: seq<Step>, k: nat, i: nat, j: nat)
    requires IsRun(ws, steps) && k < |ws| && i < j < |ws[k].trace|
    requires !ws[k].trace[i].frame.Status? && ws[k].trace[j].frame.Output?
    ensures ws[k].trace[i].frame.slice.last < ws[k].trace[j].frame.slice.first
  {
    RunInv(ws, steps, k);
    RangesIncrease(Stored(ws[k].history, ws[k].capacity), ws[k].trace, i, j);
  }

  lemma {:induction false} RangesIncrease(cs: seq<Chunk>, trace: seq<Queued>, i: nat, j: nat)
    requires CarriesAll(cs, trace) && i < j < |trace|
    requires !trace[i].frame.Status? && trace[j].frame.Output?
    ensures trace[i].frame.slice.last < trace[j].frame.slice.first
  {
    assert CarriesAt(cs, trace, i) && CarriesAt(cs, trace, j);
    WantedGrows(cs, trace, i + 1, j);
  }

  /** Where the live stream starts: after the initial tail, or at chunk 1 if there was none. */
  function LiveStart(trace: seq<Queued>): nat {
    if trace == [] then 1
    else
      var last := trace[|trace| - 1].frame;
      if last.Initial? then last.next else LiveStart(trace[..|trace| - 1])
  }

  /** All live output, in queueing order. */
  function Payload(trace: seq<Queued>): string {
    if trace == [] then ""
    else
      var last := trace[|trace| - 1].frame;
      if last.Output? then Payload(trace[..|trace| - 1]) + last.slice.data else Payload(trace[..|trace| - 1])
  }

  /** No poll found its wanted chunk evicted from the buffer. */
  ghost predicate WantedWereKept(trace: seq<Queued>) {
    forall i :: 0 <= i < |trace| && trace[i].frame.Output? ==> trace[i].evicted < Wanted(trace, i)
  }

  /** Every output frame starts at the wanted chunk. */
  ghost predicate NoGap(trace: seq<Queued>) {
    forall i :: 0 <= i < |trace| && trace[i].frame.Output? ==> trace[i].frame.slice.first == Wanted(trace, i)
  }

  /** Eviction is the only source of gaps, and always is one. */
  lemma {:induction false} GapsAreEvictions(ws: seq<World>, steps: seq<Step>, k: nat)
    requires IsRun(ws, steps) && k < |ws|
    ensures WantedWereKept(ws[k].trace) <==> NoGap(ws[k].trace)
    ensures forall i :: 0 <= i < |ws[k].trace| ==> EvictedAt(ws[k], i)
  {
    var w := ws[k];
    RunInv(ws, steps, k);
    forall i | 0 <= i < |w.trace|
      ensures EvictedAt(w, i)
      ensures w.trace[i].frame.Output? ==>
                (w.trace[i].evicted < Wanted(w.trace, i) <==> w.trace[i].frame.slice.first == Wanted(w.trace, i))
    {
      assert SourcedAt(w.capacity, w.history, w.trace, i);
    }
  }

  /** What is recorded as evicted with a frame is what the buffer had evicted when it was queued. */
  ghost predicate EvictedAt(w: World, i: nat)
    requires i < |w.trace|
  {
    var q := w.trace[i];
    q.produced <= |w.history| && q.evicted == Evicted(w.history[..q.produced], w.capacity)
  }

  lemma {:induction false} JoinedExtends(cs: seq<Chunk>, lo: nat, mid: nat, hi: nat)
    requires 1 <= lo <= mid <= hi + 1 && hi <= |cs|
    ensures Joined(cs, lo, mid - 1) + Joined(cs, mid, hi) == Joined(cs, lo, hi)
  {
    if lo <= mid - 1 && mid <= hi {
      assert cs[lo - 1..hi] == cs[lo - 1..mid - 1] + cs[mid - 1..hi];
      FlatAppend(cs[lo - 1..mid - 1], cs[mid - 1..hi]);
    }
  }

  lemma {:induction false} PrefixFacts(cs: seq<Chunk>, trace: seq<Queued>, q: Queued)
    requires CarriesAll(cs, trace + [q]) && NoGap(trace + [q])
    ensures CarriesAll(cs, trace) && NoGap(trace)
    ensures Carries(cs, Wanted(trace, |trace|), q.frame)
    ensures q.frame.Output? ==> q.frame.slice.first == Wanted(trace, |trace|)
  {
    var t := trace + [q];
    assert CarriesAt(cs, t, |trace|) && t[|trace|] == q;
    forall i | 0 <= i < |trace| ensures CarriesAt(cs, trace, i) { assert CarriesAt(cs, t, i); }
    forall i | 0 <= i < |trace| && trace[i].frame.Output? ensures trace[i].frame.slice.first == Wanted(trace, i) {
      assert t[i] == trace[i];
    }
  }

  lemma {:induction false} PayloadIsTheStream(cs: seq<Chunk>, trace: seq<Queued>)
    requires CarriesAll(cs, trace) && NoGap(trace)
    ensures 1 <= LiveStart(trace) <= Wanted(trace, |trace|) <= |cs| + 1
    ensures Payload(trace) == Joined(cs, LiveStart(trace), Wanted(trace, |trace|) - 1)
  {
    if trace == [] {
    } else {
      var t, q := trace[..|trace| - 1], trace[|trace| - 1];
      assert trace == t + [q];
      PrefixFacts(cs, t, q);
      PayloadIsTheStream(cs, t);
      if q.frame.Output? {
        JoinedExtends(cs, LiveStart(t), Wanted(t, |t|), q.frame.slice.last);
      }
    }
  }

  lemma {:induction false} GaplessRun(ws: seq<World>, steps: seq<Step>, k: nat)
    requires IsRun(ws, steps) && k < |ws| && WantedWereKept(ws[k].trace)
    ensures var w := ws[k];
      && CarriesAll(Stored(w.history, w.capacity), w.trace) && NoGap(w.trace) && w.written <= |w.trace|
      && w.client.reserved == Wanted(w.trace, |w.trace|) && w.client.delivered == Wanted(w.trace, w.written)
  {
    RunInv(ws, steps, k);
    GapsAreEvictions(ws, steps, k);
  }

  /** Exactly once: in every run in which no poll found its wanted chunk evicted, the live output queued
      for the client is the concatenation of the chunks following the initial tail, none missing,
      repeated or reordered, up to `reserved`. */
  lemma {:induction false} ExactlyOnce(ws: seq<World>, steps: seq<Step>, k: nat)
    requires IsRun(ws, steps) && k < |ws| && WantedWereKept(ws[k].trace)
    ensures var w := ws[k];
      && 1 <= LiveStart(w.trace) <= w.client.reserved <= |w.history| + 1
      && Payload(w.trace) == Joined(Stored(w.history, w.capacity), LiveStart(w.trace), w.client.reserved - 1)
  {
    GaplessRun(ws, steps, k);
    PayloadIsTheStream(Stored(ws[k].history, ws[k].capacity), ws[k].trace);
  }

  /** The same for what has been written to the client, up to `delivered`. */
  lemma {:induction false} DeliveredExactlyOnce(ws: seq<World>, steps: seq<Step>, k: nat)
    requires IsRun(ws, steps) && k < |ws| && WantedWereKept(ws[k].trace)
    ensures var w := ws[k];
      && w.written <= |w.trace|
      && 1 <= LiveStart(w.trace[..w.written]) <= w.client.delivered <= |w.history| + 1
      && Payload(w.trace[..w.written])
         == Joined(Stored(w.history, w.capacity), LiveStart(w.trace[..w.written]), w.client.delivered - 1)
  {
    GaplessRun(ws, steps, k);
    WrittenIsTheStream(Stored(ws[k].history, ws[k].capacity), ws[k].trace, ws[k].written);
  }

  lemma {:induction false} WrittenIsTheStream(cs: seq<Chunk>, trace: seq<Queued>, n: nat)
    requires CarriesAll(cs, trace) && NoGap(trace) && n <= |trace|
    ensures 1 <= LiveStart(trace[..n]) <= Wanted(trace, n) <= |cs| + 1
    ensures Payload(trace[..n]) == Joined(cs, LiveStart(trace[..n]), Wanted(trace, n) - 1)
  {
    WrittenPart(cs, trace, n);
    PayloadIsTheStream(cs, trace[..n]);
  }

  lemma {:induction false} WrittenPart(cs: seq<Chunk>, trace: seq<Queued>, n: nat)
    requires CarriesAll(cs, trace) && NoGap(trace) && n <= |trace|
    ensures CarriesAll(cs, trace[..n]) && NoGap(trace[..n]) && Wanted(trace[..n], n) == Wanted(trace, n)
  {
    forall i | 0 <= i < n ensures CarriesAt(cs, trace[..n], i) { assert CarriesAt(cs, trace, i); }
    forall i | 0 <= i < n && trace[i].frame.Output? ensures trace[i].frame.slice.first == Wanted(trace[..n], i) {
      assert trace[i].frame.slice.first == Wanted(trace, i);
    }
  }

  lemma {:induction false} LastChunkShows(cs: seq<Chunk>, lo: nat)
    requires 1 <= lo <= |cs| && cs[|cs| - 1].data != ""
    ensures Joined(cs, lo, |cs|) != ""
  {
    var tail := cs[lo - 1..|cs|];
    assert tail == tail[..|tail| - 1] + [cs[|cs| - 1]];
    FlatSnoc(tail[..|tail| - 1], cs[|cs| - 1]);
  }

  /** A client that wants an existing chunk has output pending. */
  lemma {:induction false} PendingShows(w: World)
    requires Inv(w) && w.capacity > 0
    ensures PendingOutput(w).data == "" <==> w.client.reserved == |w.history| + 1
    ensures PendingOutput(w).data != "" ==> PendingOutput(w).last == |w.history|
  {
    WantedBounds(w);
    SliceFromHistory(w.history, w.capacity, w.client.reserved);
    if w.client.reserved <= |w.history| {
      LastChunkShows(Stored(w.history, w.capacity), PendingOutput(w).first);
    }
  }

  lemma {:induction false} ReservedNeverDecreases(ws: seq<World>, steps: seq<Step>, i: nat, j: nat)
    requires IsRun(ws, steps) && i <= j < |ws|
    ensures ws[i].client.reserved <= ws[j].client.reserved
  {
    var counts := seq(|ws|, k requires 0 <= k < |ws| => ws[k].client.reserved);
    forall k | 0 < k < |ws| ensures counts[k - 1] <= counts[k] { StepOfRunReserves(ws, steps, k - 1); }
    Ascends(counts, i, j);
  }

  lemma {:induction false} Ascends(counts: seq<nat>, i: nat, j: nat)
    requires i <= j < |counts| && forall k :: 0 < k < |counts| ==> counts[k - 1] <= counts[k]
    ensures counts[i] <= counts[j]
    decreases j
  {
    if i == j {
    } else {
      Ascends(counts, i, j - 1);
      assert counts[j - 1] <= counts[j];
    }
  }

  lemma {:induction false} StepOfRunReserves(ws: seq<World>, steps: seq<Step>, j: nat)
    requires IsRun(ws, steps) && j + 1 < |ws|
    ensures ws[j].client.reserved <= ws[j + 1].client.reserved
  {
    assert Next(ws[j], steps[j], ws[j + 1]);
    StepReserves(ws[j], steps[j]);
  }

  lemma {:induction false} StepReserves(w: World, step: Step)
    requires Enabled(w, step)
    ensures w.client.reserved <= Apply(w, step).client.reserved
  {
    if step.Connect? {
      StatusesReserve(w.(client := w.client.(initialSent := true)), step.statuses);
    } else if step.Poll? {
      StatusesReserve(w, step.statuses);
    }
  }

  lemma {:induction false} StatusesReserve(w: World, count: nat)
    ensures w.client.reserved <= PushStatuses(w, count).client.reserved
    decreases count
  {
    if count == 0 {
    } else {
      StatusesReserve(Push(w, Status(w.client.reserved)), count - 1);
    }
  }

  /** Nothing is forgotten: after a poll everything produced so far has been queued, so whenever the queue
      is drained later the client has received at least all of it. */
  lemma {:induction false} PollCatchesUp(ws: seq<World>, steps: seq<Step>, k: nat, j: nat)
    requires IsRun(ws, steps) && k < |steps| && steps[k].Poll? && ws[k].capacity > 0 && k < j < |ws|
    ensures ws[k + 1].client.reserved == |ws[k + 1].history| + 1
    ensures ws[j].client.queue == [] ==> ws[j].client.delivered >= |ws[k + 1].history| + 1
  {
    PollReservesAll(ws, steps, k);
    ReservedNeverDecreases(ws, steps, k + 1, j);
    CountersInOrder(ws, steps, j);
  }

  lemma {:induction false} PollReservesAll(ws: seq<World>, steps: seq<Step>, k: nat)
    requires IsRun(ws, steps) && k < |steps| && steps[k].Poll? && ws[k].capacity > 0
    ensures ws[k + 1].client.reserved == |ws[k + 1].history| + 1
  {
    var w, n := ws[k], steps[k].statuses;
    assert Next(ws[k], steps[k], ws[k + 1]);
    RunInv(ws, steps, k);
    RunInv(ws, steps, k + 1);
    WantedBounds(ws[k + 1]);
    PushStatusesInv(w, n);
    PushStatusesClient(w, n);
    PendingShows(PushStatuses(w, n));
  }

  // ----- the initial tail joins the live output -----

  /** The data of the initial tail, if one was queued. */
  function InitialData(trace: seq<Queued>): string {
    if trace == [] then ""
    else
      var last := trace[|trace| - 1].frame;
      if last.Initial? then last.slice.data else InitialData(trace[..|trace| - 1])
  }

  lemma {:induction false} StoredPrefix(history: seq<string>, capacity: nat, p: nat)
    requires p <= |history|
    ensures Joined(Stored(history, capacity), 1, p) == Flat(Stored(history[..p], capacity))
  {
    assert Stored(history, capacity)[0..p] == Stored(history[..p], capacity);
  }

  lemma {:induction false} RetainedEnds(h: seq<string>, capacity: nat)
    ensures IsSuffix(Flat(Retained(h, capacity)), Flat(Stored(h, capacity)))
  {
    RetainedIsStoredSuffix(h, capacity);
    var all, k := Stored(h, capacity), |h| - |Retained(h, capacity)|;
    FlatSplit(all, k);
    SuffixTrans(Flat(all[k..]), Flat(all[..k]), Flat(all[k..]));
  }

  lemma {:induction false} LastBytesOf(a: string, n: nat, all: string)
    requires IsSuffix(a, all)
    ensures IsSuffix(LastBytes(a, n), all)
  {
    var k := Min(n, |a|);
    assert all[|all| - k..] == all[|all| - |a|..][|a| - k..];
  }

  lemma {:induction false} TailData(r: seq<Chunk>, n: nat, s: Slice, all: string)
    requires IsTail(r, n, s) && IsSuffix(Flat(r), all)
    ensures IsSuffix(s.data, all)
  {
    if r == [] || n == 0 {
    } else {
      LastBytesOf(Flat(r), n, all);
    }
  }

  lemma {:induction false} TailLast(h: seq<string>, capacity: nat, n: nat, s: Slice)
    requires IsTail(Retained(h, capacity), n, s)
    ensures s == EMPTY_SLICE || s.last == |h|
  {
    RetainedShape(h, capacity);
  }

  /** A tail of the buffer at an earlier time is the end of all stored output up to that time. */
  lemma {:induction false} TailIsSuffix(history: seq<string>, capacity: nat, p: nat, n: nat, s: Slice)
    requires p <= |history| && IsTail(Retained(history[..p], capacity), n, s)
    ensures s.last <= |history| && IsSuffix(s.data, Joined(Stored(history, capacity), 1, s.last))
  {
    var h := history[..p];
    TailLast(h, capacity, n, s);
    if s == EMPTY_SLICE {
    } else {
      RetainedEnds(h, capacity);
      TailData(Retained(h, capacity), n, s, Flat(Stored(h, capacity)));
      StoredPrefix(history, capacity, p);
    }
  }

  lemma {:induction false} InitialIsSuffix(capacity: nat, history: seq<string>, trace: seq<Queued>)
    requires CarriesAll(Stored(history, capacity), trace) && SourcedAll(capacity, history, trace)
    ensures 1 <= LiveStart(trace) <= |history| + 1
    ensures IsSuffix(InitialData(trace), Joined(Stored(history, capacity), 1, LiveStart(trace) - 1))
  {
    var cs := Stored(history, capacity);
    if trace == [] {
    } else {
      var n := |trace| - 1;
      assert CarriesAt(cs, trace, n) && SourcedAt(capacity, history, trace, n);
      if trace[n].frame.Initial? {
        TailIsSuffix(history, capacity, trace[n].produced, INITIAL_TAIL_BYTES, trace[n].frame.slice);
      } else {
        forall i | 0 <= i < n ensures CarriesAt(cs, trace[..n], i) { assert CarriesAt(cs, trace, i); }
        forall i | 0 <= i < n ensures SourcedAt(capacity, history, trace[..n], i) {
          assert SourcedAt(capacity, history, trace, i);
        }
        InitialIsSuffix(capacity, history, trace[..n]);
      }
    }
  }

  lemma {:induction false} SuffixJoins(a: string, b: string, front: string)
    requires IsSuffix(a, front)
    ensures IsSuffix(a + b, front + b)
  {}

  /** What a client is sent from the beginning, initial tail and live output together, is the end of all
      stored output up to `reserved`. */
  lemma {:induction false} SentIsTheEndOfTheStream(ws: seq<World>, steps: seq<Step>, k: nat)
    requires IsRun(ws, steps) && k < |ws| && WantedWereKept(ws[k].trace)
    ensures var w := ws[k];
      && 1 <= w.client.reserved <= |w.history| + 1
      && IsSuffix(InitialData(w.trace) + Payload(w.trace),
                  Joined(Stored(w.history, w.capacity), 1, w.client.reserved - 1))
  {
    var w := ws[k];
    var cs, start := Stored(w.history, w.capacity), LiveStart(w.trace);
    RunInv(ws, steps, k);
    ExactlyOnce(ws, steps, k);
    InitialIsSuffix(w.capacity, w.history, w.trace);
    JoinedExtends(cs, 1, start, w.client.reserved - 1);
    SuffixJoins(InitialData(w.trace), Payload(w.trace), Joined(cs, 1, start - 1));
  }

  // ----- nothing gets stuck -----

  predicate Busy(c: Client) { c.writing <==> c.queue != [] }

  lemma {:induction false} StatusesBusy(c: Client, count: nat)
    requires Busy(c)
    ensures Busy(QueueStatuses(c, count))
    decreases count
  {
    if count == 0 {
    } else {
      StatusesBusy(QueueFrame(c, Status(c.reserved)), count - 1);
    }
  }

  lemma {:induction false} StepBusy(w: World, step: Step)
    requires Enabled(w, step) && Busy(w.client)
    ensures Busy(Apply(w, step).client)
  {
    StepsAreTheSocketOperations(w, step);
    match step
    case Connect(n, _) => StatusesBusy(w.client.(initialSent := true), n);
    case Poll(n) => StatusesBusy(w.client, n);
    case Notice => StatusesBusy(w.client, 1);
    case _ =>
  }

  lemma {:induction false} StepOfRunBusy(ws: seq<World>, steps: seq<Step>, k: nat)
    requires IsRun(ws, steps) && k < |steps| && Busy(ws[k].client)
    ensures Busy(ws[k + 1].client)
  {
    assert Next(ws[k], steps[k], ws[k + 1]);
    StepBusy(ws[k], steps[k]);
  }

  /** In every state of every run a write is under way exactly while frames are queued, so as long as no
      write has failed the next completion can happen. */
  lemma {:induction false} WritingWhileQueued(ws: seq<World>, steps: seq<Step>, k: nat)
    requires IsRun(ws, steps) && k < |ws|
    ensures ws[k].client.writing <==> ws[k].client.queue != []
    ensures ws[k].client.queue != [] && !ws[k].failed ==> Enabled(ws[k], WriteOk)
    decreases k
  {
    if k == 0 {
    } else {
      WritingWhileQueued(ws, steps, k - 1);
      StepOfRunBusy(ws, steps, k - 1);
    }
  }

  /** The world after `n` more completed writes. */
  function Written(w: World, n: nat): World
    requires n <= |w.client.queue| && Busy(w.client) && !w.failed
    ensures Busy(Written(w, n).client) && !Written(w, n).failed && |Written(w, n).client.queue| == |w.client.queue| - n
  {
    if n == 0 then w else Apply(Written(w, n - 1), WriteOk)
  }

  lemma {:induction false} WrittenInv(w: World, n: nat)
    requires Inv(w) && n <= |w.client.queue| && Busy(w.client) && !w.failed
    ensures Inv(Written(w, n)) && Written(w, n).client.reserved == w.client.reserved
    ensures Written(w, n).history == w.history && Written(w, n).trace == w.trace
  {
    if n == 0 {
    } else {
      WrittenInv(w, n - 1);
      var before := Written(w, n - 1);
      WriteInv(before);
      WantedGrows(Stored(before.history, before.capacity), before.trace, before.written + 1, |before.trace|);
    }
  }

  /** From every state of every run without a failed write, as many write completions as there are queued
      frames drain the queue, and then everything reserved has been delivered. */
  lemma {:induction false} QueueDrains(ws: seq<World>, steps: seq<Step>, k: nat, n: nat)
    requires IsRun(ws, steps) && k < |ws| && !ws[k].failed && n <= |ws[k].client.queue|
    ensures Busy(ws[k].client)
    ensures n < |ws[k].client.queue| ==>
              Enabled(Written(ws[k], n), WriteOk) && Written(ws[k], n + 1) == Apply(Written(ws[k], n), WriteOk)
    ensures var w, drained := ws[k], Written(ws[k], |ws[k].client.queue|);
      && drained.client.queue == [] && drained.client.reserved == w.client.reserved
      && drained.client.delivered == w.client.reserved && drained.trace == w.trace
  {
    WritingWhileQueued(ws, steps, k);
    RunInv(ws, steps, k);
    WrittenInv(ws[k], |ws[k].client.queue|);
    WantedBounds(Written(ws[k], |ws[k].client.queue|));
  }

  /** Connecting queues the tail of the buffer, unless it is empty and the client reads raw output. */
  lemma {:induction false} ConnectSendsTheTail(w: World, statuses: nat, tail: Slice)
    requires !w.client.initialSent
    ensures var w' := Apply(w, Connect(statuses, tail));
      (w.client.raw && tail.data == "") ||
      (&& w'.trace != [] && w'.trace[|w'.trace| - 1].frame.Initial? && w'.trace[|w'.trace| - 1].frame.slice == tail
       && w'.client.queue != [] && w'.client.queue[|w'.client.queue| - 1] == w'.trace[|w'.trace| - 1].frame)
  {
    var w0 := w.(client := w.client.(initialSent := true));
    PushStatusesClient(w0, statuses);
    QueueStatusesKeeps(w0.client, statuses);
  }
}
