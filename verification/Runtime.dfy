/** The runtime of one session: its process, its output and its record, kept in step. */
module Runtime {
  import opened Common
  import opened Lifecycle
  import opened OutputBuffer

  const RECENT_TAIL_BYTES: nat := 64 * 1024

  /** What one read of the terminal returns. */
  datatype ReadResult = ReadResult(data: string, closed: bool)

  /** The history of output after one poll: reads follow one another until one is empty or the terminal
      is closed. */
  function Polled(history: seq<string>, script: seq<ReadResult>): seq<string>
    decreases |script|
  {
    if script == [] || script[0].data == "" then history
    else if script[0].closed then history + [script[0].data]
    else Polled(history + [script[0].data], script[1..])
  }

  /** Nothing recorded is lost; what is added are the leading reads, in order, all of them non-empty; and
      reading stops only at the end, before an empty read, or after the read that found the terminal
      closed. */
  lemma {:induction false} PolledExtends(history: seq<string>, script: seq<ReadResult>)
    ensures var r := Polled(history, script);
            && |history| <= |r| <= |history| + |script| && r[..|history|] == history
            && forall i :: |history| <= i < |r| ==> r[i] == script[i - |history|].data && r[i] != ""
    ensures var n := |Polled(history, script)| - |history|;
            && (n == |script| || script[n].data == "" || (n > 0 && script[n - 1].closed))
            && forall i :: 0 <= i < n - 1 ==> !script[i].closed
    decreases |script|
  {
    if script == [] || script[0].data == "" || script[0].closed {
    } else {
      var grown := history + [script[0].data];
      PolledExtends(grown, script[1..]);
      var r := Polled(history, script);
      assert r[..|history|] == r[..|grown|][..|history|];
      assert r[|history|] == r[..|grown|][|history|];
      assert forall i :: 0 < i < |script| ==> script[i] == script[1..][i - 1];
    }
  }

  class SessionRuntime {
    const lifecycle: SessionLifecycle
    const output: SessionOutputBuffer
    /** The record: status, latest sequence number and recent output. */
    var status: Status
    var currentSequence: nat
    var recentTail: string
    var pid: Option<int>
    var startError: Option<string>

    /** The recorded status is that of the life cycle, and there is a process exactly while the session
        is running or awaiting input. */
    ghost predicate Alive()
      reads this`status, this`pid, lifecycle
    {
      status == lifecycle.state && !status.Starting? && (pid.Some? <==> IsInteractive(status))
    }

    /** The recorded sequence number and tail are those of the output buffer. */
    ghost predicate InStep()
      reads this`currentSequence, this`recentTail, output
    {
      && output.Valid() && currentSequence + 1 == output.nextSequence
      && recentTail == LastBytes(Flat(output.chunks), RECENT_TAIL_BYTES)
    }

    ghost predicate Valid()
      reads this, lifecycle, output
    {
      Alive() && InStep()
    }

    constructor (capacity: nat)
      ensures Valid() && fresh(lifecycle) && fresh(output)
      ensures status == Created && output.history == [] && output.capacity == capacity
    {
      lifecycle := new SessionLifecycle();
      output := new SessionOutputBuffer(capacity);
      status, currentSequence, recentTail, pid, startError := Created, 0, "", None, None;
      new;
      RetainedShape([], capacity);
    }

    method TryTransition(next: Status) returns (ok: bool)
      requires status == lifecycle.state
      modifies this`status, lifecycle
      ensures status == lifecycle.state && ok == IsValidTransition(old(status), next)
      ensures status == if ok then next else old(status)
    {
      ok := lifecycle.TryTransition(next);
      if ok { status := lifecycle.state; }
    }

    /** `started` is the process, if it could be started, or the reason why not. */
    method Start(started: Option<int>, error: string) returns (ok: bool)
      requires Alive()
      modifies this`status, this`pid, this`startError, lifecycle
      ensures Alive()
      ensures ok == (old(status).Created? && started.Some?)
      ensures status == if !old(status).Created? then old(status) else if ok then Running else Error
      ensures pid == if ok then started else old(pid)
      ensures startError == if !old(status).Created? then old(startError)
                            else if !ok && error != "" then Some(error) else None
    {
      ok := TryTransition(Starting);
      if !ok { return; }
      startError := None;
      if started.None? {
        if error != "" { startError := Some(error); }
        ok := TryTransition(Error);
        return false;
      }
      pid := started;
      ok := TryTransition(Running);
    }

    method MarkAwaitingInput() returns (ok: bool)
      requires Alive()
      modifies this`status, this`pid, lifecycle
      ensures Alive() && ok == old(status).Running? && pid == old(pid)
      ensures status == if ok then AwaitingInput else old(status)
    {
      ok := TryTransition(AwaitingInput);
    }

    method MarkRunning() returns (ok: bool)
      requires Alive()
      modifies this`status, this`pid, lifecycle
      ensures Alive() && ok == old(status).AwaitingInput? && pid == old(pid)
      ensures status == if ok then Running else old(status)
    {
      ok := TryTransition(Running);
    }

    method HandleExit(clean: bool) returns (ok: bool)
      requires Alive()
      modifies this`status, this`pid, lifecycle
      ensures Alive() && ok == IsInteractive(old(status))
      ensures status == if ok then if clean then Exited else Error else old(status)
      ensures pid == if ok then None else old(pid)
    {
      ok := TryTransition(if clean then Exited else Error);
      if !ok { return; }
      pid := None;
    }

    method TerminateAndMarkExited(terminated: bool) returns (ok: bool)
      requires Alive()
      modifies this`status, this`pid, lifecycle
      ensures Alive() && ok == (IsInteractive(old(status)) && terminated)
      ensures status == if ok then Exited else old(status)
      ensures pid == if ok then None else old(pid)
    {
      if pid.None? || !terminated { return false; }
      pid := None;
      ok := TryTransition(Exited);
    }

    method Shutdown(terminated: bool) returns (ok: bool)
      requires Alive()
      modifies this`status, this`pid, lifecycle
      ensures Alive() && ok == (IsInteractive(old(status)) ==> terminated)
      ensures status == if IsInteractive(old(status)) && terminated then Exited else old(status)
      ensures pid == if ok then None else old(pid)
    {
      var before := status;
      if before == Exited || before == Error {
        pid := None;
        return true;
      }
      if pid.Some? {
        if !terminated { return false; }
        pid := None;
      }
      if before == Running || before == AwaitingInput {
        ok := TryTransition(Exited);
        return;
      }
      ok := before == Created;
    }

    method RecordOutput(data: string)
      requires output.Valid() && data != ""
      modifies this`currentSequence, this`recentTail, output
      ensures InStep() && output.history == old(output.history) + [data]
    {
      output.Append(data);
      currentSequence := output.nextSequence - 1;
      var tail := output.Tail(RECENT_TAIL_BYTES);
      recentTail := tail.data;
    }

    /** `script` is what the terminal returns, `exit` the exit code it reports afterwards. */
    method PollOnce(script: seq<ReadResult>, exit: Option<int>)
      requires Valid()
      modifies this, lifecycle, output
      ensures Valid()
      ensures old(pid).None? ==> status == old(status) && output.history == old(output.history)
      ensures old(pid).Some? ==> output.history == Polled(old(output.history), script)
      ensures old(pid).Some? ==> status == if exit.None? then old(status) else if exit.value == 0 then Exited else Error
      ensures pid == if exit.Some? then None else old(pid)
    {
      if pid.None? { return; }
      ReadAll(script);
      if exit.Some? { var _ := HandleExit(exit.value == 0); }
    }

    method ReadAll(script: seq<ReadResult>)
      requires InStep()
      modifies this`currentSequence, this`recentTail, output
      ensures InStep() && output.history == Polled(old(output.history), script)
    {
      var rest := script;
      while rest != []
        invariant InStep() && Polled(output.history, rest) == Polled(old(output.history), script)
        decreases |rest|
      {
        var read := rest[0];
        if read.data != "" { RecordOutput(read.data); }
        if read.closed || read.data == "" { return; }
        rest := rest[1..];
      }
    }
  }
}
