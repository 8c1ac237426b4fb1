/** The life cycle of a session. */
module Lifecycle {

  datatype Status = Created | Starting | Running | AwaitingInput | Exited | Error

  predicate IsTerminal(s: Status) { s.Exited? || s.Error? }

  predicate IsInteractive(s: Status) { s.Running? || s.AwaitingInput? }

  predicate IsValidTransition(from: Status, to: Status) {
    match from
    case Created => to.Starting?
    case Starting => to.Running? || to.Error?
    case Running => to.AwaitingInput? || to.Exited? || to.Error?
    case AwaitingInput => to.Running? || to.Exited? || to.Error?
    case Exited => false
    case Error => false
  }

  class SessionLifecycle {
    var state: Status

    constructor ()
      ensures state == Created
    {
      state := Created;
    }

    method TryTransition(next: Status) returns (ok: bool)
      modifies this
      ensures ok == IsValidTransition(old(state), next)
      ensures state == if ok then next else old(state)
    {
      if !IsValidTransition(state, next) { return false; }
      state := next;
      return true;
    }
  }
}
