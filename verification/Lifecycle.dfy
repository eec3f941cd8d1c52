/** The guarded 16-state lifecycle of include/collective_scheduler/lifecycle.hpp. */
module Lifecycles {

  datatype Lifecycle =
    | Declared | Waiting | Ready | Eligible | Queued | Granted | Dispatching | Active | Draining
    | Completed | Cancelled | Failed | RevalidationRequired | Superseded | Stale | Retired

  /** Targets allowed from every state that is still in play. */
  predicate AlwaysAllowed(to: Lifecycle) {
    to.Superseded? || to.Stale? || to.Retired? || to.Failed?
  }

  predicate CanTransition(from: Lifecycle, to: Lifecycle) {
    match from
    case Declared =>
      to.Waiting? || to.Ready? || to.Cancelled? || to.RevalidationRequired? || AlwaysAllowed(to)
    case Waiting => to.Ready? || to.RevalidationRequired? || to.Cancelled? || AlwaysAllowed(to)
    case Ready =>
      to.Eligible? || to.Waiting? || to.RevalidationRequired? || to.Cancelled? || AlwaysAllowed(to)
    case Eligible => to.Queued? || to.Cancelled? || to.RevalidationRequired? || AlwaysAllowed(to)
    case Queued =>
      to.Granted? || to.Waiting? || to.Cancelled? || to.RevalidationRequired? || AlwaysAllowed(to)
    case Granted => to.Dispatching? || to.Cancelled? || to.RevalidationRequired? || AlwaysAllowed(to)
    case Dispatching => to.Active? || to.Cancelled? || to.RevalidationRequired? || AlwaysAllowed(to)
    case Active =>
      to.Completed? || to.Draining? || to.Cancelled? || to.RevalidationRequired? || AlwaysAllowed(to)
    case Draining => to.Completed? || to.Active? || AlwaysAllowed(to)
    case Completed => to.Retired?
    case Cancelled => to.Retired?
    case Failed => to.RevalidationRequired? || to.Retired?
    case RevalidationRequired => to.Ready? || to.Waiting? || to.Cancelled? || AlwaysAllowed(to)
    case Superseded => to.Retired?
    case Stale => to.Retired?
    case Retired => false
  }

  /** `is_terminal_state`: a finished record. FAILED is not among them. */
  predicate Terminal(l: Lifecycle) {
    l.Completed? || l.Cancelled? || l.Superseded? || l.Stale? || l.Retired?
  }

  /** States from which `promote_to_granted` reaches GRANTED instead of throwing. */
  predicate Promotable(l: Lifecycle) { l.Ready? || l.Eligible? || l.Queued? || l.Granted? }

  /** The states a record may be found in between two calls. */
  predicate AtRest(l: Lifecycle) {
    l.Declared? || l.Waiting? || l.Ready? || l.Granted? || l.Dispatching? || l.Active?
    || l.RevalidationRequired? || l.Completed? || l.Cancelled?
  }

  /** States a record is in before its current generation has been granted. */
  predicate Ungranted(l: Lifecycle) { l.Declared? || l.Waiting? || l.Ready? || l.Eligible? || l.Queued? }

  /** A grant has been issued and is not yet handed off or is being handed off. */
  predicate Pending(l: Lifecycle) { l.Granted? || l.Dispatching? }

  /** States in which the record holds authority it could lose to new evidence. */
  predicate Holding(l: Lifecycle) { l.Granted? || l.Dispatching? || l.Active? }

  /** States that new participant evidence or a fence sends to REVALIDATION_REQUIRED. */
  predicate Revocable(l: Lifecycle) { l.Ready? || l.Eligible? || l.Queued? || Holding(l) }

  /** How far a record of one generation has come. */
  function Rank(l: Lifecycle): nat {
    match l
    case Declared => 0
    case Waiting => 1
    case Ready => 2
    case Eligible => 3
    case Queued => 4
    case Granted => 5
    case Dispatching => 6
    case Active => 7
    case Draining => 8
    case Failed => 8
    case RevalidationRequired => 9
    case Completed => 10
    case Cancelled => 10
    case Superseded => 10
    case Stale => 10
    case Retired => 10
  }

  /** A cell holding a lifecycle; `Transition` is the only way to move it. */
  class LifecycleCell {
    var state: Lifecycle

    constructor (l: Lifecycle)
      ensures state == l
    {
      state := l;
    }

    /** Moves to `to`, or reports the illegal transition and stays put. */
    method Transition(to: Lifecycle) returns (ok: bool)
      modifies this
      ensures ok <==> CanTransition(old(state), to)
      ensures state == if ok then to else old(state)
    {
      ok := CanTransition(state, to);
      if ok { state := to; }
    }

    /** `promote_to_granted`: READY, ELIGIBLE, QUEUED, GRANTED, falling through. */
    method Promote() returns (ok: bool)
      modifies this
      ensures ok <==> Promotable(old(state))
      ensures state == if ok then Lifecycle.Granted else old(state)
    {
      if !Promotable(state) { return false; }
      if state.Ready? { ok := Transition(Lifecycle.Eligible); }
      if state.Eligible? { ok := Transition(Lifecycle.Queued); }
      if state.Queued? { ok := Transition(Lifecycle.Granted); }
      ok := true;
    }
  }
}
