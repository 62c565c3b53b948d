/**
 The notification primitive both channels wait on, for a single waiting task.

 `notify_one` wakes a waiting task or leaves one permit; `notify_waiters` wakes a waiting task
 and every future already created, but leaves no permit.
 */
module Notify {

  /** The future of the one receiver. `Fresh` remembers the number of broadcasts at its creation. */
  datatype Future =
    | Absent
    | Fresh(epoch: nat)
    | Waiting
    | WokenByOne
    | WokenByAll

  datatype State = State(permit: bool, epoch: nat, future: Future)

  const INITIAL: State := State(false, 0, Absent)

  /** `notified()`. */
  function Create(n: State): State {
    n.(future := Fresh(n.epoch))
  }

  function NotifyOne(n: State): State {
    if n.future.Waiting? then n.(future := WokenByOne) else n.(permit := true)
  }

  function NotifyWaiters(n: State): State {
    n.(epoch := n.epoch + 1, future := if n.future.Waiting? then WokenByAll else n.future)
  }

  /** The next poll of the future completes. */
  predicate Ready(n: State) {
    match n.future
    case Fresh(e) => n.permit || e != n.epoch
    case WokenByOne => true
    case WokenByAll => true
    case _ => false
  }

  /** One poll: a completed future is gone, an incomplete one is registered. */
  function Poll(n: State): State {
    if !Ready(n) then (if n.future.Absent? then n else n.(future := Waiting))
    else if n.future.Fresh? && n.permit then n.(permit := false, future := Absent)
    else n.(future := Absent)
  }

  /** Dropping a future hands a single notification it had received on. */
  function Drop(n: State): State {
    if n.future.WokenByOne? then n.(permit := true, future := Absent) else n.(future := Absent)
  }
}
