/**
 The client's inbound queue, as interleaved steps.

 A full queue gives up its oldest snapshot, or its oldest message if no snapshot waits. Every
 notification is a broadcast, which leaves no permit behind.
 */
module Inbound {
  import opened Common
  import N = Notify

  /** A message from the daemon; `no` is its place in the order of sending. */
  datatype Message = Message(no: nat, snapshot: bool)

  datatype Queue = Queue(items: seq<Message>, capacity: nat, dropped: nat)

  /** Position of the first snapshot. */
  function FirstSnapshot(items: seq<Message>): (r: Option<nat>)
    ensures r.Some? ==> r.value < |items| && items[r.value].snapshot
    ensures r.Some? ==> forall i :: 0 <= i < r.value ==> !items[i].snapshot
    ensures r.None? ==> forall i :: 0 <= i < |items| ==> !items[i].snapshot
  {
    if items == [] then None
    else if items[0].snapshot then Some(0)
    else
      var r := FirstSnapshot(items[1..]);
      if r.Some? then Some(r.value + 1) else None
  }

  /** Position that is given up by a full queue. */
  function Victim(items: seq<Message>): (v: nat)
    ensures items != [] ==> v < |items|
  {
    var r := FirstSnapshot(items);
    if r.Some? then r.value else 0
  }

  /** What `send` does while it holds the lock; removing from an empty queue removes nothing but still counts. */
  function Pushed(q: Queue, m: Message): Queue {
    if |q.items| < q.capacity then q.(items := q.items + [m])
    else if q.items == [] then q.(items := [m], dropped := q.dropped + 1)
    else q.(items := RemoveAt(q.items, Victim(q.items)) + [m], dropped := q.dropped + 1)
  }

  class InboundQueue {
    var items: seq<Message>
    const capacity: nat
    var dropped: nat

    function View(): Queue
      reads this
    {
      Queue(items, capacity, dropped)
    }

    constructor (capacity: nat)
      ensures View() == Queue([], capacity, 0)
    {
      items, dropped := [], 0;
      this.capacity := capacity;
    }

    method Push(m: Message)
      modifies this
      ensures View() == Pushed(old(View()), m)
    {
      if |items| >= capacity {
        var victim := 0;
        var i := 0;
        while i < |items| && !items[i].snapshot
          invariant i <= |items| && View() == old(View())
          invariant forall k :: 0 <= k < i ==> !items[k].snapshot
        {
          i := i + 1;
        }
        FirstSnapshotIs(items, i);
        if i < |items| {
          victim := i;
        }
        if items != [] {
          items := RemoveAt(items, victim);
        }
        dropped := dropped + 1;
      }
      items := items + [m];
    }
  }

  lemma {:induction false} FirstSnapshotIs(items: seq<Message>, i: nat)
    requires i <= |items| && (forall k :: 0 <= k < i ==> !items[k].snapshot) && (i < |items| ==> items[i].snapshot)
    ensures FirstSnapshot(items) == if i < |items| then Some(i) else None
  {
  }

  // ------------------------------------------------ the protocol

  datatype Receiver = Outside | Created | FoundEmpty | Awaiting

  /** A message that was given up, and the queue it was given up from. */
  datatype Loss = Loss(message: Message, from: seq<Message>)

  /**
   `pending` are the senders that have changed the queue or closed it and still have to announce
   it. `sent`, `received` and `losses` record what happened.
   */
  datatype State = State(
    queue: Queue, closed: bool, notify: N.State, pending: set<nat>, receiver: Receiver,
    sent: seq<Message>, received: seq<Message>, losses: seq<Loss>)

  function Start(capacity: nat): State {
    State(Queue([], capacity, 0), false, N.INITIAL, {}, Outside, [], [], [])
  }

  datatype Action =
    | Push(i: nat, snapshot: bool)
    | Close(i: nat)
    | Announce(i: nat)
    | StartRecv
    | CheckQueue
    | CheckClosed
    | PollFuture
    | Abandon

  /** One step; an action that is not possible in the state changes nothing. */
  function Do(s: State, a: Action): State {
    match a
    case Push(i, snapshot) =>
      if i in s.pending || s.receiver.FoundEmpty? then s
      else
        var m, items := Message(|s.sent|, snapshot), s.queue.items;
        s.(queue := Pushed(s.queue, m), pending := s.pending + {i}, sent := s.sent + [m],
           losses := if |items| >= s.queue.capacity && items != []
               then s.losses + [Loss(items[Victim(items)], items)] else s.losses)
    case Close(i) =>
      if i in s.pending || s.receiver.FoundEmpty? then s
      else s.(closed := true, pending := s.pending + {i})
    case Announce(i) =>
      if i !in s.pending then s else s.(notify := N.NotifyWaiters(s.notify), pending := s.pending - {i})
    case StartRecv =>
      if !s.receiver.Outside? then s else s.(notify := N.Create(s.notify), receiver := Created)
    case CheckQueue =>
      if !s.receiver.Created? then s
      else if s.queue.items == [] then s.(receiver := FoundEmpty)
      else s.(queue := s.queue.(items := s.queue.items[1..]), notify := N.Drop(s.notify), receiver := Outside,
              received := s.received + [s.queue.items[0]])
    case CheckClosed =>
      if !s.receiver.FoundEmpty? then s
      else if s.closed then s.(notify := N.Drop(s.notify), receiver := Outside)
      else s.(receiver := Awaiting)
    case PollFuture =>
      if !s.receiver.Awaiting? then s
      else if N.Ready(s.notify) then s.(notify := N.Create(N.Poll(s.notify)), receiver := Created)
      else s.(notify := N.Poll(s.notify))
    case Abandon =>
      if s.receiver.Created? || s.receiver.Awaiting? then s.(notify := N.Drop(s.notify), receiver := Outside) else s
  }

  function Run(s: State, actions: seq<Action>): State {
    if actions == [] then s else Do(Run(s, actions[..|actions| - 1]), actions[|actions| - 1])
  }

  // ------------------------------------------------ no lost wake-up

  ghost predicate WakeUpSafe(s: State) {
    && (s.notify.future.Fresh? ==> s.notify.future.epoch <= s.notify.epoch)
    && (s.receiver.Outside? <==> s.notify.future.Absent?)
    && (s.receiver.Created? || s.receiver.FoundEmpty? ==> s.notify.future.Fresh?)
    && (s.receiver.FoundEmpty? ==> s.queue.items == [])
    && !s.notify.permit && !s.notify.future.WokenByOne?
    && (s.receiver.Awaiting? && !N.Ready(s.notify) && (s.queue.items != [] || s.closed) ==> s.pending != {})
  }

  lemma StepIsSafe(s: State, a: Action)
    requires WakeUpSafe(s)
    ensures WakeUpSafe(Do(s, a))
  {
    if (a.Push? || a.Close?) && Do(s, a) != s {
      assert a.i in Do(s, a).pending;
    }
  }

  /** Over all interleavings, a receiver that waits while there is something to see has an announcement under way. */
  lemma {:induction false} NoLostWakeUp(capacity: nat, actions: seq<Action>)
    ensures WakeUpSafe(Run(Start(capacity), actions))
  {
    if actions == [] {
    } else {
      NoLostWakeUp(capacity, actions[..|actions| - 1]);
      StepIsSafe(Run(Start(capacity), actions[..|actions| - 1]), actions[|actions| - 1]);
    }
  }

  /** Any outstanding announcement wakes the waiting receiver. */
  lemma AnnouncementWakes(s: State, i: nat)
    requires WakeUpSafe(s) && s.receiver.Awaiting? && i in s.pending
    ensures Do(s, Announce(i)).receiver.Awaiting? && N.Ready(Do(s, Announce(i)).notify)
  {
  }

  lemma {:induction false} SleepingReceiverMissesNothing(capacity: nat, actions: seq<Action>)
    requires var s := Run(Start(capacity), actions);
             s.pending == {} && s.receiver.Awaiting? && !N.Ready(s.notify)
    ensures var s := Run(Start(capacity), actions);
            s.queue.items == [] && !s.closed
  {
    NoLostWakeUp(capacity, actions);
  }

  // ------------------------------------------------ what is dropped, and what is delivered

  ghost predicate InOrder(ms: seq<Message>) {
    forall i, j :: 0 <= i < j < |ms| ==> ms[i].no < ms[j].no
  }

  ghost predicate FromSent(ms: seq<Message>, sent: seq<Message>) {
    forall i :: 0 <= i < |ms| ==> ms[i].no < |sent| && ms[i] == sent[ms[i].no]
  }

  /** The loss is the oldest snapshot of a full queue, or its oldest message if it holds no snapshot. */
  ghost predicate Justified(l: Loss, capacity: nat) {
    && |l.from| >= capacity && l.from != []
    && exists v :: 0 <= v < |l.from| && l.from[v] == l.message
                   && (forall i :: 0 <= i < v ==> !l.from[i].snapshot)
                   && (!l.message.snapshot ==> v == 0 && forall i :: 0 <= i < |l.from| ==> !l.from[i].snapshot)
  }

  ghost function Lost(losses: seq<Loss>): multiset<Message> {
    if losses == [] then multiset{} else Lost(losses[..|losses| - 1]) + multiset{losses[|losses| - 1].message}
  }

  /** Delivered and queued messages are, in order, a selection of those sent; every loss is justified and counted. */
  ghost predicate Selected(s: State, capacity: nat) {
    && s.queue.capacity == capacity && |s.queue.items| <= Max(1, capacity)
    && InOrder(s.received + s.queue.items) && FromSent(s.received + s.queue.items, s.sent)
    && (capacity > 0 ==> s.queue.dropped == |s.losses|)
    && (forall k :: 0 <= k < |s.losses| ==> Justified(s.losses[k], capacity))
  }

  /** Every message sent was delivered, waits in the queue or was given up, exactly once. */
  ghost predicate Partitioned(s: State) {
    multiset(s.sent) == multiset(s.received) + multiset(s.queue.items) + Lost(s.losses)
  }

  lemma RemovalKeepsOrder(ms: seq<Message>, v: nat, sent: seq<Message>)
    requires InOrder(ms) && FromSent(ms, sent) && v < |ms|
    ensures InOrder(RemoveAt(ms, v)) && FromSent(RemoveAt(ms, v), sent)
  {
  }

  lemma NextKeepsOrder(ms: seq<Message>, m: Message, sent: seq<Message>)
    requires InOrder(ms) && FromSent(ms, sent) && m.no == |sent|
    ensures InOrder(ms + [m]) && FromSent(ms + [m], sent + [m])
  {
  }

  lemma RemovedMessage(items: seq<Message>, v: nat)
    requires v < |items|
    ensures multiset(items) == multiset(RemoveAt(items, v)) + multiset{items[v]}
  {
    assert items == items[..v] + [items[v]] + items[v + 1..];
  }

  lemma {:induction false} LostAppend(losses: seq<Loss>, l: Loss)
    ensures Lost(losses + [l]) == Lost(losses) + multiset{l.message}
  {
    assert (losses + [l])[..|losses|] == losses;
  }

  lemma PushSelects(s: State, i: nat, snapshot: bool, capacity: nat)
    requires Selected(s, capacity)
    ensures Selected(Do(s, Push(i, snapshot)), capacity)
  {
    var t, m, items := Do(s, Push(i, snapshot)), Message(|s.sent|, snapshot), s.queue.items;
    if t != s {
      if |items| >= capacity && items != [] {
        EvictingPushSelects(s, t, m, capacity);
      } else {
        NextKeepsOrder(s.received + items, m, s.sent);
        assert t.received + t.queue.items == s.received + items + [m];
      }
    }
  }

  lemma EvictingPushSelects(s: State, t: State, m: Message, capacity: nat)
    requires Selected(s, capacity) && |s.queue.items| >= capacity && s.queue.items != [] && m.no == |s.sent|
    requires t.queue == Pushed(s.queue, m) && t.sent == s.sent + [m] && t.received == s.received
    requires t.losses == s.losses + [Loss(s.queue.items[Victim(s.queue.items)], s.queue.items)]
    ensures Selected(t, capacity)
  {
    var items, v := s.queue.items, Victim(s.queue.items);
    EvictionKeepsOrder(s.received, items, v, m, s.sent);
    assert t.received + t.queue.items == s.received + RemoveAt(items, v) + [m];
    VictimIsJustified(items, capacity);
    hide InOrder, FromSent, Justified, Victim;
  }

  lemma EvictionKeepsOrder(received: seq<Message>, items: seq<Message>, v: nat, m: Message, sent: seq<Message>)
    requires InOrder(received + items) && FromSent(received + items, sent) && v < |items| && m.no == |sent|
    ensures InOrder(received + RemoveAt(items, v) + [m]) && FromSent(received + RemoveAt(items, v) + [m], sent + [m])
  {
    hide InOrder, FromSent;
    var all := received + items;
    RemovalKeepsOrder(all, |received| + v, sent);
    assert RemoveAt(all, |received| + v) == received + RemoveAt(items, v);
    NextKeepsOrder(received + RemoveAt(items, v), m, sent);
  }

  lemma VictimIsJustified(items: seq<Message>, capacity: nat)
    requires items != [] && |items| >= capacity && |items| <= Max(1, capacity)
    ensures Justified(Loss(items[Victim(items)], items), capacity)
  {
  }

  lemma PushPartitions(s: State, i: nat, snapshot: bool)
    requires Partitioned(s)
    ensures Partitioned(Do(s, Push(i, snapshot)))
  {
    hide Victim;
    var t, m, items := Do(s, Push(i, snapshot)), Message(|s.sent|, snapshot), s.queue.items;
    if t != s {
      AppendedMessage(s.sent, m);
      if |items| >= s.queue.capacity && items != [] {
        var v := Victim(items);
        RemovedMessage(items, v);
        AppendedMessage(RemoveAt(items, v), m);
        LostAppend(s.losses, Loss(items[v], items));
      } else {
        AppendedMessage(items, m);
      }
    }
  }

  lemma AppendedMessage(ms: seq<Message>, m: Message)
    ensures multiset(ms + [m]) == multiset(ms) + multiset{m}
  {
  }

  lemma CheckSelects(s: State, capacity: nat)
    requires Selected(s, capacity)
    ensures Selected(Do(s, CheckQueue), capacity)
  {
    var t := Do(s, CheckQueue);
    assert t.received + t.queue.items == s.received + s.queue.items;
  }

  lemma CheckPartitions(s: State)
    requires Partitioned(s)
    ensures Partitioned(Do(s, CheckQueue))
  {
    if s.queue.items != [] {
      RemovedMessage(s.queue.items, 0);
      assert RemoveAt(s.queue.items, 0) == s.queue.items[1..];
    }
  }

  lemma StepIsAccounted(s: State, a: Action, capacity: nat)
    requires Selected(s, capacity) && Partitioned(s)
    ensures Selected(Do(s, a), capacity) && Partitioned(Do(s, a))
  {
    if a.Push? {
      PushSelects(s, a.i, a.snapshot, capacity);
      PushPartitions(s, a.i, a.snapshot);
    } else if a.CheckQueue? {
      CheckSelects(s, capacity);
      CheckPartitions(s);
    } else {
      OtherStepsMoveNothing(s, a);
    }
  }

  lemma OtherStepsMoveNothing(s: State, a: Action)
    requires !a.Push? && !a.CheckQueue?
    ensures var t := Do(s, a);
            t.queue == s.queue && t.sent == s.sent && t.received == s.received && t.losses == s.losses
  {
  }

  lemma {:induction false} EveryMessageIsAccountedFor(capacity: nat, actions: seq<Action>)
    ensures Selected(Run(Start(capacity), actions), capacity)
    ensures Partitioned(Run(Start(capacity), actions))
  {
    if actions == [] {
    } else {
      EveryMessageIsAccountedFor(capacity, actions[..|actions| - 1]);
      StepIsAccounted(Run(Start(capacity), actions[..|actions| - 1]), actions[|actions| - 1], capacity);
    }
  }

  /** The drop counter is the number of losses, plus at least one if a queue without capacity was ever used. */
  ghost predicate DropsCounted(s: State, capacity: nat) {
    && s.queue.capacity == capacity && s.queue.dropped >= |s.losses|
    && (s.queue.dropped == |s.losses| <==> capacity > 0 || s.sent == [])
    && (s.sent == [] ==> s.queue.items == [])
  }

  lemma StepKeepsDropCount(s: State, a: Action, capacity: nat)
    requires DropsCounted(s, capacity)
    ensures DropsCounted(Do(s, a), capacity)
  {
    if a.Push? {
      hide Victim;
    } else if a.CheckQueue? {
      hide Victim;
    } else {
      OtherStepsMoveNothing(s, a);
    }
  }

  /**
   Over all runs and for every capacity, the drop counter equals the number of messages given up
   exactly if the queue has room for one message or nothing was ever sent.
   */
  lemma {:induction false} DropCounterIsExactWhen(capacity: nat, actions: seq<Action>)
    ensures var s := Run(Start(capacity), actions);
            s.queue.dropped == |s.losses| <==> capacity > 0 || s.sent == []
  {
    DropsStayCounted(capacity, actions);
  }

  lemma {:induction false} DropsStayCounted(capacity: nat, actions: seq<Action>)
    ensures DropsCounted(Run(Start(capacity), actions), capacity)
  {
    if actions == [] {
    } else {
      var n := |actions| - 1;
      DropsStayCounted(capacity, actions[..n]);
      StepKeepsDropCount(Run(Start(capacity), actions[..n]), actions[n], capacity);
    }
  }

  // ------------------------------------------------ what a receive brings back

  /** `n` receives, one after the other, each of which finds a message. */
  ghost function Receives(n: nat): seq<Action> {
    if n == 0 then [] else Receives(n - 1) + [StartRecv, CheckQueue]
  }

  lemma {:induction false} RunAppend(s: State, a: seq<Action>, b: seq<Action>)
    ensures Run(s, a + b) == Run(Run(s, a), b)
  {
    if b == [] {
      assert a + b == a;
    } else {
      var n := |b| - 1;
      assert (a + b)[..|a + b| - 1] == a + b[..n];
      RunAppend(s, a, b[..n]);
    }
  }

  lemma {:induction false} RunOfTwo(s: State, a: Action, b: Action)
    ensures Run(s, [a, b]) == Do(Do(s, a), b)
  {
    assert [a, b][..1] == [a] && [a][..0] == [];
    assert Run(s, []) == s;
    assert Run(s, [a]) == Do(s, a);
  }

  lemma {:induction false} RunOfThree(s: State, a: Action, b: Action, c: Action)
    ensures Run(s, [a, b, c]) == Do(Do(Do(s, a), b), c)
  {
    RunOfTwo(s, a, b);
    assert [a, b, c][..2] == [a, b];
  }

  /** Closed or not, receives bring back what is in the queue, oldest first. */
  lemma {:induction false} BufferedMessagesAreDelivered(s: State, n: nat)
    requires s.receiver.Outside? && n <= |s.queue.items|
    ensures var t := Run(s, Receives(n));
            && t.receiver.Outside? && t.closed == s.closed
            && t.received == s.received + s.queue.items[..n] && t.queue.items == s.queue.items[n..]
  {
    if n > 0 {
      BufferedMessagesAreDelivered(s, n - 1);
      RunAppend(s, Receives(n - 1), [StartRecv, CheckQueue]);
      RunOfTwo(Run(s, Receives(n - 1)), StartRecv, CheckQueue);
    }
  }

  /** A closed queue hands out all it holds, in order, and then ends. */
  lemma {:induction false} ClosedQueueIsDrained(s: State)
    requires s.receiver.Outside? && s.closed
    ensures var t := Run(s, Receives(|s.queue.items|) + [StartRecv, CheckQueue, CheckClosed]);
            t.receiver.Outside? && t.queue.items == [] && t.received == s.received + s.queue.items
  {
    var n := |s.queue.items|;
    BufferedMessagesAreDelivered(s, n);
    RunAppend(s, Receives(n), [StartRecv, CheckQueue, CheckClosed]);
    RunOfThree(Run(s, Receives(n)), StartRecv, CheckQueue, CheckClosed);
    assert s.queue.items[..n] == s.queue.items;
  }

  /**
   A receive that ends by itself brings back the oldest message, or ends a queue that is closed and
   empty at that moment.
   */
  lemma {:induction false} ReceiveEndsWithMessageOrForGood(capacity: nat, actions: seq<Action>, a: Action)
    requires var s := Run(Start(capacity), actions);
             !s.receiver.Outside? && Do(s, a).receiver.Outside? && !a.Abandon?
    ensures var s := Run(Start(capacity), actions); var t := Do(s, a); var items := s.queue.items;
            if t.received == s.received then s.closed && items == [] && t.queue.items == []
            else items != [] && t.received == s.received + [items[0]] && t.queue.items == items[1..]
  {
    NoLostWakeUp(capacity, actions);
  }

  /**
   A woken receive looks again: it takes a message if there is one, ends if the queue is closed, or goes
   on waiting.
   */
  lemma {:induction false} WokenReceiveLooksAgain(s: State)
    requires s.receiver.Awaiting? && N.Ready(s.notify)
    ensures var t := Run(s, [PollFuture, CheckQueue, CheckClosed]);
            && t.closed == s.closed
            && t.received == s.received + s.queue.items[..Min(1, |s.queue.items|)]
            && (t.receiver.Outside? <==> s.queue.items != [] || s.closed)
            && (!t.receiver.Outside? ==> t.receiver.Awaiting?)
  {
    RunOfThree(s, PollFuture, CheckQueue, CheckClosed);
  }

  /** Giving up a receive takes nothing from the queue. */
  lemma AbandonTakesNothing(s: State)
    requires s.receiver.Created? || s.receiver.Awaiting?
    ensures var t := Do(s, Abandon);
            t.receiver.Outside? && t.queue == s.queue && t.received == s.received && t.closed == s.closed
  {
  }

  /** A message sent is the newest of the queue, and a receiver that waits for it is woken. */
  lemma {:induction false} SentMessageArrives(s: State, i: nat, snapshot: bool)
    requires WakeUpSafe(s) && i !in s.pending && !s.receiver.FoundEmpty?
    ensures var t := Run(s, [Push(i, snapshot), Announce(i)]);
            && t.sent == s.sent + [Message(|s.sent|, snapshot)] && i !in t.pending
            && t.queue.items != [] && t.queue.items[|t.queue.items| - 1] == t.sent[|s.sent|]
            && (t.receiver.Awaiting? ==> N.Ready(t.notify))
  {
    RunOfTwo(s, Push(i, snapshot), Announce(i));
  }

  /** Closing closes for good, and wakes a receiver that waits. */
  lemma {:induction false} ClosingIsFinal(s: State, i: nat, more: seq<Action>)
    requires WakeUpSafe(s) && i !in s.pending && !s.receiver.FoundEmpty?
    ensures var t := Run(s, [Close(i), Announce(i)]);
            t.closed && i !in t.pending && (t.receiver.Awaiting? ==> N.Ready(t.notify)) && Run(t, more).closed
  {
    RunOfTwo(s, Close(i), Announce(i));
    StaysClosed(Run(s, [Close(i), Announce(i)]), more);
  }

  lemma {:induction false} StaysClosed(s: State, more: seq<Action>)
    requires s.closed
    ensures Run(s, more).closed
  {
    if more == [] {
    } else {
      StaysClosed(s, more[..|more| - 1]);
    }
  }

  /** The queue is open until somebody closes it. */
  lemma {:induction false} OpenUntilClosed(capacity: nat, actions: seq<Action>)
    requires forall k :: 0 <= k < |actions| ==> !actions[k].Close?
    ensures !Run(Start(capacity), actions).closed
  {
    if actions == [] {
    } else {
      OpenUntilClosed(capacity, actions[..|actions| - 1]);
    }
  }
}
