/**
 The bounded ring channel between ingestion and pipeline, as interleaved steps.

 Sending never blocks: a full ring gives up its oldest item. Several senders, their clones and
 drops, explicit closing, the receiving loop and its abandonment interleave at the points where
 the code gives up the lock or awaits.
 */
module RingChannel {
  import opened Common
  import N = Notify

  // ------------------------------------------------ critical sections

  datatype Ring<T> = Ring(queue: seq<T>, capacity: nat, dropped: nat)

  /** What `send` does while it holds the lock. */
  function Pushed<T>(r: Ring<T>, v: T): Ring<T> {
    if |r.queue| >= r.capacity && r.queue != [] then Ring(r.queue[1..] + [v], r.capacity, r.dropped + 1)
    else r.(queue := r.queue + [v])
  }

  class RingQueue<T> {
    var queue: seq<T>
    const capacity: nat
    var dropped: nat

    function View(): Ring<T>
      reads this
    {
      Ring(queue, capacity, dropped)
    }

    constructor (capacity: nat)
      requires capacity > 0
      ensures View() == Ring([], capacity, 0)
    {
      queue, dropped := [], 0;
      this.capacity := capacity;
    }

    method Push(v: T)
      requires capacity > 0
      modifies this
      ensures View() == Pushed(old(View()), v)
    {
      if |queue| >= capacity {
        queue := queue[1..];
        dropped := dropped + 1;
      }
      queue := queue + [v];
    }

    method Pop() returns (r: Option<T>)
      modifies `queue
      ensures r == if old(queue) == [] then None else Some(old(queue)[0])
      ensures queue == if old(queue) == [] then [] else old(queue)[1..]
    {
      if queue == [] {
        return None;
      }
      r := Some(queue[0]);
      queue := queue[1..];
    }
  }

  // ------------------------------------------------ the protocol

  /** Where a sender handle is. */
  datatype Sender =
    | Idle
    | MustNotify              // item pushed, lock released, `notify_one` outstanding
    | MustAnnounce            // `close()`: flag stored, `notify_waiters` outstanding
    | LastDropped             // dropped as the last handle, flag not yet stored
    | MustAnnounceDrop        // flag stored, `notify_waiters` outstanding
    | Gone

  /** Where the receiver is. */
  datatype Receiver =
    | Outside                 // not in `recv`
    | Created                 // future created, lock not yet taken
    | FoundEmpty              // holds the lock and has seen an empty queue
    | Awaiting                // lock released, awaits the future

  datatype Fate = Delivered | Dropped

  /** `sent`, `fates` and `received` record what happened; the code does not keep them. */
  datatype State<T> = State(
    ring: Ring<T>, closed: bool, handles: nat, notify: N.State,
    senders: map<nat, Sender>, receiver: Receiver,
    sent: seq<T>, fates: seq<Fate>, received: seq<T>)

  function Start<T>(capacity: nat): State<T> {
    State(Ring([], capacity, 0), false, 1, N.INITIAL, map[0 := Idle], Outside, [], [], [])
  }

  datatype Action<T> =
    | Push(i: nat, v: T)
    | NotifyPushed(i: nat)
    | Close(i: nat)
    | AnnounceClose(i: nat)
    | Clone(i: nat, j: nat)
    | DropHandle(i: nat)
    | StoreClosedOnDrop(i: nat)
    | AnnounceDrop(i: nat)
    | StartRecv
    | CheckQueue
    | CheckClosed
    | PollFuture
    | Abandon

  predicate At<T>(s: State<T>, i: nat, pc: Sender) {
    i in s.senders && s.senders[i] == pc
  }

  /** One step; an action that is not possible in the state changes nothing. */
  function Do<T>(s: State<T>, a: Action<T>): State<T> {
    match a
    case Push(i, v) =>
      if !At(s, i, Idle) || s.receiver.FoundEmpty? then s
      else s.(ring := Pushed(s.ring, v), senders := s.senders[i := MustNotify], sent := s.sent + [v],
              fates := if |s.ring.queue| >= s.ring.capacity && s.ring.queue != [] then s.fates + [Dropped] else s.fates)
    case NotifyPushed(i) =>
      if !At(s, i, MustNotify) then s
      else s.(notify := N.NotifyOne(s.notify), senders := s.senders[i := Idle])
    case Close(i) =>
      if !At(s, i, Idle) then s else s.(closed := true, senders := s.senders[i := MustAnnounce])
    case AnnounceClose(i) =>
      if !At(s, i, MustAnnounce) then s
      else s.(notify := N.NotifyWaiters(s.notify), senders := s.senders[i := Idle])
    case Clone(i, j) =>
      if !At(s, i, Idle) || j in s.senders then s
      else s.(handles := s.handles + 1, senders := s.senders[j := Idle])
    case DropHandle(i) =>
      if !At(s, i, Idle) || s.handles == 0 then s
      else s.(handles := s.handles - 1, senders := s.senders[i := if s.handles == 1 then LastDropped else Gone])
    case StoreClosedOnDrop(i) =>
      if !At(s, i, LastDropped) then s else s.(closed := true, senders := s.senders[i := MustAnnounceDrop])
    case AnnounceDrop(i) =>
      if !At(s, i, MustAnnounceDrop) then s
      else s.(notify := N.NotifyWaiters(s.notify), senders := s.senders[i := Gone])
    case StartRecv =>
      if !s.receiver.Outside? then s else s.(notify := N.Create(s.notify), receiver := Created)
    case CheckQueue =>
      if !s.receiver.Created? then s
      else if s.ring.queue == [] then s.(receiver := FoundEmpty)
      else s.(ring := s.ring.(queue := s.ring.queue[1..]), notify := N.Drop(s.notify), receiver := Outside,
              fates := s.fates + [Delivered], received := s.received + [s.ring.queue[0]])
    case CheckClosed =>
      if !s.receiver.FoundEmpty? then s
      else if s.closed then s.(notify := N.Drop(s.notify), receiver := Outside)
      else s.(receiver := Awaiting)
    case PollFuture =>
      if !s.receiver.Awaiting? then s
      else if N.Ready(s.notify) then s.(notify := N.Create(N.Poll(s.notify)), receiver := Created)
      else s.(notify := N.Poll(s.notify))
    case Abandon =>
      if s.receiver.Created? || s.receiver.Awaiting? then s.(notify := N.Drop(s.notify), receiver := Outside) else s
  }

  function Run<T>(s: State<T>, actions: seq<Action<T>>): State<T> {
    if actions == [] then s else Do(Run(s, actions[..|actions| - 1]), actions[|actions| - 1])
  }

  // ------------------------------------------------ no lost wake-up

  ghost predicate Pending<T>(s: State<T>, pc: Sender) {
    exists i :: At(s, i, pc)
  }

  ghost predicate AnnouncementPending<T>(s: State<T>) {
    Pending(s, MustAnnounce) || Pending(s, MustAnnounceDrop)
  }

  /** The receiver will learn of an item, or of the end, that arrived after it looked. */
  ghost predicate WakeUpSafe<T>(s: State<T>) {
    && (s.notify.future.Fresh? ==> s.notify.future.epoch <= s.notify.epoch)
    && (s.receiver.Outside? <==> s.notify.future.Absent?)
    && (s.receiver.Created? || s.receiver.FoundEmpty? ==> s.notify.future.Fresh?)
    && (s.receiver.FoundEmpty? ==> s.ring.queue == [])
    && (s.receiver.Awaiting? && !N.Ready(s.notify) && s.ring.queue != [] ==> Pending(s, MustNotify))
    && (s.receiver.Awaiting? && !N.Ready(s.notify) && s.closed ==> AnnouncementPending(s))
  }

  lemma SenderStepIsSafe<T>(s: State<T>, a: Action<T>)
    requires WakeUpSafe(s)
    requires a.Push? || a.NotifyPushed? || a.Close? || a.AnnounceClose?
    ensures WakeUpSafe(Do(s, a))
  {
    var t := Do(s, a);
    if t != s {
      assert At(t, a.i, t.senders[a.i]);
      assert forall k, pc :: k != a.i ==> (At(t, k, pc) <==> At(s, k, pc));
    }
  }

  lemma HandleStepIsSafe<T>(s: State<T>, a: Action<T>)
    requires WakeUpSafe(s)
    requires a.Clone? || a.DropHandle? || a.StoreClosedOnDrop? || a.AnnounceDrop?
    ensures WakeUpSafe(Do(s, a))
  {
    var t := Do(s, a);
    if t != s {
      var i := if a.Clone? then a.j else a.i;
      assert At(t, i, t.senders[i]);
      assert forall k, pc :: k != i ==> (At(t, k, pc) <==> At(s, k, pc));
    }
  }

  lemma ReceiverStepIsSafe<T>(s: State<T>, a: Action<T>)
    requires WakeUpSafe(s)
    requires a.StartRecv? || a.CheckQueue? || a.CheckClosed? || a.PollFuture? || a.Abandon?
    ensures WakeUpSafe(Do(s, a))
  {
    var t := Do(s, a);
    assert forall k, pc :: At(t, k, pc) <==> At(s, k, pc);
  }

  /**
   Over all interleavings the receiver never waits for something that already happened without a
   notification under way.
   */
  lemma {:induction false} NoLostWakeUp<T>(capacity: nat, actions: seq<Action<T>>)
    ensures WakeUpSafe(Run(Start<T>(capacity), actions))
  {
    if actions == [] {
    } else {
      NoLostWakeUp(capacity, actions[..|actions| - 1]);
      var s, a := Run(Start<T>(capacity), actions[..|actions| - 1]), actions[|actions| - 1];
      if a.Push? || a.NotifyPushed? || a.Close? || a.AnnounceClose? {
        SenderStepIsSafe(s, a);
      } else if a.Clone? || a.DropHandle? || a.StoreClosedOnDrop? || a.AnnounceDrop? {
        HandleStepIsSafe(s, a);
      } else {
        ReceiverStepIsSafe(s, a);
      }
    }
  }

  /** The outstanding notification does wake the receiver. */
  lemma NotificationWakes<T>(s: State<T>, a: Action<T>)
    requires WakeUpSafe(s) && s.receiver.Awaiting?
    requires match a
             case NotifyPushed(i) => At(s, i, MustNotify)
             case AnnounceClose(i) => At(s, i, MustAnnounce)
             case AnnounceDrop(i) => At(s, i, MustAnnounceDrop)
             case _ => false
    ensures Do(s, a).receiver.Awaiting? && N.Ready(Do(s, a).notify)
  {
  }

  // ------------------------------------------------ handles

  predicate Alive(pc: Sender) {
    pc.Idle? || pc.MustNotify? || pc.MustAnnounce?
  }

  function AliveSenders(senders: map<nat, Sender>): set<nat> {
    set i | i in senders && Alive(senders[i])
  }

  /** The handle count is exact, and at zero the channel is closed or about to be. */
  ghost predicate HandlesExact<T>(s: State<T>) {
    && s.handles == |AliveSenders(s.senders)|
    && (s.handles == 0 ==> s.closed || Pending(s, LastDropped))
  }

  lemma AliveAfterMove(senders: map<nat, Sender>, i: nat, pc: Sender)
    ensures var was := i in senders && Alive(senders[i]);
            |AliveSenders(senders[i := pc])| + (if was then 1 else 0)
                == |AliveSenders(senders)| + (if Alive(pc) then 1 else 0)
  {
    var before, after := AliveSenders(senders), AliveSenders(senders[i := pc]);
    if i in before {
      assert before == (before - {i}) + {i};
      assert after == if Alive(pc) then before else before - {i};
    } else {
      assert after == if Alive(pc) then before + {i} else before;
    }
  }

  /** One sender moves, one handle more or less if it becomes or stops being alive. */
  lemma MoveKeepsHandles<T>(s: State<T>, t: State<T>, i: nat, pc: Sender)
    requires HandlesExact(s) && t.senders == s.senders[i := pc]
    requires t.handles == |AliveSenders(t.senders)|
    requires s.closed ==> t.closed
    requires t.handles == 0 && s.handles > 0 ==> pc.LastDropped?
    requires At(s, i, LastDropped) ==> t.closed
    ensures HandlesExact(t)
  {
    if t.handles == 0 && !t.closed {
      if s.handles > 0 {
        assert At(t, i, LastDropped);
      } else {
        var k :| At(s, k, LastDropped);
        assert At(t, k, LastDropped);
      }
    }
  }

  lemma HandleStep<T>(s: State<T>, a: Action<T>)
    requires HandlesExact(s)
    ensures HandlesExact(Do(s, a))
  {
    var t := Do(s, a);
    if t.senders == s.senders {
      KeptSenders(s, t);
    } else {
      var i := if a.Clone? then a.j else a.i;
      AliveAfterMove(s.senders, i, t.senders[i]);
      MoveKeepsHandles(s, t, i, t.senders[i]);
    }
  }

  lemma KeptSenders<T>(s: State<T>, t: State<T>)
    requires HandlesExact(s) && t.senders == s.senders && t.handles == s.handles && (s.closed ==> t.closed)
    ensures HandlesExact(t)
  {
    if t.handles == 0 && !t.closed {
      var k :| At(s, k, LastDropped);
      assert At(t, k, LastDropped);
    }
  }

  lemma {:induction false} HandlesStayExact<T>(capacity: nat, actions: seq<Action<T>>)
    ensures HandlesExact(Run(Start<T>(capacity), actions))
  {
    if actions == [] {
      assert AliveSenders(map[0 := Idle]) == {0};
    } else {
      HandlesStayExact(capacity, actions[..|actions| - 1]);
      HandleStep(Run(Start<T>(capacity), actions[..|actions| - 1]), actions[|actions| - 1]);
    }
  }

  /** No sender is in the middle of anything. */
  ghost predicate Quiet<T>(s: State<T>) {
    forall i :: i in s.senders ==> s.senders[i].Idle? || s.senders[i].Gone?
  }

  /**
   When no sender is in the middle of anything and the receiver sleeps, the ring is empty, the
   channel is open and some handle is left: after the last handle is gone `recv` never hangs.
   */
  lemma {:induction false} SleepingReceiverMissesNothing<T>(capacity: nat, actions: seq<Action<T>>)
    requires var s := Run(Start<T>(capacity), actions);
             Quiet(s) && s.receiver.Awaiting? && !N.Ready(s.notify)
    ensures var s := Run(Start<T>(capacity), actions);
            s.ring.queue == [] && !s.closed && s.handles > 0 && Pending(s, Idle)
  {
    NoLostWakeUp(capacity, actions);
    HandlesStayExact(capacity, actions);
    var s := Run(Start<T>(capacity), actions);
    assert forall i, pc :: At(s, i, pc) ==> pc.Idle? || pc.Gone?;
    assert AliveSenders(s.senders) != {};
    var i :| i in AliveSenders(s.senders);
    assert At(s, i, Idle);
  }

  // ------------------------------------------------ drop discipline

  /** The items with fate `Delivered`, in order. */
  ghost function Chosen<T>(items: seq<T>, fates: seq<Fate>): seq<T>
    requires |items| == |fates|
  {
    if items == [] then []
    else Chosen(items[..|items| - 1], fates[..|fates| - 1])
         + if fates[|fates| - 1].Delivered? then [items[|items| - 1]] else []
  }

  ghost function Losses(fates: seq<Fate>): nat {
    if fates == [] then 0 else Losses(fates[..|fates| - 1]) + if fates[|fates| - 1].Dropped? then 1 else 0
  }

  /**
   The ring holds the last items sent, everything before was delivered in order or dropped and
   counted, and nothing is dropped before `capacity` newer items have been sent.
   */
  ghost predicate Accounted<T>(s: State<T>, capacity: nat) {
    && s.ring.capacity == capacity && |s.ring.queue| <= capacity
    && |s.sent| == |s.fates| + |s.ring.queue|
    && s.ring.queue == s.sent[|s.fates|..]
    && s.received == Chosen(s.sent[..|s.fates|], s.fates)
    && s.ring.dropped == Losses(s.fates)
    && forall k :: 0 <= k < |s.fates| && s.fates[k].Dropped? ==> k + capacity < |s.sent|
  }

  lemma {:induction false} ChosenAppend<T>(items: seq<T>, fates: seq<Fate>, v: T, f: Fate)
    requires |items| == |fates|
    ensures Chosen(items + [v], fates + [f]) == Chosen(items, fates) + (if f.Delivered? then [v] else [])
  {
    assert (items + [v])[..|items|] == items && (fates + [f])[..|fates|] == fates;
  }

  lemma {:induction false} LossesAppend(fates: seq<Fate>, f: Fate)
    ensures Losses(fates + [f]) == Losses(fates) + (if f.Dropped? then 1 else 0)
  {
    assert (fates + [f])[..|fates|] == fates;
  }

  lemma PushIsAccounted<T>(s: State<T>, i: nat, v: T, capacity: nat)
    requires capacity > 0 && Accounted(s, capacity)
    ensures Accounted(Do(s, Push(i, v)), capacity)
  {
    var t, n := Do(s, Push(i, v)), |s.fates|;
    if t.fates != s.fates {
      ChosenAppend(s.sent[..n], s.fates, s.sent[n], Dropped);
      LossesAppend(s.fates, Dropped);
      assert t.sent[..n + 1] == s.sent[..n] + [s.sent[n]];
    } else if t != s {
      assert t.sent[..n] == s.sent[..n];
    }
  }

  lemma CheckIsAccounted<T>(s: State<T>, capacity: nat)
    requires Accounted(s, capacity)
    ensures Accounted(Do(s, CheckQueue), capacity)
  {
    var t, n := Do(s, CheckQueue), |s.fates|;
    if t.fates != s.fates {
      ChosenAppend(s.sent[..n], s.fates, s.sent[n], Delivered);
      LossesAppend(s.fates, Delivered);
      assert t.sent[..n + 1] == s.sent[..n] + [s.sent[n]];
    }
  }

  lemma {:induction false} EveryItemIsAccountedFor<T>(capacity: nat, actions: seq<Action<T>>)
    requires capacity > 0
    ensures Accounted(Run(Start<T>(capacity), actions), capacity)
  {
    if actions == [] {
    } else {
      EveryItemIsAccountedFor(capacity, actions[..|actions| - 1]);
      var s, a := Run(Start<T>(capacity), actions[..|actions| - 1]), actions[|actions| - 1];
      match a {
        case Push(i, v) => PushIsAccounted(s, i, v, capacity);
        case CheckQueue => CheckIsAccounted(s, capacity);
        case _ =>
      }
    }
  }

  // ------------------------------------------------ what a receive brings back

  /** `n` receives, one after the other, each of which finds an item. */
  ghost function Receives<T>(n: nat): seq<Action<T>> {
    if n == 0 then [] else Receives(n - 1) + [StartRecv, CheckQueue]
  }

  lemma {:induction false} RunAppend<T>(s: State<T>, a: seq<Action<T>>, b: seq<Action<T>>)
    ensures Run(s, a + b) == Run(Run(s, a), b)
  {
    if b == [] {
      assert a + b == a;
    } else {
      var n := |b| - 1;
      assert (a + b)[..|a + b| - 1] == a + b[..n];
      RunAppend(s, a, b[..n]);
    }
  }

  lemma {:induction false} RunOfTwo<T>(s: State<T>, a: Action<T>, b: Action<T>)
    ensures Run(s, [a, b]) == Do(Do(s, a), b)
  {
    assert [a, b][..1] == [a] && [a][..0] == [];
    assert Run(s, []) == s;
    assert Run(s, [a]) == Do(s, a);
  }

  lemma {:induction false} RunOfThree<T>(s: State<T>, a: Action<T>, b: Action<T>, c: Action<T>)
    ensures Run(s, [a, b, c]) == Do(Do(Do(s, a), b), c)
  {
    RunOfTwo(s, a, b);
    assert [a, b, c][..2] == [a, b];
  }

  lemma OneReceive<T>(s: State<T>)
    requires s.receiver.Outside? && s.ring.queue != []
    ensures var t := Do(Do(s, StartRecv), CheckQueue);
            && t.receiver.Outside? && t.closed == s.closed
            && t.received == s.received + [s.ring.queue[0]] && t.ring.queue == s.ring.queue[1..]
  {
  }

  /** Closed or not, receives bring back what is in the ring, oldest first. */
  lemma {:induction false} BufferedItemsAreDelivered<T>(s: State<T>, n: nat)
    requires s.receiver.Outside? && n <= |s.ring.queue|
    ensures var t := Run(s, Receives(n));
            && t.receiver.Outside? && t.closed == s.closed
            && t.received == s.received + s.ring.queue[..n] && t.ring.queue == s.ring.queue[n..]
  {
    if n > 0 {
      hide Do;
      var t := Run(s, Receives(n - 1));
      BufferedItemsAreDelivered(s, n - 1);
      RunAppend(s, Receives(n - 1), [StartRecv, CheckQueue]);
      RunOfTwo(t, StartRecv, CheckQueue);
      OneReceive(t);
    }
  }

  /** A closed channel hands out all it holds, in order, and then ends. */
  lemma {:induction false} ClosedChannelIsDrained<T>(s: State<T>)
    requires s.receiver.Outside? && s.closed
    ensures var t := Run(s, Receives(|s.ring.queue|) + [StartRecv, CheckQueue, CheckClosed]);
            t.receiver.Outside? && t.ring.queue == [] && t.received == s.received + s.ring.queue
  {
    var n := |s.ring.queue|;
    BufferedItemsAreDelivered(s, n);
    RunAppend(s, Receives(n), [StartRecv, CheckQueue, CheckClosed]);
    RunOfThree(Run(s, Receives(n)), StartRecv, CheckQueue, CheckClosed);
    assert s.ring.queue[..n] == s.ring.queue;
  }

  /**
   A receive that ends by itself brings back the oldest item, or ends a channel that is closed and
   empty at that moment.
   */
  lemma {:induction false} ReceiveEndsWithItemOrForGood<T>(capacity: nat, actions: seq<Action<T>>, a: Action<T>)
    requires var s := Run(Start<T>(capacity), actions);
             !s.receiver.Outside? && Do(s, a).receiver.Outside? && !a.Abandon?
    ensures var s := Run(Start<T>(capacity), actions); var t := Do(s, a);
            if t.received == s.received then s.closed && s.ring.queue == [] && t.ring.queue == []
            else s.ring.queue != [] && t.received == s.received + [s.ring.queue[0]] && t.ring.queue == s.ring.queue[1..]
  {
    NoLostWakeUp(capacity, actions);
  }

  /**
   A woken receive looks again: it takes an item if there is one, ends if the channel is closed, or goes
   on waiting.
   */
  lemma {:induction false} WokenReceiveLooksAgain<T>(s: State<T>)
    requires s.receiver.Awaiting? && N.Ready(s.notify)
    ensures var t := Run(s, [PollFuture, CheckQueue, CheckClosed]);
            && t.closed == s.closed
            && t.received == s.received + s.ring.queue[..Min(1, |s.ring.queue|)]
            && (t.receiver.Outside? <==> s.ring.queue != [] || s.closed)
            && (!t.receiver.Outside? ==> t.receiver.Awaiting?)
  {
    RunOfThree(s, PollFuture, CheckQueue, CheckClosed);
  }

  /** Giving up a receive takes nothing from the ring, and hands a notification it had on to the next one. */
  lemma AbandonTakesNothing<T>(s: State<T>)
    requires s.receiver.Created? || s.receiver.Awaiting?
    ensures var t := Do(s, Abandon);
            && t.receiver.Outside? && t.ring == s.ring && t.received == s.received && t.closed == s.closed
            && (s.notify.future.WokenByOne? ==> N.Ready(Do(t, StartRecv).notify))
  {
  }

  /** An item sent is the newest of the ring, and a receiver that waits for it is woken. */
  lemma {:induction false} SentItemArrives<T>(s: State<T>, i: nat, v: T)
    requires WakeUpSafe(s) && At(s, i, Idle) && !s.receiver.FoundEmpty?
    ensures var t := Run(s, [Push(i, v), NotifyPushed(i)]);
            && t.sent == s.sent + [v] && At(t, i, Idle)
            && t.ring.queue != [] && t.ring.queue[|t.ring.queue| - 1] == v
            && (t.receiver.Awaiting? ==> N.Ready(t.notify))
  {
    RunOfTwo(s, Push(i, v), NotifyPushed(i));
  }

  /** Closing closes for good, and wakes a receiver that waits. */
  lemma {:induction false} ClosingIsFinal<T>(s: State<T>, i: nat, more: seq<Action<T>>)
    requires WakeUpSafe(s) && At(s, i, Idle)
    ensures var t := Run(s, [Close(i), AnnounceClose(i)]);
            t.closed && At(t, i, Idle) && (t.receiver.Awaiting? ==> N.Ready(t.notify)) && Run(t, more).closed
  {
    RunOfTwo(s, Close(i), AnnounceClose(i));
    StaysClosed(Run(s, [Close(i), AnnounceClose(i)]), more);
  }

  lemma {:induction false} StaysClosed<T>(s: State<T>, more: seq<Action<T>>)
    requires s.closed
    ensures Run(s, more).closed
  {
    if more == [] {
    } else {
      StaysClosed(s, more[..|more| - 1]);
    }
  }

  /** No handle closes the channel itself. */
  predicate NeverClosed<T>(actions: seq<Action<T>>) {
    forall k :: 0 <= k < |actions| ==> !actions[k].Close?
  }

  /** Closed, or about to be closed by a drop. */
  ghost predicate Closing<T>(s: State<T>) {
    s.closed || Pending(s, LastDropped) || Pending(s, MustAnnounceDrop)
  }

  lemma ClosingStep<T>(s: State<T>, a: Action<T>)
    requires HandlesExact(s) && !a.Close? && (Closing(s) ==> s.handles == 0)
    ensures Closing(Do(s, a)) ==> Do(s, a).handles == 0
  {
    var t := Do(s, a);
    if s.handles == 0 {
      NobodyAlive(s);
    } else {
      assert forall i :: At(t, i, LastDropped) && !At(s, i, LastDropped) ==> t.handles == 0;
      assert forall i :: At(t, i, MustAnnounceDrop) && !At(s, i, MustAnnounceDrop) ==> At(s, i, LastDropped);
    }
  }

  lemma NobodyAlive<T>(s: State<T>)
    requires HandlesExact(s) && s.handles == 0
    ensures forall i :: i in s.senders ==> !Alive(s.senders[i])
  {
    forall i | i in s.senders
      ensures !Alive(s.senders[i])
    {
      assert i in AliveSenders(s.senders) <==> Alive(s.senders[i]);
    }
  }

  /** Unless some handle closes it, the channel is open as long as a handle is left. */
  lemma {:induction false} OpenWhileHandlesAreLeft<T>(capacity: nat, actions: seq<Action<T>>)
    requires NeverClosed(actions)
    ensures var s := Run(Start<T>(capacity), actions); Closing(s) ==> s.handles == 0
  {
    if actions == [] {
    } else {
      var n := |actions| - 1;
      OpenWhileHandlesAreLeft(capacity, actions[..n]);
      HandlesStayExact(capacity, actions[..n]);
      ClosingStep(Run(Start<T>(capacity), actions[..n]), actions[n]);
    }
  }

  /** A clone is one more idle handle. */
  lemma CloneAddsAHandle<T>(s: State<T>, i: nat, j: nat)
    requires At(s, i, Idle) && j !in s.senders
    ensures var t := Do(s, Clone(i, j));
            At(t, i, Idle) && At(t, j, Idle) && t.handles == s.handles + 1 && t.closed == s.closed && t.ring == s.ring
  {
  }

  /** A dropped handle is gone; the last one closes the channel and wakes a receiver that waits. */
  lemma {:induction false} DroppingTheLastCloses<T>(s: State<T>, i: nat)
    requires WakeUpSafe(s) && At(s, i, Idle) && s.handles > 0
    ensures var t := Run(s, [DropHandle(i), StoreClosedOnDrop(i), AnnounceDrop(i)]);
            && At(t, i, Gone) && t.handles == s.handles - 1 && t.ring == s.ring
            && (t.closed <==> s.closed || s.handles == 1)
            && (t.receiver.Awaiting? && s.handles == 1 ==> N.Ready(t.notify))
  {
    RunOfThree(s, DropHandle(i), StoreClosedOnDrop(i), AnnounceDrop(i));
  }
}
