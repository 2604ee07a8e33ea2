/**
  The event channel between the read worker and the user interface: a queue
  under a mutex with a single waker slot, written by hand for an asynchronous
  receiver.

  The sender pushes and takes the waker in one critical section and wakes it
  after leaving the section. The executor must poll the receiving task when it is
  scheduled and may poll it at any other time; a poll that finds nothing stores
  its waker and parks the task.
 */
module EventChannel {
  import opened Values

  datatype Task = Scheduled | Parked | Finished

  /** `sent` and `delivered` are history. `waking` is the waker that the sender took and has not called yet. */
  datatype Channel<T> = Channel(
    queue: seq<T>, waker: bool, senderClosed: bool, receiverAlive: bool,
    waking: bool, task: Task, sent: seq<T>, delivered: seq<T>)

  datatype Step<T> =
    | Send(event: T)
    | Close
    | Wake
    | Poll
    | TryEvent
    | DropReceiver

  function NewChannel<T>(): Channel<T> {
    Channel([], false, false, true, false, Scheduled, [], [])
  }

  /** The receiver takes the first event. */
  function Popped<T>(c: Channel<T>): Channel<T>
    requires c.queue != []
  {
    c.(queue := c.queue[1..], delivered := c.delivered + [c.queue[0]])
  }

  /** `recv`, one poll of it. */
  function Polled<T>(c: Channel<T>): Channel<T> {
    if c.queue != [] then Popped(c).(task := Scheduled)
    else if c.senderClosed then c.(task := Finished)
    else c.(waker := true, task := Parked)
  }

  function Next<T>(c: Channel<T>, step: Step<T>): Option<Channel<T>> {
    match step
    case Send(event) =>
      // The one sender finishes its wake before it sends again.
      if c.waking || c.senderClosed then None
      else if !c.receiverAlive then Some(c)
      else Some(c.(queue := c.queue + [event], sent := c.sent + [event], waking := c.waker, waker := false))
    case Close =>
      if c.waking || c.senderClosed then None
      else Some(c.(senderClosed := true, waking := c.waker, waker := false))
    case Wake =>
      if !c.waking then None
      else Some(c.(waking := false, task := if c.task.Parked? then Scheduled else c.task))
    case Poll =>
      if c.receiverAlive && !c.task.Finished? then Some(Polled(c)) else None
    case TryEvent =>
      if !c.receiverAlive then None
      else Some(if c.queue != [] then Popped(c) else c)
    case DropReceiver =>
      if !c.receiverAlive then None else Some(c.(receiverAlive := false, waker := false))
  }

  function Run<T>(c: Channel<T>, steps: seq<Step<T>>): Option<Channel<T>>
    decreases |steps|
  {
    if steps == [] then Some(c)
    else match Next(c, steps[0])
      case None => None
      case Some(c') => Run(c', steps[1..])
  }

  /** A stored waker means nothing to receive yet; a parked receiver has its waker stored or about to be called. */
  ghost predicate Inv<T>(c: Channel<T>) {
    && c.sent == c.delivered + c.queue
    && (c.waker ==> c.queue == [] && !c.senderClosed && c.receiverAlive)
    && (c.task.Parked? && c.receiverAlive ==> c.waker || c.waking)
    && (c.task.Finished? ==> c.senderClosed && c.queue == [])
  }

  lemma NextKeepsInv<T>(c: Channel<T>, step: Step<T>, c': Channel<T>)
    requires Inv(c) && Next(c, step) == Some(c')
    ensures Inv(c')
    ensures c.sent <= c'.sent && c.delivered <= c'.delivered
  {
    if c.queue != [] {
      assert c.delivered + c.queue == (c.delivered + [c.queue[0]]) + c.queue[1..];
    }
    if step.Send? {
      assert c.delivered + (c.queue + [step.event]) == (c.delivered + c.queue) + [step.event];
    }
  }

  lemma {:induction false} RunKeepsInv<T>(c: Channel<T>, steps: seq<Step<T>>, c': Channel<T>)
    requires Inv(c) && Run(c, steps) == Some(c')
    ensures Inv(c') && c.sent <= c'.sent && c.delivered <= c'.delivered
    decreases |steps|
  {
    if steps != [] {
      var next := Next(c, steps[0]).value;
      NextKeepsInv(c, steps[0], next);
      RunKeepsInv(next, steps[1..], c');
    }
  }

  /**
    No wake-up is lost: whenever a live receiver is parked although there is an
    event or the sender is gone, the sender is on its way to wake it, and that
    wake schedules it. Events arrive in send order, none lost and none twice, and
    the stream ends only after the last one.
   */
  lemma NoLostWakeUp<T>(steps: seq<Step<T>>, c: Channel<T>)
    requires Run(NewChannel<T>(), steps) == Some(c)
    ensures c.waker ==> c.queue == [] && !c.senderClosed
    ensures c.receiverAlive && c.task.Parked? && (c.queue != [] || c.senderClosed) ==>
              c.waking && Next(c, Wake).Some? && Next(c, Wake).value.task.Scheduled?
    ensures c.receiverAlive && !c.waking && (c.queue != [] || c.senderClosed) ==> c.task.Scheduled? || c.task.Finished?
    ensures c.sent == c.delivered + c.queue
    ensures c.task.Finished? ==> c.senderClosed && c.delivered == c.sent
  {
    RunKeepsInv(NewChannel<T>(), steps, c);
  }

  /** A receiver that is polled gets the oldest event it has not got, or the end, or parks. */
  lemma PollMakesProgress<T>(steps: seq<Step<T>>, c: Channel<T>)
    requires Run(NewChannel<T>(), steps) == Some(c) && c.receiverAlive && !c.task.Finished?
    ensures var c' := Next(c, Poll).value;
            if |c.delivered| < |c.sent| then c'.delivered == c.delivered + [c.sent[|c.delivered|]] && c'.task.Scheduled?
            else c'.delivered == c.delivered && c'.task == if c.senderClosed then Finished else Parked
  {
    RunKeepsInv(NewChannel<T>(), steps, c);
  }

  // ------------------------------------------------------------ the object

  class ReadEventChannel<T> {
    var queue: seq<T>
    var waker: bool
    var senderClosed: bool
    var receiverAlive: bool
    var waking: bool
    var task: Task
    ghost var sent: seq<T>
    ghost var delivered: seq<T>

    constructor ()
      ensures State() == NewChannel<T>()
    {
      queue, waker, senderClosed, receiverAlive, waking, task := [], false, false, true, false, Scheduled;
      sent, delivered := [], [];
    }

    ghost function State(): Channel<T>
      reads this
    {
      Channel(queue, waker, senderClosed, receiverAlive, waking, task, sent, delivered)
    }

    /** Takes the stored waker, to be called outside the lock. */
    method TakeWaker()
      requires !waking
      modifies `waker, `waking
      ensures waking == old(waker) && !waker
    {
      waking, waker := waker, false;
    }

    method CallWaker()
      modifies `waking, `task
      ensures !waking && task == if old(waking) && old(task).Parked? then Scheduled else old(task)
    {
      if waking && task.Parked? {
        task := Scheduled;
      }
      waking := false;
    }

    /** Pushes the event and then wakes a parked receiver. */
    method Send(event: T) returns (ok: bool)
      requires Inv(State()) && !waking && !senderClosed
      modifies this
      ensures Inv(State()) && ok == old(receiverAlive)
      ensures !ok ==> State() == old(State())
      ensures ok ==> State() == old(State()).(queue := old(queue) + [event], sent := old(sent) + [event], waker := false,
                                              task := if old(waker) && old(task).Parked? then Scheduled else old(task))
    {
      if !receiverAlive {
        return false;
      }
      ghost var before := State();
      queue := queue + [event];
      sent := sent + [event];
      TakeWaker();
      NextKeepsInv(before, Step.Send(event), State());
      CallWaker();
      return true;
    }

    /** Dropping the sender wakes a parked receiver, too. */
    method DropSender()
      requires Inv(State()) && !waking && !senderClosed
      modifies this
      ensures Inv(State())
      ensures State() == old(State()).(senderClosed := true, waker := false, task := if old(waker) && old(task).Parked? then Scheduled else old(task))
    {
      senderClosed := true;
      TakeWaker();
      CallWaker();
    }

    method TryEvent() returns (event: Option<T>)
      requires Inv(State()) && receiverAlive
      modifies this
      ensures Inv(State()) && Next(old(State()), Step.TryEvent) == Some(State())
      ensures event == if old(queue) == [] then None else Some(old(queue)[0])
    {
      if queue == [] {
        return None;
      }
      ghost var before := State();
      event := Some(queue[0]);
      delivered := delivered + [queue[0]];
      queue := queue[1..];
      NextKeepsInv(before, Step.TryEvent, State());
    }

    /** One poll of `recv`: an event, the end of the stream, or nothing yet. */
    method PollReceive() returns (ready: bool, event: Option<T>)
      requires Inv(State()) && receiverAlive && !task.Finished?
      modifies this
      ensures Inv(State()) && Next(old(State()), Poll) == Some(State())
      ensures ready <==> old(queue) != [] || senderClosed
      ensures event == if old(queue) == [] then None else Some(old(queue)[0])
    {
      if queue != [] {
        event := TryEvent();
        task := Scheduled;
        return true, event;
      }
      if senderClosed {
        task := Finished;
        return true, None;
      }
      waker := true;
      task := Parked;
      return false, None;
    }

    method DropReceiver()
      requires Inv(State()) && receiverAlive
      modifies `receiverAlive, `waker
      ensures Inv(State()) && Next(old(State()), Step.DropReceiver) == Some(State())
    {
      receiverAlive := false;
      waker := false;
    }
  }
}
