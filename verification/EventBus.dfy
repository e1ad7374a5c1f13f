/** The event bus: one dispatch coroutine, a counting semaphore, and the executions it started. */
module EventBuses {
  datatype Event = Event(id: nat, platform: string)

  /** Where the dispatch coroutine stands. `Handed` is between the release that gave it a permit and its own next
      step. */
  datatype Dispatcher = AtQueue | Waiting(event: Event) | Handed(event: Event) | Cancelled

  /** An execution whose done callbacks have not run yet; `ended` once the task itself is over. */
  datatype Run = Run(event: Event, ended: bool, cancelAsked: bool)

  datatype Bus = Bus(queue: seq<Event>, stopped: set<string>, free: nat, dispatcher: Dispatcher,
                     pending: map<nat, Event>, runs: map<nat, Run>)

  function Permits(maxConcurrency: int): nat {
    if maxConcurrency < 1 then 1 else maxConcurrency
  }

  /** The execution starts, is listed as pending, and the dispatcher goes back to the queue. */
  function Start(b: Bus, e: Event, t: nat): Bus {
    b.(dispatcher := AtQueue, pending := b.pending[t := e], runs := b.runs[t := Run(e, false, false)])
  }

  /** `Semaphore.release`: a waiting dispatcher gets the permit at once. */
  function Release(b: Bus): Bus {
    match b.dispatcher
    case Waiting(e) => b.(dispatcher := Handed(e))
    case _ => b.(free := b.free + 1)
  }

  /** From taking an event off the queue to the next await; `routed` when a scheduler was found for the event. */
  function Take(b: Bus, routed: bool, t: nat): Bus
    requires b.queue != []
  {
    var e := b.queue[0];
    var rest := b.(queue := b.queue[1..]);
    if e.platform in b.stopped || !routed then rest
    else if b.free > 0 then Start(rest.(free := b.free - 1), e, t)
    else rest.(dispatcher := Waiting(e))
  }

  /** The dispatcher goes on with the permit it was handed. */
  function Resume(b: Bus, t: nat): Bus
    requires b.dispatcher.Handed?
  {
    var e := b.dispatcher.event;
    if e.platform in b.stopped then Release(b.(dispatcher := AtQueue)) else Start(b, e, t)
  }

  /** The dispatch task is cancelled; a permit it was already handed goes back. */
  function CancelDispatch(b: Bus): Bus {
    if b.dispatcher.Handed? then b.(dispatcher := Cancelled, free := b.free + 1) else b.(dispatcher := Cancelled)
  }

  function End(b: Bus, t: nat): Bus
    requires t in b.runs
  {
    b.(runs := b.runs[t := b.runs[t].(ended := true)])
  }

  function OnTaskDone(b: Bus, t: nat): Bus {
    Release(b.(pending := b.pending - {t}, runs := b.runs - {t}))
  }

  function Others(queue: seq<Event>, platform: string): seq<Event> {
    if queue == [] then []
    else if queue[0].platform == platform then Others(queue[1..], platform)
    else [queue[0]] + Others(queue[1..], platform)
  }

  function TasksOf(pending: map<nat, Event>, platform: string): set<nat> {
    set t | t in pending && pending[t].platform == platform
  }

  /** Each of the tasks that is not over is asked to cancel. */
  function AskCancel(runs: map<nat, Run>, tasks: set<nat>): map<nat, Run> {
    map t | t in runs :: if t in tasks && !runs[t].ended then runs[t].(cancelAsked := true) else runs[t]
  }

  /** `stop_platform` up to the point where it waits for the tasks. */
  function Stopping(b: Bus, platform: string): Bus {
    b.(stopped := b.stopped + {platform},
       queue := Others(b.queue, platform),
       runs := AskCancel(b.runs, TasksOf(b.pending, platform)))
  }

  class EventBus {
    var queue: seq<Event>
    const queueSize: nat
    var stoppedPlatforms: set<string>
    var free: nat
    var dispatcher: Dispatcher
    var pendingTasks: map<nat, Event>
    var runs: map<nat, Run>

    function View(): Bus
      reads this
    {
      Bus(queue, stoppedPlatforms, free, dispatcher, pendingTasks, runs)
    }

    constructor (queueSize: nat, maxConcurrency: int)
      ensures this.queueSize == queueSize
      ensures View() == Bus([], {}, Permits(maxConcurrency), AtQueue, map[], map[])
    {
      this.queueSize := queueSize;
      queue, stoppedPlatforms, dispatcher, pendingTasks, runs := [], {}, AtQueue, map[], map[];
      free := if 1 < maxConcurrency then maxConcurrency else 1;
    }

    method DispatchOne(routed: bool, t: nat)
      requires queue != [] && dispatcher == AtQueue
      modifies this
      ensures View() == Take(old(View()), routed, t)
    {
      var event := queue[0];
      queue := queue[1..];
      if event.platform in stoppedPlatforms {
        return;
      }
      if !routed {
        return;
      }
      if free == 0 {
        dispatcher := Waiting(event);
        return;
      }
      free := free - 1;
      CreateTask(event, t);
    }

    method ResumeDispatch(t: nat)
      requires dispatcher.Handed?
      modifies this
      ensures View() == Resume(old(View()), t)
    {
      var event := dispatcher.event;
      if event.platform in stoppedPlatforms {
        dispatcher := AtQueue;
        free := free + 1;
        return;
      }
      CreateTask(event, t);
    }

    method CreateTask(event: Event, t: nat)
      modifies this`dispatcher, this`pendingTasks, this`runs
      ensures View() == Start(old(View()), event, t)
    {
      pendingTasks := pendingTasks[t := event];
      runs := runs[t := Run(event, false, false)];
      dispatcher := AtQueue;
    }

    method TaskDone(t: nat)
      modifies this
      ensures View() == OnTaskDone(old(View()), t)
    {
      pendingTasks := pendingTasks - {t};
      runs := runs - {t};
      match dispatcher
      case Waiting(event) => dispatcher := Handed(event);
      case _ => free := free + 1;
    }

    /** Empties the queue and returns the other platforms' events. */
    method Drain(platform: string) returns (retained: seq<Event>)
      modifies this`queue
      ensures queue == [] && retained == Others(old(queue), platform)
      ensures |retained| <= |old(queue)|
    {
      hide Others;
      retained := [];
      while queue != []
        invariant retained + Others(queue, platform) == Others(old(queue), platform)
        invariant |retained| + |queue| <= |old(queue)|
        decreases |queue|
      {
        var event := queue[0];
        TakeOther(retained, queue, platform);
        queue := queue[1..];
        if event.platform != platform {
          retained := retained + [event];
        }
      }
      TakeOther(retained, [], platform);
    }

    /** `put_nowait` for each; there is room for all. */
    method Requeue(retained: seq<Event>)
      requires queueSize > 0 ==> |queue| + |retained| <= queueSize
      modifies this`queue
      ensures queue == old(queue) + retained
    {
      var i := 0;
      while i < |retained|
        invariant 0 <= i <= |retained| && queue == old(queue) + retained[..i]
      {
        assert queueSize > 0 ==> |queue| < queueSize;
        queue := queue + [retained[i]];
        i := i + 1;
      }
    }

    /** Up to the `gather`; returns the tasks it waits for. Re-queueing never meets a full queue. */
    method StopPlatform(platform: string) returns (tasks: set<nat>)
      requires queueSize > 0 ==> |queue| <= queueSize
      modifies this
      ensures View() == Stopping(old(View()), platform)
      ensures tasks == TasksOf(old(pendingTasks), platform)
    {
      stoppedPlatforms := stoppedPlatforms + {platform};
      var retained := Drain(platform);
      Requeue(retained);
      tasks := TasksOf(pendingTasks, platform);
      runs := AskCancel(runs, tasks);
    }
  }

  lemma TakeOther(retained: seq<Event>, queue: seq<Event>, platform: string)
    ensures queue != [] ==> retained + Others(queue, platform)
                            == (if queue[0].platform == platform then retained else retained + [queue[0]])
                               + Others(queue[1..], platform)
    ensures retained + Others([], platform) == retained
  {
    if queue != [] && queue[0].platform != platform {
      var rest := Others(queue[1..], platform);
      assert retained + ([queue[0]] + rest) == retained + [queue[0]] + rest;
    }
  }

  lemma {:induction false} OthersFacts(queue: seq<Event>, platform: string)
    ensures |Others(queue, platform)| <= |queue|
    ensures forall e :: e in Others(queue, platform) <==> e in queue && e.platform != platform
    decreases |queue|
  {
    if queue != [] {
      OthersFacts(queue[1..], platform);
      assert queue == [queue[0]] + queue[1..];
    }
  }
}
