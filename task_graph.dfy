/**
 * The task graph's thread control: the named task thread (FNamedTaskThread)
 * with its two queues (main and local), each a stalling task queue plus quit
 * flags, a recursion guard and a restart event; the any-thread worker's quit
 * request; and the thread-index arithmetic of the graph implementation.
 *
 * Executing a task is opaque.  Its only effect modelled here is the quit
 * request it may make of the thread running it (a return task asks that
 * queue to return, a shutdown asks both queues to stop); each execution is
 * recorded with the thread-and-queue code it is passed.  The restart events
 * are auto-reset events: a wait on a triggered event consumes the signal,
 * a wait on an untriggered one blocks the thread, which ends the model's run
 * of that thread (outcome Parked).
 */
module TaskGraphs {
  import opened Common
  import opened IndexedPointers
  import opened NamedThreads
  import opened StallingQueues

  /** What executing a task asks of the thread running it. */
  datatype TaskEffect = Runs | RequestsReturn | RequestsShutdown

  /** How a run of the named thread's processing loop ends. */
  datatype DrainOutcome = Idle | ReturnRequested | ShutDown | Parked

  /**
   * FThreadTaskQueue of a named thread without its stalling queue:
   * RecursionGuard, QuitForReturn, QuitForShutdown, whether StallRestartEvent
   * exists, and whether that event holds a signal.
   */
  datatype QueueControl = QueueControl(
    RecursionGuard: nat, QuitForReturn: bool, QuitForShutdown: bool,
    HasEvent: bool, EventTriggered: bool)

  /** The thread-and-queue code a named thread passes to a task: ThreadId | QueueIndex << 8. */
  function QueueCode(threadId: Code, q: int): (r: Code)
    requires 0 <= q < NumQueues
    ensures IsIndexOnly(threadId) ==> GetThreadIndex(r) == threadId && GetQueueIndex(r) == q
  {
    threadId | ((q as bv32) << QueueIndexShift)
  }

  /** The executions of a run, each with the code it was passed. */
  function Tagged(tasks: seq<nat>, code: Code): (r: seq<(nat, Code)>)
    ensures |r| == |tasks|
    ensures forall i :: 0 <= i < |r| ==> r[i] == (tasks[i], code)
  {
    if tasks == [] then [] else [(tasks[0], code)] + Tagged(tasks[1..], code)
  }

  /** One more execution, one more record. */
  lemma TaggedSnoc(log: seq<(nat, Code)>, tasks: seq<nat>, task: nat, code: Code)
    ensures log + Tagged(tasks + [task], code) == (log + Tagged(tasks, code)) + [(task, code)]
  {
    assert Tagged(tasks + [task], code) == Tagged(tasks, code) + [(task, code)];
  }

  /** Some task of the run asked for shutdown. */
  function ShutdownIn(tasks: seq<nat>, effect: nat -> TaskEffect): bool
  {
    tasks != [] && (effect(tasks[|tasks| - 1]) == RequestsShutdown || ShutdownIn(tasks[..|tasks| - 1], effect))
  }

  /** RequestQuit(-1): both queues are told to shut down and both events are signalled. */
  function ShutdownAll(ctl: seq<QueueControl>): (r: seq<QueueControl>)
    requires |ctl| == NumQueues
    ensures |r| == NumQueues
    ensures forall i :: 0 <= i < NumQueues ==>
      r[i].QuitForShutdown && r[i].EventTriggered &&
      r[i].RecursionGuard == ctl[i].RecursionGuard && r[i].QuitForReturn == ctl[i].QuitForReturn &&
      r[i].HasEvent == ctl[i].HasEvent
  {
    [ctl[0].(QuitForShutdown := true, EventTriggered := true),
     ctl[1].(QuitForShutdown := true, EventTriggered := true)]
  }

  /** The control state after executing one task of queue q. */
  function AfterTask(ctl: seq<QueueControl>, q: int, e: TaskEffect): seq<QueueControl>
    requires |ctl| == NumQueues && 0 <= q < NumQueues
  {
    match e
    case Runs => ctl
    case RequestsReturn => ctl[q := ctl[q].(QuitForReturn := true)]
    case RequestsShutdown => ShutdownAll(ctl)
  }

  /**
   * The control state after a run of queue q executed `tasks`: shutdown
   * requested if any task asked for it, return requested if the run ended on
   * a return request.
   */
  function AfterRun(ctl: seq<QueueControl>, q: int, tasks: seq<nat>, returned: bool, effect: nat -> TaskEffect): (r: seq<QueueControl>)
    requires |ctl| == NumQueues && 0 <= q < NumQueues
    ensures |r| == NumQueues
  {
    var c := if ShutdownIn(tasks, effect) then ShutdownAll(ctl) else ctl;
    c[q := c[q].(QuitForReturn := c[q].QuitForReturn || returned)]
  }

  /**
   * The drain loop of ProcessTasksNamedThread, on the contents of the
   * queue's priority FIFOs: pop tasks (priority 0 first) and execute them
   * until a pop finds nothing or a task asks the queue to return.  Yields the
   * executed tasks, the remaining contents and whether a return ended it.
   */
  function DrainSpec(qs: seq<seq<nat>>, effect: nat -> TaskEffect): (seq<nat>, seq<seq<nat>>, bool)
    decreases Size(qs)
  {
    var (found, rest) := Scan(qs, 0);
    if found == [] then ([], rest, false)
    else if effect(found[0]) == RequestsReturn then (found, rest, true)
    else
      ScanShrinks(qs, 0);
      var d := DrainSpec(rest, effect);
      (found + d.0, d.1, d.2)
  }

  /** Removing a FIFO's head keeps every payload non-null. */
  lemma NoNullTasksPop(qs: seq<seq<nat>>, k: nat)
    requires NoNullTasks(qs) && k < |qs| && qs[k] != []
    ensures NoNullTasks(qs[k := qs[k][1..]])
  {
    var r := qs[k := qs[k][1..]];
    forall i, m | 0 <= i < |r| && 0 <= m < |r[i]| ensures r[i][m] != 0 {
      if i == k {
        assert r[i][m] == qs[k][m + 1];
      } else {
        assert r[i][m] == qs[i][m];
      }
    }
  }

  /**
   * With no null tasks queued, a drain executes tasks in priority order
   * (all of priority 0 in FIFO order, then priority 1): the executed tasks
   * followed by what remains are exactly what was queued.  A drain that was
   * not asked to return empties every FIFO; one that was ends on the first
   * task that asked, and no earlier task asked.
   */
  lemma {:induction false} DrainOrder(qs: seq<seq<nat>>, effect: nat -> TaskEffect)
    requires NoNullTasks(qs)
    ensures var d := DrainSpec(qs, effect);
      d.0 + Flatten(d.1) == Flatten(qs) && (!d.2 ==> d.0 == Flatten(qs))
    ensures var d := DrainSpec(qs, effect);
      d.2 ==> d.0 != [] && effect(d.0[|d.0| - 1]) == RequestsReturn
    ensures var d := DrainSpec(qs, effect);
      forall i :: 0 <= i < |d.0| && (i < |d.0| - 1 || !d.2) ==> effect(d.0[i]) != RequestsReturn
    decreases Size(qs)
  {
    var k := ScanTakesFirst(qs, 0);
    var (found, rest) := Scan(qs, 0);
    if found == [] {
      FlattenEmpty(qs);
    } else {
      FlattenPop(qs, k);
      if effect(found[0]) != RequestsReturn {
        ScanShrinks(qs, 0);
        NoNullTasksPop(qs, k);
        DrainOrder(rest, effect);
        var d := DrainSpec(rest, effect);
        assert DrainSpec(qs, effect) == (found + d.0, d.1, d.2);
        var e := found + d.0;
        forall i | 0 <= i < |e| && (i < |e| - 1 || !d.2) ensures effect(e[i]) != RequestsReturn {
          if i > 0 {
            assert e[i] == d.0[i - 1];
          }
        }
      }
    }
  }

  /** A drain result with `done` executed before it. */
  function Prefixed(done: seq<nat>, d: (seq<nat>, seq<seq<nat>>, bool)): (seq<nat>, seq<seq<nat>>, bool)
  {
    (done + d.0, d.1, d.2)
  }

  /**
   * One step of a drain that has executed `done` so far: the popped task is
   * executed next; if it asks to return, the drain ends there.
   */
  lemma DrainAdvance(whole: (seq<nat>, seq<seq<nat>>, bool), done: seq<nat>, qs: seq<seq<nat>>, effect: nat -> TaskEffect)
    requires whole == Prefixed(done, DrainSpec(qs, effect)) && Scan(qs, 0).0 != []
    ensures var (found, rest) := Scan(qs, 0);
      whole == if effect(found[0]) == RequestsReturn then (done + found, rest, true)
        else Prefixed(done + found, DrainSpec(rest, effect))
  {
    var (found, rest) := Scan(qs, 0);
    if effect(found[0]) != RequestsReturn {
      var d := DrainSpec(rest, effect);
      assert DrainSpec(qs, effect) == (found + d.0, d.1, d.2);
      assert done + (found + d.0) == (done + found) + d.0;
    }
  }

  /** A drain whose next pop finds nothing ends with what has been executed so far. */
  lemma DrainFinish(whole: (seq<nat>, seq<seq<nat>>, bool), done: seq<nat>, qs: seq<seq<nat>>, effect: nat -> TaskEffect)
    requires whole == Prefixed(done, DrainSpec(qs, effect)) && Scan(qs, 0).0 == []
    ensures whole == (done, Scan(qs, 0).1, false)
  {
    assert done + [] == done;
  }

  /** A task's request keeps each queue's event, and a signalled event still comes with a shutdown request. */
  lemma AfterTaskKeeps(ctl: seq<QueueControl>, q: int, e: TaskEffect, j: int)
    requires |ctl| == NumQueues && 0 <= q < NumQueues && 0 <= j < NumQueues
    ensures AfterTask(ctl, q, e)[j].HasEvent == ctl[j].HasEvent
    ensures (ctl[j].EventTriggered ==> ctl[j].QuitForShutdown) ==>
              (AfterTask(ctl, q, e)[j].EventTriggered ==> AfterTask(ctl, q, e)[j].QuitForShutdown)
  {
  }

  /**
   * One more executed task of a drain that has not returned, on values: the
   * control state and the rest of the drain are those of the longer run.
   */
  lemma DrainedStep(qs0: seq<seq<nat>>, ctl0: seq<QueueControl>, done: seq<nat>, effect: nat -> TaskEffect, q: int,
                    before: seq<seq<nat>>, after: seq<seq<nat>>, task: nat, queues: seq<QueueControl>)
    requires |ctl0| == NumQueues && 0 <= q < NumQueues
    requires ([task], after) == Scan(before, 0)
    requires queues == AfterRun(ctl0, q, done, false, effect) && !queues[q].QuitForReturn
    requires DrainSpec(qs0, effect) == Prefixed(done, DrainSpec(before, effect))
    ensures var queues' := AfterTask(queues, q, effect(task));
      && queues' == AfterRun(ctl0, q, done + [task], queues'[q].QuitForReturn, effect)
      && (!queues'[q].QuitForReturn ==> DrainSpec(qs0, effect) == Prefixed(done + [task], DrainSpec(after, effect)))
      && (queues'[q].QuitForReturn ==> DrainSpec(qs0, effect) == (done + [task], after, true))
  {
    DrainAdvance(DrainSpec(qs0, effect), done, before, effect);
    AfterRunStep(ctl0, q, done, task, effect);
  }

  /** Executing one more task extends the run's control state by that task's request. */
  lemma AfterRunStep(ctl: seq<QueueControl>, q: int, done: seq<nat>, task: nat, effect: nat -> TaskEffect)
    requires |ctl| == NumQueues && 0 <= q < NumQueues
    ensures AfterTask(AfterRun(ctl, q, done, false, effect), q, effect(task)) ==
      AfterRun(ctl, q, done + [task], effect(task) == RequestsReturn, effect)
  {
    var t := done + [task];
    assert t[..|t| - 1] == done;
    assert ShutdownIn(t, effect) == (effect(task) == RequestsShutdown || ShutdownIn(done, effect));
  }

  /** A run leaves the recursion guards as they were. */
  lemma AfterRunGuard(ctl: seq<QueueControl>, q: int, tasks: seq<nat>, returned: bool, effect: nat -> TaskEffect, g: nat)
    requires |ctl| == NumQueues && 0 <= q < NumQueues
    ensures var a := AfterRun(ctl, q, tasks, returned, effect);
      AfterRun(ctl[q := ctl[q].(RecursionGuard := g)], q, tasks, returned, effect) == a[q := a[q].(RecursionGuard := g)]
    ensures AfterRun(ctl, q, tasks, returned, effect)[q].RecursionGuard == ctl[q].RecursionGuard
  {
  }

  /**
   * The control state of a non-stalling run made with queue q's guard
   * raised, once the guard is lowered again, is that of the run itself.
   */
  lemma IdleRunGuard(ctl: seq<QueueControl>, q: int, tasks: seq<nat>, returned: bool, effect: nat -> TaskEffect,
                     after: seq<QueueControl>)
    requires |ctl| == NumQueues && 0 <= q < NumQueues && |after| == NumQueues && ctl[q].RecursionGuard == 0
    requires var a := AfterRun(ctl[q := ctl[q].(RecursionGuard := 1)], q, tasks, returned, effect);
      after[q] == a[q] && after[1 - q] == a[1 - q]
    ensures after[q := after[q].(RecursionGuard := 0)] == AfterRun(ctl, q, tasks, returned, effect)
  {
    AfterRunGuard(ctl, q, tasks, returned, effect, 1);
    var a := AfterRun(ctl, q, tasks, returned, effect);
    var r := after[q := after[q].(RecursionGuard := 0)];
    assert r[q] == a[q] && r[1 - q] == a[1 - q];
  }

  /** The decision after a run: why the loop stopped. */
  function Ending(returned: bool, allowStall: bool, signalled: bool): DrainOutcome
  {
    if returned then ReturnRequested
    else if !allowStall then Idle
    else if signalled then ShutDown
    else Parked
  }

  /**
   * A named thread's stalling queue: two priorities, and only slot 0 (the
   * thread itself) ever parks on it.
   */
  ghost predicate OwnStallQueue(sq: StallingTaskQueue)
    reads sq
  {
    sq.Valid() && sq.NumPriorities == 2 && Stalled(GetPtr(sq.MasterState)) <= {0}
  }

  class NamedTaskThread {
    /** ThreadId, as Setup records it. */
    const ThreadId: Code
    /** The stalling queue of each of the two queues. */
    const StallQueues: seq<StallingTaskQueue>
    /** The rest of each queue's state. */
    var Queues: seq<QueueControl>
    /** The tasks executed so far, each with the code passed to it. */
    var Executed: seq<(nat, Code)>

    ghost predicate Valid()
      reads this, StallQueues
    {
      |StallQueues| == NumQueues && |Queues| == NumQueues &&
      StallQueues[0] != StallQueues[1] &&
      OwnStallQueue(StallQueues[0]) && OwnStallQueue(StallQueues[1])
    }

    /**
     * Construction and Setup: both queues empty and open, events created
     * untriggered, no processing under way.
     */
    constructor(threadId: Code)
      requires threadId < 0x8000_0000
      ensures Valid() && ThreadId == threadId && Executed == []
      ensures forall i :: 0 <= i < NumQueues ==> Queues[i] == QueueControl(0, false, false, true, false)
      ensures forall i :: 0 <= i < NumQueues ==> fresh(StallQueues[i]) && StallQueues[i].Queues == [[], []]
      ensures forall i :: 0 <= i < NumQueues ==> Stalled(GetPtr(StallQueues[i].MasterState)) == {}
    {
      ThreadId := threadId;
      var main := new StallingTaskQueue(2);
      var local := new StallingTaskQueue(2);
      StallQueues := [main, local];
      Queues := [QueueControl(0, false, false, true, false), QueueControl(0, false, false, true, false)];
      Executed := [];
    }

    /** IsProcessingTasks: the queue's recursion guard is non-zero. */
    function IsProcessingTasks(q: int): (r: bool)
      requires Valid() && 0 <= q < NumQueues
      reads this, StallQueues
      ensures r <==> Queues[q].RecursionGuard != 0
    {
      Queues[q].RecursionGuard != 0
    }

    /**
     * RequestQuit: nothing once queue 0 has no event; -1 asks both queues to
     * shut down and signals both events; a queue index asks that queue to
     * return.
     */
    method RequestQuit(q: int)
      requires Valid()
      requires Queues[0].HasEvent ==>
        (q == -1 && Queues[1].HasEvent) || (0 <= q < NumQueues && Queues[q].HasEvent)
      modifies this`Queues
      ensures Valid()
      ensures !old(Queues[0].HasEvent) ==> Queues == old(Queues)
      ensures old(Queues[0].HasEvent) && q == -1 ==> Queues == ShutdownAll(old(Queues))
      ensures old(Queues[0].HasEvent) && q != -1 ==> Queues == old(Queues)[q := old(Queues[q]).(QuitForReturn := true)]
    {
      if !Queues[0].HasEvent {
        return;
      }
      if q == -1 {
        Queues := ShutdownAll(Queues);
      } else {
        Queues := Queues[q := Queues[q].(QuitForReturn := true)];
      }
    }

    /** Execute a task popped from queue q and apply its quit request. */
    method Execute(task: nat, q: int, effect: nat -> TaskEffect)
      requires Valid() && 0 <= q < NumQueues && Queues[0].HasEvent && Queues[1].HasEvent
      modifies this`Queues, this`Executed
      ensures Valid()
      ensures Executed == old(Executed) + [(task, QueueCode(ThreadId, q))]
      ensures Queues == AfterTask(old(Queues), q, effect(task))
    {
      Executed := Executed + [(task, QueueCode(ThreadId, q))];
      match effect(task)
      case Runs =>
      case RequestsReturn => RequestQuit(q);
      case RequestsShutdown => RequestQuit(-1);
    }

    /**
     * EnqueueFromThisThread: push onto the high (0) or normal (1) priority
     * FIFO by the task's priority bit.  The thread itself is running, so its
     * stall bit is clear and no thread is reported to wake.
     */
    method EnqueueFromThisThread(q: int, task: nat, threadToExecuteOn: Code)
      requires Valid() && 0 <= q < NumQueues && task != 0 && Queues[q].HasEvent
      requires 0 !in Stalled(GetPtr(StallQueues[q].MasterState))
      modifies StallQueues[q]
      ensures Valid()
      ensures var p := StallPriority(threadToExecuteOn);
        StallQueues[q].Queues == old(StallQueues[q].Queues)[p := old(StallQueues[q].Queues)[p] + [task]]
      ensures GetPtr(StallQueues[q].MasterState) == GetPtr(old(StallQueues[q].MasterState))
    {
      assert Stalled(GetPtr(StallQueues[q].MasterState)) == {};
      var threadToStart := StallQueues[q].Push(task, StallPriority(threadToExecuteOn));
      assert threadToStart != 0;
    }

    /**
     * EnqueueFromOtherThread: push as above; when the push reports the
     * stalled thread (slot 0), signal the queue's restart event and return
     * true, otherwise return false.
     */
    method EnqueueFromOtherThread(q: int, task: nat, threadToExecuteOn: Code) returns (woke: bool)
      requires Valid() && 0 <= q < NumQueues && task != 0 && Queues[q].HasEvent
      modifies StallQueues[q], this`Queues
      ensures Valid()
      ensures var p := StallPriority(threadToExecuteOn);
        StallQueues[q].Queues == old(StallQueues[q].Queues)[p := old(StallQueues[q].Queues)[p] + [task]]
      ensures woke <==> 0 in old(Stalled(GetPtr(StallQueues[q].MasterState)))
      ensures Stalled(GetPtr(StallQueues[q].MasterState)) == {}
      ensures Queues == if woke then old(Queues)[q := old(Queues[q]).(EventTriggered := true)] else old(Queues)
    {
      ghost var stalled := Stalled(GetPtr(StallQueues[q].MasterState));
      var threadToStart := StallQueues[q].Push(task, StallPriority(threadToExecuteOn));
      if threadToStart >= 0 {
        assert threadToStart in stalled;
        assert threadToStart == 0;
        Queues := Queues[q := Queues[q].(EventTriggered := true)];
        woke := true;
      } else {
        assert stalled == {};
        woke := false;
      }
    }

    /**
     * One pass of the processing loop: pop from queue q with slot 0 and, when
     * a task comes back, execute it with the queue's code.
     */
    method PopAndExecute(q: int, allowStall: bool, supportsMultithreading: bool, effect: nat -> TaskEffect)
      returns (task: nat)
      requires Valid() && 0 <= q < NumQueues && Queues[0].HasEvent && Queues[1].HasEvent
      requires supportsMultithreading ==> 0 !in Stalled(GetPtr(StallQueues[q].MasterState))
      modifies this`Queues, this`Executed, StallQueues[q]
      ensures Valid()
      ensures (if task == 0 then [] else [task], StallQueues[q].Queues) == Scan(old(StallQueues[q].Queues), 0)
      ensures task != 0 ==> Executed == old(Executed) + [(task, QueueCode(ThreadId, q))]
      ensures task != 0 ==> Queues == AfterTask(old(Queues), q, effect(task))
      ensures task == 0 ==> Executed == old(Executed) && Queues == old(Queues)
      ensures task == 0 && allowStall ==> Stalled(GetPtr(StallQueues[q].MasterState)) == {0}
      ensures task != 0 || !allowStall ==>
        GetPtr(StallQueues[q].MasterState) == GetPtr(old(StallQueues[q].MasterState))
    {
      task := StallQueues[q].Pop(0, allowStall, supportsMultithreading);
      if task != 0 {
        Execute(task, q, effect);
      }
    }

    /**
     * The bookkeeping of a drain of queue q that started from contents qs0,
     * control state ctl0 and log log0 and has executed `done` so far.
     */
    ghost predicate Drained(q: int, qs0: seq<seq<nat>>, ctl0: seq<QueueControl>, log0: seq<(nat, Code)>,
                            done: seq<nat>, effect: nat -> TaskEffect)
      requires 0 <= q < NumQueues && |ctl0| == NumQueues
      requires |StallQueues| == NumQueues && |Queues| == NumQueues
      reads this, StallQueues
    {
      Executed == log0 + Tagged(done, QueueCode(ThreadId, q)) &&
      Queues == AfterRun(ctl0, q, done, Queues[q].QuitForReturn, effect) &&
      (!Queues[q].QuitForReturn ==> DrainSpec(qs0, effect) == Prefixed(done, DrainSpec(StallQueues[q].Queues, effect))) &&
      (Queues[q].QuitForReturn ==> DrainSpec(qs0, effect) == (done, StallQueues[q].Queues, true))
    }

    /**
     * One pass of the processing loop with its bookkeeping: the popped task
     * is the drain's next one; a pop that finds nothing ends the drain.
     */
    method DrainStep(q: int, allowStall: bool, supportsMultithreading: bool, effect: nat -> TaskEffect,
                     ghost qs0: seq<seq<nat>>, ghost ctl0: seq<QueueControl>, ghost log0: seq<(nat, Code)>,
                     ghost done: seq<nat>)
      returns (task: nat)
      requires Valid() && 0 <= q < NumQueues && |ctl0| == NumQueues
      requires Queues[0].HasEvent && Queues[1].HasEvent && !Queues[q].QuitForReturn
      requires supportsMultithreading ==> 0 !in Stalled(GetPtr(StallQueues[q].MasterState))
      requires Drained(q, qs0, ctl0, log0, done, effect)
      requires allowStall && Queues[q].EventTriggered ==> Queues[q].QuitForShutdown
      modifies this`Queues, this`Executed, StallQueues[q]
      ensures Valid() && Queues[0].HasEvent && Queues[1].HasEvent
      ensures allowStall && Queues[q].EventTriggered ==> Queues[q].QuitForShutdown
      ensures task != 0 ==> Drained(q, qs0, ctl0, log0, done + [task], effect)
      ensures task != 0 ==> Size(StallQueues[q].Queues) < old(Size(StallQueues[q].Queues))
      ensures task != 0 || !allowStall ==>
        GetPtr(StallQueues[q].MasterState) == GetPtr(old(StallQueues[q].MasterState))
      ensures task == 0 ==> Executed == old(Executed) && Queues == old(Queues)
      ensures task == 0 ==> DrainSpec(qs0, effect) == (done, StallQueues[q].Queues, false)
      ensures task == 0 && allowStall ==> Stalled(GetPtr(StallQueues[q].MasterState)) == {0}
    {
      ghost var before := StallQueues[q].Queues;
      task := PopAndExecute(q, allowStall, supportsMultithreading, effect);
      ScanShrinks(before, 0);
      if task == 0 {
        DrainFinish(DrainSpec(qs0, effect), done, before, effect);
      } else {
        DrainedStep(qs0, ctl0, done, effect, q, before, StallQueues[q].Queues, task, old(Queues));
        AfterTaskKeeps(old(Queues), q, effect(task), 0);
        AfterTaskKeeps(old(Queues), q, effect(task), 1);
        AfterTaskKeeps(old(Queues), q, effect(task), q);
        TaggedSnoc(log0, done, task, QueueCode(ThreadId, q));
      }
    }

    /**
     * The processing loop of ProcessTasksNamedThread up to the wait: while
     * the queue is not asked to return, pop with slot 0 and execute; stop at
     * the first pop that finds nothing (which, when stalling is allowed, has
     * set the thread's stall bit).
     */
    method DrainQueue(q: int, allowStall: bool, supportsMultithreading: bool, effect: nat -> TaskEffect)
      requires Valid() && 0 <= q < NumQueues && Queues[0].HasEvent && Queues[1].HasEvent
      requires supportsMultithreading ==> 0 !in Stalled(GetPtr(StallQueues[q].MasterState))
      requires !Queues[q].QuitForReturn
      requires allowStall && Queues[q].EventTriggered ==> Queues[q].QuitForShutdown
      modifies this`Queues, this`Executed, StallQueues[q]
      ensures Valid() && Queues[0].HasEvent && Queues[1].HasEvent
      ensures var d := DrainSpec(old(StallQueues[q].Queues), effect);
        Executed == old(Executed) + Tagged(d.0, QueueCode(ThreadId, q)) && StallQueues[q].Queues == d.1 &&
        Queues == AfterRun(old(Queues), q, d.0, d.2, effect) && Queues[q].QuitForReturn == d.2
      ensures allowStall && Queues[q].EventTriggered ==> Queues[q].QuitForShutdown
      ensures !Queues[q].QuitForReturn && allowStall ==> Stalled(GetPtr(StallQueues[q].MasterState)) == {0}
      ensures Queues[q].QuitForReturn || !allowStall ==>
        GetPtr(StallQueues[q].MasterState) == GetPtr(old(StallQueues[q].MasterState))
    {
      ghost var qs0 := StallQueues[q].Queues;
      ghost var ctl0 := Queues;
      ghost var ptr0 := GetPtr(StallQueues[q].MasterState);
      ghost var done: seq<nat> := [];
      assert Tagged(done, QueueCode(ThreadId, q)) == [];
      assert DrainSpec(qs0, effect) == Prefixed(done, DrainSpec(qs0, effect)) by {
        assert [] + DrainSpec(qs0, effect).0 == DrainSpec(qs0, effect).0;
      }
      while !Queues[q].QuitForReturn
        invariant Valid() && Queues[0].HasEvent && Queues[1].HasEvent
        invariant Drained(q, qs0, ctl0, old(Executed), done, effect)
        invariant GetPtr(StallQueues[q].MasterState) == ptr0
        invariant allowStall && Queues[q].EventTriggered ==> Queues[q].QuitForShutdown
        decreases Size(StallQueues[q].Queues)
      {
        var task := DrainStep(q, allowStall, supportsMultithreading, effect, qs0, ctl0, old(Executed), done);
        if task == 0 {
          return;
        }
        done := done + [task];
      }
    }

    /**
     * ProcessTasksNamedThread: run the processing loop; when it stops on an
     * empty queue with stalling allowed, wait on the restart event: a signal
     * is consumed and, being a shutdown, ends the run (ShutDown); no signal
     * blocks the thread (Parked).
     */
    method ProcessTasksNamedThread(q: int, allowStall: bool, supportsMultithreading: bool, effect: nat -> TaskEffect)
      returns (outcome: DrainOutcome)
      requires Valid() && 0 <= q < NumQueues && Queues[0].HasEvent && Queues[1].HasEvent
      requires supportsMultithreading ==> 0 !in Stalled(GetPtr(StallQueues[q].MasterState))
      requires allowStall && Queues[q].EventTriggered ==> Queues[q].QuitForShutdown
      modifies this`Queues, this`Executed, StallQueues[q]
      ensures Valid()
      ensures old(Queues[q].QuitForReturn) ==>
        outcome == ReturnRequested && Queues == old(Queues) && Executed == old(Executed) &&
        StallQueues[q].Queues == old(StallQueues[q].Queues)
      ensures !old(Queues[q].QuitForReturn) ==> var d := DrainSpec(old(StallQueues[q].Queues), effect);
        Executed == old(Executed) + Tagged(d.0, QueueCode(ThreadId, q)) && StallQueues[q].Queues == d.1
      ensures !old(Queues[q].QuitForReturn) ==> var d := DrainSpec(old(StallQueues[q].Queues), effect);
        var ctl := AfterRun(old(Queues), q, d.0, d.2, effect);
        outcome == Ending(d.2, allowStall, ctl[q].EventTriggered) &&
        Queues[1 - q] == ctl[1 - q] &&
        Queues[q] == ctl[q].(EventTriggered := ctl[q].EventTriggered && (d.2 || !allowStall))
      ensures outcome == ShutDown || outcome == Parked ==> Stalled(GetPtr(StallQueues[q].MasterState)) == {0}
      ensures outcome == ReturnRequested || outcome == Idle ==>
        GetPtr(StallQueues[q].MasterState) == GetPtr(old(StallQueues[q].MasterState))
    {
      if Queues[q].QuitForReturn {
        return ReturnRequested;
      }
      DrainQueue(q, allowStall, supportsMultithreading, effect);
      if Queues[q].QuitForReturn {
        outcome := ReturnRequested;
      } else if !allowStall {
        outcome := Idle;
      } else if Queues[q].EventTriggered {
        // The wait consumes the signal; only a shutdown signals a running queue.
        Queues := Queues[q := Queues[q].(EventTriggered := false)];
        outcome := ShutDown;
      } else {
        outcome := Parked;
      }
    }

    /**
     * ProcessTasksUntilIdle: clear the return request, raise the recursion
     * guard, drain without stalling, lower the guard.
     */
    method ProcessTasksUntilIdle(q: int, supportsMultithreading: bool, effect: nat -> TaskEffect)
      requires Valid() && 0 <= q < NumQueues && Queues[0].HasEvent && Queues[1].HasEvent
      requires Queues[q].RecursionGuard == 0
      requires supportsMultithreading ==> 0 !in Stalled(GetPtr(StallQueues[q].MasterState))
      modifies this`Queues, this`Executed, StallQueues[q]
      ensures Valid() && !IsProcessingTasks(q)
      ensures var d := DrainSpec(old(StallQueues[q].Queues), effect);
        Executed == old(Executed) + Tagged(d.0, QueueCode(ThreadId, q)) && StallQueues[q].Queues == d.1 &&
        Queues == AfterRun(old(Queues)[q := old(Queues[q]).(QuitForReturn := false)], q, d.0, d.2, effect)
      ensures GetPtr(StallQueues[q].MasterState) == GetPtr(old(StallQueues[q].MasterState))
    {
      ghost var d := DrainSpec(StallQueues[q].Queues, effect);
      ghost var log0 := Executed;
      Queues := Queues[q := Queues[q].(QuitForReturn := false)];
      ghost var ctl0 := Queues;
      Queues := Queues[q := Queues[q].(RecursionGuard := 1)];
      var outcome := ProcessTasksNamedThread(q, false, supportsMultithreading, effect);
      assert Executed == log0 + Tagged(d.0, QueueCode(ThreadId, q)) && StallQueues[q].Queues == d.1;
      IdleRunGuard(ctl0, q, d.0, d.2, effect, Queues);
      Queues := Queues[q := Queues[q].(RecursionGuard := 0)];
    }

    /**
     * ProcessTasksUntilQuit: clear the return request, raise the recursion
     * guard and run the processing loop, stalling when multithreading is
     * supported.  The do-while repeats while neither quit flag is set and
     * multithreading is supported; after every run that does not leave the
     * thread blocked that condition is false, so the loop makes one pass.
     * A blocked thread keeps its guard raised.
     */
    method ProcessTasksUntilQuit(q: int, supportsMultithreading: bool, effect: nat -> TaskEffect)
      returns (outcome: DrainOutcome)
      requires Valid() && 0 <= q < NumQueues && Queues[0].HasEvent && Queues[1].HasEvent
      requires Queues[q].RecursionGuard == 0
      requires supportsMultithreading ==> 0 !in Stalled(GetPtr(StallQueues[q].MasterState))
      requires supportsMultithreading && Queues[q].EventTriggered ==> Queues[q].QuitForShutdown
      modifies this`Queues, this`Executed, StallQueues[q]
      ensures Valid()
      ensures outcome != Parked ==>
        Queues[q].QuitForReturn || Queues[q].QuitForShutdown || !supportsMultithreading
      ensures IsProcessingTasks(q) <==> outcome == Parked
      ensures outcome == Parked ==> Stalled(GetPtr(StallQueues[q].MasterState)) == {0}
      ensures var d := DrainSpec(old(StallQueues[q].Queues), effect);
        Executed == old(Executed) + Tagged(d.0, QueueCode(ThreadId, q)) && StallQueues[q].Queues == d.1
      ensures var d := DrainSpec(old(StallQueues[q].Queues), effect);
        var ctl := AfterRun(old(Queues)[q := old(Queues[q]).(QuitForReturn := false)], q, d.0, d.2, effect);
        outcome == Ending(d.2, supportsMultithreading, ctl[q].EventTriggered) &&
        Queues[1 - q] == ctl[1 - q] && Queues[q].QuitForReturn == ctl[q].QuitForReturn &&
        Queues[q].QuitForShutdown == ctl[q].QuitForShutdown &&
        Queues[q].EventTriggered == (ctl[q].EventTriggered && (d.2 || !supportsMultithreading))
    {
      ghost var d := DrainSpec(StallQueues[q].Queues, effect);
      ghost var log0 := Executed;
      Queues := Queues[q := Queues[q].(QuitForReturn := false)];
      ghost var a := AfterRun(Queues, q, d.0, d.2, effect);
      AfterRunGuard(Queues, q, d.0, d.2, effect, 1);
      Queues := Queues[q := Queues[q].(RecursionGuard := 1)];
      outcome := ProcessTasksNamedThread(q, supportsMultithreading, supportsMultithreading, effect);
      assert Executed == log0 + Tagged(d.0, QueueCode(ThreadId, q)) && StallQueues[q].Queues == d.1;
      assert Queues[1 - q] == a[1 - q] && Queues[q].QuitForReturn == a[q].QuitForReturn;
      if outcome != Parked {
        Queues := Queues[q := Queues[q].(RecursionGuard := 0)];
      }
    }
  }

  /** The stalling-queue priority of a task: 0 for a high-priority task, else 1. */
  function StallPriority(threadToExecuteOn: Code): (r: nat)
    ensures r < 2
    ensures r == 0 <==> threadToExecuteOn & HighTaskPriority != 0
  {
    if GetTaskPriority(threadToExecuteOn) != 0 then 0 else 1
  }

  /**
   * FTaskThreadAnyThread's queue control: its recursion guard, shutdown
   * flag and the signal of its restart event (which it always has: the
   * event is taken from the pool on construction).
   */
  class AnyTaskThread {
    const PriorityIndex: int
    var RecursionGuard: nat
    var QuitForShutdown: bool
    var EventTriggered: bool

    constructor(priorityIndex: int)
      ensures PriorityIndex == priorityIndex
      ensures RecursionGuard == 0 && !QuitForShutdown && !EventTriggered
    {
      PriorityIndex := priorityIndex;
      RecursionGuard := 0;
      QuitForShutdown := false;
      EventTriggered := false;
    }

    /** RequestQuit: only a negative index is accepted; stop and signal the event. */
    method RequestQuit(q: int)
      requires q < 0
      modifies this
      ensures QuitForShutdown && EventTriggered && RecursionGuard == old(RecursionGuard)
    {
      QuitForShutdown := true;
      EventTriggered := true;
    }

    /** WakeUp: signal the event. */
    method WakeUp()
      modifies this
      ensures EventTriggered && QuitForShutdown == old(QuitForShutdown) && RecursionGuard == old(RecursionGuard)
    {
      EventTriggered := true;
    }

    /** IsProcessingTasks: only queue 0 exists; the guard is non-zero. */
    function IsProcessingTasks(q: int): (r: bool)
      requires q == 0
      reads this
      ensures r <==> RecursionGuard != 0
    {
      RecursionGuard != 0
    }
  }

  /**
   * The compile-time limit on threads: 26 (the link-index width) per
   * priority set for three sets, plus the named threads up to
   * ActualRenderingThread (3).
   */
  const MaxThreads: int := 26 * 3 + 3 + 1
  const MaxThreadPriorities: int := 3

  /**
   * The thread counts of the graph implementation: NumThreads threads, of
   * which the first NumNamedThreads are named and the rest are task threads
   * in NumTaskThreadSets sets of NumTaskThreadsPerSet.
   */
  datatype ThreadLayout = ThreadLayout(
    NumThreads: int, NumNamedThreads: int, NumTaskThreadSets: int, NumTaskThreadsPerSet: int)

  /** Counts that fit the worker array, with every task thread inside one of the sets. */
  predicate WellFormed(l: ThreadLayout)
  {
    0 <= l.NumNamedThreads <= l.NumThreads <= MaxThreads &&
    0 < l.NumTaskThreadsPerSet && 0 <= l.NumTaskThreadSets <= MaxThreadPriorities &&
    l.NumThreads - l.NumNamedThreads <= l.NumTaskThreadSets * l.NumTaskThreadsPerSet
  }

  /** Dividing an index below s groups of d gives a group number below s. */
  lemma DivideBelow(n: int, d: int, s: int)
    requires 0 <= n < s * d && 0 < d
    ensures 0 <= n / d < s && n / d * d <= n < (n / d + 1) * d
  {
    assert n == n / d * d + n % d;
  }

  /**
   * ThreadIndexToPriorityIndex: the set a task thread belongs to; in a
   * well-formed layout it is a valid set, as the source asserts.
   */
  function ThreadIndexToPriorityIndex(l: ThreadLayout, i: int): (r: int)
    requires WellFormed(l) && l.NumNamedThreads <= i < l.NumThreads
    ensures 0 <= r < l.NumTaskThreadSets
    ensures r * l.NumTaskThreadsPerSet <= i - l.NumNamedThreads < (r + 1) * l.NumTaskThreadsPerSet
  {
    DivideBelow(i - l.NumNamedThreads, l.NumTaskThreadsPerSet, l.NumTaskThreadSets);
    (i - l.NumNamedThreads) / l.NumTaskThreadsPerSet
  }

  /**
   * The code of task thread i: its index with its priority set as thread
   * priority and normal task priority; it decodes to exactly those.
   */
  function TaskThreadCode(l: ThreadLayout, i: int): (r: Code)
    requires WellFormed(l) && l.NumNamedThreads <= i < l.NumThreads
    ensures GetThreadIndex(r) == i as Code && GetQueueIndex(r) == 0 && GetTaskPriority(r) == 0
    ensures r & ThreadPriorityMask != ThreadPriorityMask
    ensures GetThreadPriorityIndex(r) == ThreadIndexToPriorityIndex(l, i)
  {
    var p := ThreadIndexToPriorityIndex(l, i);
    assert IsIndexOnly(i as Code);
    SetPrioritiesByIndexDecodes(i as Code, p, false);
    SetPrioritiesByIndex(i as Code, p, false)
  }

  /**
   * GetCurrentThread: AnyThread when the calling thread has no worker
   * record in its TLS slot, a named thread's own index, or a task thread's
   * code.
   */
  function GetCurrentThread(l: ThreadLayout, tlsIndex: Option<int>): (r: Code)
    requires WellFormed(l)
    requires tlsIndex.Some? ==> 0 <= tlsIndex.value < l.NumThreads
    ensures tlsIndex.None? ==> r == AnyThread
    ensures tlsIndex.Some? && tlsIndex.value < l.NumNamedThreads ==>
      IsIndexOnly(r) && GetThreadIndex(r) == tlsIndex.value as Code
    ensures tlsIndex.Some? && tlsIndex.value >= l.NumNamedThreads ==> r == TaskThreadCode(l, tlsIndex.value)
  {
    match tlsIndex
    case None => AnyThread
    case Some(i) =>
      if i < l.NumNamedThreads then i as Code
      else TaskThreadCode(l, i)
  }
}
