/**
 * ENamedThreads: a thread-and-queue code packs four fields into one word.
 *   bits 0-7    thread index (0xff = any thread)
 *   bit 8       queue index (main 0, local 1)
 *   bit 9       task priority (normal 0, high 1)
 *   bits 10-11  thread priority (normal 0, high 1, background 2)
 * The build without stats support is modelled, so RHIThread is 0.
 */
module NamedThreads {

  type Code = bv32

  const RHIThread: Code := 0
  const AudioThread: Code := 1
  const GameThread: Code := 2
  const ActualRenderingThread: Code := GameThread + 1
  const AnyThread: Code := 0xff

  const MainQueue: Code := 0x000
  const LocalQueue: Code := 0x100
  const NumQueues: int := 2

  const ThreadIndexMask: Code := 0xff
  const QueueIndexMask: Code := 0x100
  const QueueIndexShift: nat := 8

  const NormalTaskPriority: Code := 0x000
  const HighTaskPriority: Code := 0x200
  const NumTaskPriorities: int := 2
  const TaskPriorityMask: Code := 0x200
  const TaskPriorityShift: nat := 9

  const NormalThreadPriority: Code := 0x000
  const HighThreadPriority: Code := 0x400
  const BackgroundThreadPriority: Code := 0x800
  const NumThreadPriorities: int := 3
  const ThreadPriorityMask: Code := 0xC00
  const ThreadPriorityShift: nat := 10

  const GameThreadLocal: Code := GameThread | LocalQueue
  const ActualRenderingThreadLocal: Code := ActualRenderingThread | LocalQueue

  const AnyHiPriThreadNormalTask: Code := AnyThread | HighThreadPriority | NormalTaskPriority
  const AnyHiPriThreadHiPriTask: Code := AnyThread | HighThreadPriority | HighTaskPriority
  const AnyNormalThreadNormalTask: Code := AnyThread | NormalThreadPriority | NormalTaskPriority
  const AnyNormalThreadHiPriTask: Code := AnyThread | NormalThreadPriority | HighTaskPriority
  const AnyBackgroundThreadNormalTask: Code := AnyThread | BackgroundThreadPriority | NormalTaskPriority
  const AnyBackgroundHiPriTask: Code := AnyThread | BackgroundThreadPriority | HighTaskPriority

  /** GetThreadIndex: the low byte, which is AnyThread when it is 0xff. */
  function GetThreadIndex(t: Code): (r: Code)
    ensures r <= ThreadIndexMask
    ensures r == t & ThreadIndexMask
  {
    if t & ThreadIndexMask == AnyThread then AnyThread else t & ThreadIndexMask
  }

  /** GetQueueIndex: bit 8. */
  function GetQueueIndex(t: Code): (r: int)
    ensures r == 0 || r == 1
    ensures r == 1 <==> t & LocalQueue != 0
  {
    ((t & QueueIndexMask) >> QueueIndexShift) as int
  }

  /** GetTaskPriority: bit 9. */
  function GetTaskPriority(t: Code): (r: int)
    ensures r == 0 || r == 1
    ensures r == 1 <==> t & HighTaskPriority != 0
  {
    ((t & TaskPriorityMask) >> TaskPriorityShift) as int
  }

  /**
   * GetThreadPriorityIndex: bits 10-11; the source asserts the result is a
   * valid priority index, i.e. the field is not 3.
   */
  function GetThreadPriorityIndex(t: Code): (r: int)
    requires t & ThreadPriorityMask != ThreadPriorityMask
    ensures 0 <= r < NumThreadPriorities
    ensures r == 0 <==> t & ThreadPriorityMask == NormalThreadPriority
    ensures r == 1 <==> t & ThreadPriorityMask == HighThreadPriority
  {
    ((t & ThreadPriorityMask) >> ThreadPriorityShift) as int
  }

  /** Only the thread-index byte may be set. */
  predicate IsIndexOnly(t: Code)
  {
    t & !ThreadIndexMask == 0
  }

  /**
   * SetPriorities(ThreadAndIndex, PriorityIndex, bHiPri): OR a thread index
   * with a thread priority index and a task priority.
   */
  function SetPrioritiesByIndex(t: Code, priorityIndex: int, hiPri: bool): (r: Code)
    requires IsIndexOnly(t) && 0 <= priorityIndex < NumThreadPriorities
    ensures r & ThreadIndexMask == t
  {
    t | ((priorityIndex as bv32) << ThreadPriorityShift) | (if hiPri then HighTaskPriority else NormalTaskPriority)
  }

  /** A code whose priority field holds a shifted priority index decodes to that index. */
  lemma PriorityFieldDecodes(priorityIndex: int, r: Code)
    requires 0 <= priorityIndex < NumThreadPriorities
    requires r & ThreadPriorityMask == (priorityIndex as bv32) << ThreadPriorityShift
    ensures r & ThreadPriorityMask != ThreadPriorityMask && GetThreadPriorityIndex(r) == priorityIndex
  {
    if priorityIndex == 0 {
      assert priorityIndex as bv32 == 0;
    } else if priorityIndex == 1 {
      assert priorityIndex as bv32 == 1;
    } else {
      assert priorityIndex as bv32 == 2;
    }
  }

  /** Decoding SetPrioritiesByIndex gives back every field it was built from. */
  lemma SetPrioritiesByIndexDecodes(t: Code, priorityIndex: int, hiPri: bool)
    requires IsIndexOnly(t) && 0 <= priorityIndex < NumThreadPriorities
    ensures var r := SetPrioritiesByIndex(t, priorityIndex, hiPri);
      GetThreadIndex(r) == t && GetQueueIndex(r) == 0 &&
      GetTaskPriority(r) == (if hiPri then 1 else 0) &&
      r & ThreadPriorityMask != ThreadPriorityMask &&
      GetThreadPriorityIndex(r) == priorityIndex
  {
    var r := SetPrioritiesByIndex(t, priorityIndex, hiPri);
    ByIndexQueue(t, priorityIndex, hiPri);
    ByIndexTaskPriority(t, priorityIndex, hiPri);
    PriorityFieldDecodes(priorityIndex, r);
  }

  /** SetPrioritiesByIndex never sets the queue bit. */
  lemma ByIndexQueue(t: Code, priorityIndex: int, hiPri: bool)
    requires IsIndexOnly(t) && 0 <= priorityIndex < NumThreadPriorities
    ensures GetQueueIndex(SetPrioritiesByIndex(t, priorityIndex, hiPri)) == 0
  {
  }

  /** SetPrioritiesByIndex sets the task priority bit exactly for bHiPri. */
  lemma ByIndexTaskPriority(t: Code, priorityIndex: int, hiPri: bool)
    requires IsIndexOnly(t) && 0 <= priorityIndex < NumThreadPriorities
    ensures GetTaskPriority(SetPrioritiesByIndex(t, priorityIndex, hiPri)) == (if hiPri then 1 else 0)
  {
  }

  /**
   * The argument check of SetPriorities(ThreadAndIndex, ThreadPriority,
   * TaskPriority) as written: the third clause negates the masked task
   * priority to a truth value and compares that with 0xC00, so it always holds.
   */
  predicate SetPrioritiesCheckAsWritten(t: Code, threadPriority: Code, taskPriority: Code)
  {
    var negated: Code := if taskPriority & TaskPriorityMask == 0 then 1 else 0;
    IsIndexOnly(t) &&
    threadPriority & !ThreadPriorityMask == 0 &&
    negated != ThreadPriorityMask &&
    taskPriority & !TaskPriorityMask == 0
  }

  /**
   * The check as SetThreadPriority states it: the thread priority field must
   * not be 3.
   */
  predicate SetPrioritiesCheck(t: Code, threadPriority: Code, taskPriority: Code)
  {
    IsIndexOnly(t) &&
    threadPriority & !ThreadPriorityMask == 0 &&
    threadPriority & ThreadPriorityMask != ThreadPriorityMask &&
    taskPriority & !TaskPriorityMask == 0
  }

  /**
   * The check as written accepts the invalid thread priority 0xC00, whose
   * code GetThreadPriorityIndex would then decode to 3 and reject.
   */
  lemma SetPrioritiesCheckAdmitsInvalidPriority()
    ensures SetPrioritiesCheckAsWritten(0, 0xC00, 0)
    ensures !SetPrioritiesCheck(0, 0xC00, 0)
    ensures (0 | 0xC00 | 0) & ThreadPriorityMask == ThreadPriorityMask
  {
  }

  /** The intended check is the written one with its third clause repaired. */
  lemma SetPrioritiesCheckStrengthens(t: Code, threadPriority: Code, taskPriority: Code)
    ensures SetPrioritiesCheck(t, threadPriority, taskPriority) ==>
      SetPrioritiesCheckAsWritten(t, threadPriority, taskPriority)
    ensures SetPrioritiesCheckAsWritten(t, threadPriority, taskPriority) ==>
      (SetPrioritiesCheck(t, threadPriority, taskPriority) <==> threadPriority != ThreadPriorityMask)
  {
  }

  /** SetPriorities(ThreadAndIndex, ThreadPriority, TaskPriority) under the intended check. */
  function SetPriorities(t: Code, threadPriority: Code, taskPriority: Code): (r: Code)
    requires SetPrioritiesCheck(t, threadPriority, taskPriority)
    ensures GetThreadIndex(r) == t && GetQueueIndex(r) == 0
    ensures r & ThreadPriorityMask == threadPriority && r & ThreadPriorityMask != ThreadPriorityMask
    ensures GetTaskPriority(r) == (if taskPriority == HighTaskPriority then 1 else 0)
  {
    t | threadPriority | taskPriority
  }

  /** SetThreadPriority: OR a thread priority into an index-only code. */
  function SetThreadPriority(t: Code, threadPriority: Code): (r: Code)
    requires IsIndexOnly(t)
    requires threadPriority & !ThreadPriorityMask == 0
    requires threadPriority & ThreadPriorityMask != ThreadPriorityMask
    ensures GetThreadIndex(r) == t && GetQueueIndex(r) == 0 && GetTaskPriority(r) == 0
    ensures r & ThreadPriorityMask == threadPriority && r & ThreadPriorityMask != ThreadPriorityMask
  {
    t | threadPriority
  }

  /** SetTaskPriority: OR a task priority into an index-only code. */
  function SetTaskPriority(t: Code, taskPriority: Code): (r: Code)
    requires IsIndexOnly(t)
    requires taskPriority & !TaskPriorityMask == 0
    ensures GetThreadIndex(r) == t && GetQueueIndex(r) == 0
    ensures GetTaskPriority(r) == (if taskPriority == HighTaskPriority then 1 else 0)
    ensures r & ThreadPriorityMask == NormalThreadPriority
  {
    t | taskPriority
  }

  /** The local-queue names decode to queue 1 of their thread. */
  lemma LocalNamesDecode()
    ensures GetQueueIndex(GameThreadLocal) == 1 && GetThreadIndex(GameThreadLocal) == GameThread
    ensures GetQueueIndex(ActualRenderingThreadLocal) == 1
    ensures GetThreadIndex(ActualRenderingThreadLocal) == ActualRenderingThread
  {
  }

  /** The any-thread combinations decode to their parts. */
  lemma CombinationsDecode()
    ensures AnyBackgroundHiPriTask == 0xaff && AnyHiPriThreadHiPriTask == 0x6ff
    ensures GetThreadIndex(AnyBackgroundHiPriTask) == AnyThread
    ensures GetThreadPriorityIndex(AnyBackgroundHiPriTask) == 2 && GetTaskPriority(AnyBackgroundHiPriTask) == 1
    ensures GetThreadPriorityIndex(AnyHiPriThreadNormalTask) == 1 && GetTaskPriority(AnyHiPriThreadNormalTask) == 0
    ensures GetThreadPriorityIndex(AnyNormalThreadHiPriTask) == 0 && GetTaskPriority(AnyNormalThreadHiPriTask) == 1
    ensures GetThreadPriorityIndex(AnyBackgroundThreadNormalTask) == 2
    ensures GetThreadPriorityIndex(AnyNormalThreadNormalTask) == 0
  {
  }
}
