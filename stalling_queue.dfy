/**
 * The stalling task queue (FStallingTaskQueue): one FIFO per priority plus a
 * master word whose index field is a bit mask of the threads that stalled
 * waiting for work.  Pushing a task clears the lowest stalled thread's bit and
 * names that thread as the one to wake; a thread that finds every queue empty
 * may set its own bit and stall.
 *
 * The FIFOs are held by their contents (one sequence of payloads per
 * priority); how a FIFO keeps its links is FIFOLists.FIFOBase.  Bits of the
 * mask are read and written digit by digit on natural numbers, which is what
 * the source's shifts, AND, OR and complement do on an unsigned word.
 */
module StallingQueues {
  import opened Common
  import opened IndexedPointers

  /** x shifted right by k bits. */
  function Shr(x: nat, k: nat): nat
  {
    if k == 0 then x else Shr(x / 2, k - 1)
  }

  /** TestBit: bit b of the mask is set. */
  function TestBit(x: nat, b: nat): bool
  {
    Shr(x, b) % 2 == 1
  }

  /** TurnOnBit: the mask with bit b set (x | 1 << b). */
  function TurnOnBit(x: nat, b: nat): nat
  {
    if b == 0 then x - x % 2 + 1 else 2 * TurnOnBit(x / 2, b - 1) + x % 2
  }

  /** TurnOffBit: the mask with bit b cleared (x & ~(1 << b)). */
  function TurnOffBit(x: nat, b: nat): nat
  {
    if b == 0 then x - x % 2 else 2 * TurnOffBit(x / 2, b - 1) + x % 2
  }

  /** Shifting one more bit halves. */
  lemma {:induction false} ShrStep(x: nat, k: nat)
    ensures Shr(x, k + 1) == Shr(x, k) / 2
    decreases k
  {
    if k > 0 {
      ShrStep(x / 2, k - 1);
    }
  }

  /** A mask below 2^n has no bit at n or above. */
  lemma {:induction false} ShrBelow(x: nat, n: nat, k: nat)
    requires x < Pow2(n) && n <= k
    ensures Shr(x, k) == 0
    decreases k
  {
    if k > 0 {
      if n > 0 {
        ShrBelow(x / 2, n - 1, k - 1);
      } else {
        ShrBelow(x / 2, 0, k - 1);
      }
    }
  }

  /** Turning bit b on sets bit b and leaves every other bit as it was. */
  lemma {:induction false} TurnOnBitTests(x: nat, b: nat, j: nat)
    ensures TestBit(TurnOnBit(x, b), j) <==> j == b || TestBit(x, j)
    decreases b
  {
    var y := TurnOnBit(x, b);
    if b == 0 {
      if j > 0 {
        assert y / 2 == x / 2;
      }
    } else {
      assert y % 2 == x % 2 && y / 2 == TurnOnBit(x / 2, b - 1);
      if j > 0 {
        TurnOnBitTests(x / 2, b - 1, j - 1);
      }
    }
  }

  /** Turning bit b off clears bit b and leaves every other bit as it was. */
  lemma {:induction false} TurnOffBitTests(x: nat, b: nat, j: nat)
    ensures TestBit(TurnOffBit(x, b), j) <==> j != b && TestBit(x, j)
    decreases b
  {
    var y := TurnOffBit(x, b);
    if b == 0 {
      if j > 0 {
        assert y / 2 == x / 2;
      }
    } else {
      assert y % 2 == x % 2 && y / 2 == TurnOffBit(x / 2, b - 1);
      if j > 0 {
        TurnOffBitTests(x / 2, b - 1, j - 1);
      }
    }
  }

  /** Setting a bit below n keeps a mask below 2^n. */
  lemma {:induction false} TurnOnBitBelow(x: nat, b: nat, n: nat)
    requires x < Pow2(n) && b < n
    ensures TurnOnBit(x, b) < Pow2(n)
    decreases b
  {
    var half := Pow2(n - 1);
    assert Pow2(n) == 2 * half;
    assert x / 2 < half;
    if b > 0 {
      TurnOnBitBelow(x / 2, b - 1, n - 1);
      assert TurnOnBit(x, b) == 2 * TurnOnBit(x / 2, b - 1) + x % 2;
    } else {
      assert TurnOnBit(x, 0) == 2 * (x / 2) + 1;
    }
  }

  /** Clearing a bit never makes a mask larger. */
  lemma {:induction false} TurnOffBitAtMost(x: nat, b: nat)
    ensures TurnOffBit(x, b) <= x
    decreases b
  {
    if b > 0 {
      TurnOffBitAtMost(x / 2, b - 1);
    }
  }

  /** Clearing a bit that was just set restores the mask. */
  lemma {:induction false} TurnOffUndoesTurnOn(x: nat, b: nat)
    requires !TestBit(x, b)
    ensures TurnOffBit(TurnOnBit(x, b), b) == x
    decreases b
  {
    if b > 0 {
      assert TestBit(x, b) == TestBit(x / 2, b - 1);
      TurnOffUndoesTurnOn(x / 2, b - 1);
    }
  }

  lemma MaskWidth()
    ensures Pow2(LinkBits) == MaxLinks
  {
    assert Pow2(13) == 0x2000;
    assert Pow2(20) == 0x10_0000;
  }

  /** The empty mask has no bit set. */
  lemma NoBitInZero(j: nat)
    ensures !TestBit(0, j)
  {
    ShrBelow(0, 0, j);
  }

  /**
   * FindThreadToWake: -1 for an empty mask, otherwise the lowest set bit,
   * found by shifting right until the low bit is one.
   */
  method FindThreadToWake(ptr: nat) returns (r: int)
    requires ptr < MaxLinks
    ensures -1 <= r < LinkBits
    ensures r == -1 <==> ptr == 0
    ensures r >= 0 ==> && TestBit(ptr, r)
    ensures r >= 0 ==> forall j :: 0 <= j < r ==> !TestBit(ptr, j)
  {
    r := -1;
    var test := ptr;
    if test != 0 {
      r := 0;
      MaskWidth();
      while test % 2 == 0
        invariant 0 <= r && test == Shr(ptr, r) && test != 0
        invariant forall j :: 0 <= j < r ==> !TestBit(ptr, j)
        decreases test
      {
        ShrStep(ptr, r);
        test := test / 2;
        r := r + 1;
      }
      if r >= LinkBits {
        ShrBelow(ptr, LinkBits, r);
      }
    }
  }

  /** The threads the mask records as stalled. */
  ghost function Stalled(ptr: nat): set<nat>
  {
    set j | 0 <= j < LinkBits && TestBit(ptr, j)
  }

  /**
   * The priority scan of Pop from priority i on: each FIFO is popped in turn;
   * an empty one yields null and stays empty, a non-empty one loses its head,
   * and the first non-null head ends the scan.  A null payload popped on the
   * way is consumed and the scan goes on.
   */
  function Scan(qs: seq<seq<nat>>, i: nat): (seq<nat>, seq<seq<nat>>)
    requires i <= |qs|
    decreases |qs| - i
  {
    if i == |qs| then ([], qs)
    else if qs[i] == [] then Scan(qs, i + 1)
    else if qs[i][0] != 0 then ([qs[i][0]], qs[i := qs[i][1..]])
    else Scan(qs[i := qs[i][1..]], i + 1)
  }

  /** Every queued payload is a real task. */
  ghost predicate NoNullTasks(qs: seq<seq<nat>>)
  {
    forall i, k :: 0 <= i < |qs| && 0 <= k < |qs[i]| ==> qs[i][k] != 0
  }

  /**
   * With no null payloads queued, the scan takes the head of the first
   * non-empty FIFO (the highest priority with work), and finds nothing
   * exactly when every FIFO from i on is empty.
   */
  lemma {:induction false} ScanTakesFirst(qs: seq<seq<nat>>, i: nat) returns (k: nat)
    requires i <= |qs| && NoNullTasks(qs)
    ensures Scan(qs, i).0 == [] <==> forall j :: i <= j < |qs| ==> qs[j] == []
    ensures Scan(qs, i).0 == [] ==> Scan(qs, i).1 == qs
    ensures Scan(qs, i).0 != [] ==>
      i <= k < |qs| && qs[k] != [] && (forall j :: i <= j < k ==> qs[j] == []) &&
      Scan(qs, i) == ([qs[k][0]], qs[k := qs[k][1..]])
    decreases |qs| - i
  {
    k := i;
    if i == |qs| {
    } else if qs[i] == [] {
      k := ScanTakesFirst(qs, i + 1);
    } else {
      assert qs[i][0] != 0;
      k := i;
    }
  }

  /** The number of queued payloads over all priorities. */
  function Size(qs: seq<seq<nat>>): nat
  {
    if qs == [] then 0 else |qs[0]| + Size(qs[1..])
  }

  /** Replacing one FIFO changes the count by the difference in length. */
  lemma {:induction false} SizeUpdate(qs: seq<seq<nat>>, i: nat, s: seq<nat>)
    requires i < |qs|
    ensures Size(qs[i := s]) + |qs[i]| == Size(qs) + |s|
  {
    if i > 0 {
      assert qs[i := s][1..] == qs[1..][i - 1 := s];
      SizeUpdate(qs[1..], i - 1, s);
    }
  }

  /** A scan never adds payloads, and one that finds a payload removes at least that one. */
  lemma {:induction false} ScanShrinks(qs: seq<seq<nat>>, i: nat)
    requires i <= |qs|
    ensures Size(Scan(qs, i).1) <= Size(qs)
    ensures Scan(qs, i).0 != [] ==> Size(Scan(qs, i).1) < Size(qs)
    ensures |Scan(qs, i).1| == |qs|
    decreases |qs| - i
  {
    if i == |qs| {
    } else if qs[i] == [] {
      ScanShrinks(qs, i + 1);
    } else {
      SizeUpdate(qs, i, qs[i][1..]);
      if qs[i][0] == 0 {
        ScanShrinks(qs[i := qs[i][1..]], i + 1);
      }
    }
  }

  /** All payloads in priority order: every FIFO of priority 0, then of priority 1, and so on. */
  function Flatten(qs: seq<seq<nat>>): seq<nat>
  {
    if qs == [] then [] else qs[0] + Flatten(qs[1..])
  }

  /** Taking the head of the first non-empty FIFO takes the head of the priority order. */
  lemma {:induction false} FlattenPop(qs: seq<seq<nat>>, k: nat)
    requires k < |qs| && qs[k] != [] && forall j :: 0 <= j < k ==> qs[j] == []
    ensures Flatten(qs) == [qs[k][0]] + Flatten(qs[k := qs[k][1..]])
  {
    if k == 0 {
      assert qs[0] == [qs[0][0]] + qs[0][1..];
      assert qs[0 := qs[0][1..]][1..] == qs[1..];
    } else {
      assert qs[k := qs[k][1..]][1..] == qs[1..][k - 1 := qs[k][1..]];
      FlattenPop(qs[1..], k - 1);
    }
  }

  /** FIFOs that are all empty hold nothing. */
  lemma {:induction false} FlattenEmpty(qs: seq<seq<nat>>)
    requires forall j :: 0 <= j < |qs| ==> qs[j] == []
    ensures Flatten(qs) == []
  {
    if qs != [] {
      FlattenEmpty(qs[1..]);
    }
  }

  class StallingTaskQueue {
    /** NumPriorities: the number of priority FIFOs. */
    const NumPriorities: nat
    /** The payloads of PriorityQueues[i], oldest first. */
    var Queues: seq<seq<nat>>
    /** The master word: index field = stalled-thread mask, plus an update counter. */
    var MasterState: IndexedPointer

    ghost predicate Valid()
      reads this
    {
      |Queues| == NumPriorities
    }

    /** The constructor: empty FIFOs, no stalled thread, counter 0. */
    constructor(numPriorities: nat)
      ensures Valid() && NumPriorities == numPriorities
      ensures Queues == seq(numPriorities, _ => [])
      ensures Stalled(GetPtr(MasterState)) == {} && GetCounterAndState(MasterState) == 0
    {
      NumPriorities := numPriorities;
      Queues := seq(numPriorities, _ => []);
      MasterState := Init();
      forall j | 0 <= j < LinkBits ensures !TestBit(0, j) {
        NoBitInZero(j);
      }
    }

    /**
     * Push: queue the payload at its priority, then clear the lowest stalled
     * thread's bit and return that thread (-1 when nobody is stalled).
     */
    method Push(payload: nat, priority: nat) returns (threadToWake: int)
      requires Valid() && priority < NumPriorities
      modifies this
      ensures Valid()
      ensures Queues == old(Queues)[priority := old(Queues)[priority] + [payload]]
      ensures -1 <= threadToWake < LinkBits
      ensures threadToWake == -1 <==> Stalled(GetPtr(old(MasterState))) == {}
      ensures threadToWake >= 0 ==> threadToWake in Stalled(GetPtr(old(MasterState)))
      ensures threadToWake >= 0 ==> forall j :: 0 <= j < threadToWake ==> j !in Stalled(GetPtr(old(MasterState)))
      ensures Stalled(GetPtr(MasterState)) == Stalled(GetPtr(old(MasterState))) - {threadToWake}
      ensures threadToWake == -1 ==> GetPtr(MasterState) == GetPtr(old(MasterState))
      ensures GetCounterAndState(MasterState) == (GetCounterAndState(old(MasterState)) + 1) % TagLimit
    {
      var local := MasterState;
      Queues := Queues[priority := Queues[priority] + [payload]];
      var ptr := GetPtr(local);
      threadToWake := FindThreadToWake(ptr);
      var newPtr := ptr;
      if threadToWake >= 0 {
        MaskWidth();
        TurnOffBitAtMost(ptr, threadToWake);
        newPtr := TurnOffBit(ptr, threadToWake);
        forall j | 0 <= j < LinkBits
          ensures TestBit(newPtr, j) <==> j != threadToWake && TestBit(ptr, j)
        {
          TurnOffBitTests(ptr, threadToWake, j);
        }
        assert threadToWake in Stalled(ptr);
      } else {
        forall j | 0 <= j < LinkBits ensures !TestBit(ptr, j) {
          NoBitInZero(j);
        }
        assert Stalled(ptr) == {};
      }
      MasterState := Successor(local, 1, newPtr);
      SuccessorSteps(local, 1, newPtr);
    }

    /**
     * Pop: scan the FIFOs from the highest priority (index 0) and return the
     * first non-null payload, advancing the counter.  When the scan finds
     * nothing, return null; if stalling is allowed, the calling thread's bit
     * is set first.  A thread must not ask for work while marked stalled.
     */
    method Pop(myThread: nat, allowStall: bool, supportsMultithreading: bool) returns (result: nat)
      requires Valid() && myThread < LinkBits
      requires supportsMultithreading ==> myThread !in Stalled(GetPtr(MasterState))
      modifies this
      ensures Valid()
      ensures (if result == 0 then [] else [result], Queues) == Scan(old(Queues), 0)
      ensures result != 0 ==> GetPtr(MasterState) == GetPtr(old(MasterState))
      ensures result == 0 && allowStall ==> Stalled(GetPtr(MasterState)) == Stalled(GetPtr(old(MasterState))) + {myThread}
      ensures result != 0 || allowStall ==>
        GetCounterAndState(MasterState) == (GetCounterAndState(old(MasterState)) + 1) % TagLimit
      ensures result == 0 && !allowStall ==> MasterState == old(MasterState)
    {
      var local := MasterState;
      var ptr := GetPtr(local);
      for index := 0 to NumPriorities
        invariant |Queues| == NumPriorities && MasterState == local
        invariant Scan(Queues, index) == Scan(old(Queues), 0)
      {
        result := 0;
        if Queues[index] != [] {
          result := Queues[index][0];
          Queues := Queues[index := Queues[index][1..]];
        }
        if result != 0 {
          MasterState := Successor(local, 1, ptr);
          SuccessorSteps(local, 1, ptr);
          return;
        }
      }
      result := 0;
      if allowStall {
        MaskWidth();
        TurnOnBitBelow(ptr, myThread, LinkBits);
        var newPtr := TurnOnBit(ptr, myThread);
        forall j | 0 <= j < LinkBits
          ensures TestBit(newPtr, j) <==> j == myThread || TestBit(ptr, j)
        {
          TurnOnBitTests(ptr, myThread, j);
        }
        MasterState := Successor(local, 1, newPtr);
        SuccessorSteps(local, 1, newPtr);
      }
    }
  }
}
