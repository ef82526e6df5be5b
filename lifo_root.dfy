/**
 * FLockFreePointerListLIFORoot: a Treiber stack of link indices.  Head is a
 * tagged pointer to the top link; links below it are reached through
 * SingleNext.  Every successful update of Head advances its counter by TABAInc;
 * the bits below TABAInc are a small state the closable list uses.
 *
 * One thread runs each operation to completion, so every compare-and-swap
 * succeeds on its first attempt and the retry loops run once.
 */
module LIFORoots {
  import opened Common
  import opened IndexedPointers
  import opened LinkAllocation
  import opened LinkChains

  class LIFORoot {
    /** The link arena the list threads through. */
    const arena: LinkAllocator
    /** TABAInc. */
    const Inc: nat
    var Head: IndexedPointer
    /** The links on the list, top first. */
    ghost var Nodes: seq<nat>

    ghost predicate Valid()
      reads this, arena
    {
      Inc in Increments &&
      SingleChain(arena.Items, Nodes) &&
      GetPtr(Head) == HeadOf(Nodes)
    }

    /** The constructor resets Head to the null, zero-counter word. */
    constructor (arena: LinkAllocator, inc: nat)
      requires inc in Increments
      ensures this.arena == arena && Inc == inc
      ensures Valid() && Nodes == [] && Head == Init()
    {
      this.arena := arena;
      Inc := inc;
      Head := Init();
      Nodes := [];
    }

    /** Reset: Head back to the zero word; the links on the list are abandoned. */
    method Reset()
      requires Inc in Increments
      modifies this
      ensures Valid() && Nodes == [] && Head == Init()
    {
      Head := Init();
      Nodes := [];
    }

    /** Push: the item becomes the top, its SingleNext the old top. */
    method Push(item: nat)
      requires Valid()
      requires item in arena.Items && 0 < item < MaxLinks && item !in Nodes
      modifies this, arena`Items
      ensures Valid()
      ensures Nodes == [item] + old(Nodes)
      ensures Head == Successor(old(Head), Inc, item)
      ensures arena.Items == old(arena.Items)[item := old(arena.Items)[item].(SingleNext := HeadOf(old(Nodes)))]
      ensures arena.Items.Keys == old(arena.Items).Keys
    {
      var localHead := Head;
      var newHead := Successor(localHead, Inc, item);
      arena.Items := arena.Items[item := arena.Items[item].(SingleNext := GetPtr(localHead))];
      Head := newHead;
      SingleChainFrame(old(arena.Items), arena.Items, Nodes);
      SingleChainCons(arena.Items, item, Nodes);
      Nodes := [item] + Nodes;
    }

    /**
     * PushIf: the callback sees the current state and returns the link to push, or
     * 0 to refuse; a refusal leaves the list untouched and returns false.
     */
    method PushIf(allocateIfOkToPush: nat -> nat) returns (pushed: bool)
      requires Valid() && Inc > 1
      requires var item := allocateIfOkToPush(IndexedPointers.GetState(Head, Inc));
               item == 0 || (item in arena.Items && item < MaxLinks && item !in Nodes)
      modifies this, arena`Items
      ensures Valid()
      ensures var item := allocateIfOkToPush(IndexedPointers.GetState(old(Head), Inc));
              && pushed == (item != 0)
              && (!pushed ==> Head == old(Head) && Nodes == old(Nodes) && arena.Items == old(arena.Items))
              && (pushed ==> Nodes == [item] + old(Nodes) && Head == Successor(old(Head), Inc, item)
                             && arena.Items == old(arena.Items)[item := old(arena.Items)[item].(SingleNext := HeadOf(old(Nodes)))])
    {
      var localHead := Head;
      var localState := IndexedPointers.GetState(localHead, Inc);
      var item := allocateIfOkToPush(localState);
      if item == 0 {
        return false;
      }
      var newHead := Successor(localHead, Inc, item);
      arena.Items := arena.Items[item := arena.Items[item].(SingleNext := GetPtr(localHead))];
      Head := newHead;
      SingleChainFrame(old(arena.Items), arena.Items, Nodes);
      SingleChainCons(arena.Items, item, Nodes);
      Nodes := [item] + Nodes;
      pushed := true;
    }

    /**
     * Pop: the top link, unlinked and with SingleNext cleared; 0 on an empty list,
     * which leaves Head as it was.
     */
    method Pop() returns (item: nat)
      requires Valid()
      modifies this, arena`Items
      ensures Valid()
      ensures item == 0 <==> old(Nodes) == []
      ensures old(Nodes) == [] ==> item == 0 && Head == old(Head) && Nodes == [] && arena.Items == old(arena.Items)
      ensures old(Nodes) != [] ==>
                && item == old(Nodes)[0] && item in old(arena.Items) && Nodes == old(Nodes)[1..]
                && Head == Successor(old(Head), Inc, HeadOf(Nodes))
                && arena.Items == old(arena.Items)[item := old(arena.Items)[item].(SingleNext := 0)]
      ensures arena.Items.Keys == old(arena.Items).Keys
    {
      var localHead := Head;
      item := GetPtr(localHead);
      InArenaHead(arena.Items, Nodes);
      if item == 0 {
        return;
      }
      SingleChainTail(arena.Items, Nodes);
      InArenaHead(arena.Items, Nodes[1..]);
      var itemP := arena.Items[item];
      var newHead := Successor(localHead, Inc, itemP.SingleNext);
      Head := newHead;
      arena.Items := arena.Items[item := itemP.(SingleNext := 0)];
      Nodes := Nodes[1..];
      SingleChainFrame(old(arena.Items), arena.Items, Nodes);
    }

    /**
     * PopAll: detaches the whole chain and returns its top; the links keep their
     * SingleNext, so the caller can walk them.  An empty list is left as it was.
     */
    method PopAll() returns (item: nat)
      requires Valid()
      modifies this
      ensures Valid()
      ensures item == HeadOf(old(Nodes)) && Nodes == []
      ensures old(Nodes) == [] ==> Head == old(Head)
      ensures old(Nodes) != [] ==> Head == Successor(old(Head), Inc, 0)
    {
      var localHead := Head;
      item := GetPtr(localHead);
      InArenaHead(arena.Items, Nodes);
      if item == 0 {
        return;
      }
      Head := Successor(localHead, Inc, 0);
      Nodes := [];
    }

    /**
     * PopAllAndChangeState: detaches the whole chain (even an empty one), and
     * replaces the state bits with StateChange of the old state.
     */
    method PopAllAndChangeState(stateChange: nat --> nat) returns (item: nat)
      requires Valid() && Inc > 1
      requires stateChange.requires(IndexedPointers.GetState(Head, Inc))
      requires stateChange(IndexedPointers.GetState(Head, Inc)) < Inc
      modifies this
      ensures Valid()
      ensures item == HeadOf(old(Nodes)) && Nodes == [] && GetPtr(Head) == 0
      ensures IndexedPointers.GetState(Head, Inc) == stateChange(IndexedPointers.GetState(old(Head), Inc))
      ensures GetCounterAndState(Head) / Inc == (GetCounterAndState(old(Head)) / Inc + 1) % (TagLimit / Inc)
    {
      var localHead := Head;
      item := GetPtr(localHead);
      var advanced := Successor(localHead, Inc, GetPtr(localHead));
      SuccessorSteps(localHead, Inc, GetPtr(localHead));
      var changed := SetState(advanced, Inc, stateChange(IndexedPointers.GetState(localHead, Inc)));
      Head := SetPtr(changed, 0);
      Nodes := [];
      assert GetCounterAndState(Head) == GetCounterAndState(changed);
      assert GetCounterAndState(changed) / Inc == GetCounterAndState(advanced) / Inc;
    }

    /** IsEmpty: the head index is null exactly when no link is on the list. */
    function IsEmpty(): (r: bool)
      reads this, arena
      requires Valid()
      ensures r <==> Nodes == []
    {
      InArenaHead(arena.Items, Nodes);
      GetPtr(Head) == 0
    }

    /** GetState: the state bits of Head. */
    function GetState(): (r: nat)
      reads this
      requires Inc in Increments
      ensures r < Inc
    {
      IndexedPointers.GetState(Head, Inc)
    }
  }
}
