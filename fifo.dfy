/**
 * FLockFreePointerFIFOBase: a Michael-Scott queue of payload pointers over the
 * link arena.  Head and Tail are indexed pointers; the links run from Head to
 * Tail through the index part of DoubleNext, and the link at Head is a dummy
 * whose payload is not part of the queue.  Operations do not interleave, so
 * every compare-and-swap succeeds on its first try and Tail never lags behind
 * the last link.  TLockFreePointerListFIFO forwards Push, Pop, PopAll and
 * IsEmpty to it unchanged.
 */
module FIFOLists {
  import opened Common
  import opened IndexedPointers
  import opened LinkAllocation
  import opened LinkChains
  import opened FreeLinkBundles
  import opened LinkCaches

  /** The payloads before the first null one: what a PopAll loop collects. */
  function PrefixBeforeNull(s: seq<nat>): (r: seq<nat>)
  {
    if s == [] || s[0] == 0 then [] else [s[0]] + PrefixBeforeNull(s[1..])
  }

  /** No payload of s is null. */
  ghost predicate NonNull(s: seq<nat>)
  {
    forall k :: 0 <= k < |s| ==> s[k] != 0
  }

  /**
   * The prefix is exactly the run of non-null payloads: it is a prefix of s,
   * none of it is null, and it stops at the end of s or at a null payload.
   */
  lemma {:induction false} PrefixBeforeNullIsRun(s: seq<nat>)
    ensures var p := PrefixBeforeNull(s);
            && |p| <= |s| && p == s[..|p|] && NonNull(p) && (|p| == |s| || s[|p|] == 0)
  {
    if s != [] && s[0] != 0 {
      PrefixBeforeNullIsRun(s[1..]);
    }
  }

  /** A non-null run stopped by the end of s or by a null payload is the prefix. */
  lemma {:induction false} RunIsPrefixBeforeNull(s: seq<nat>, i: nat)
    requires i <= |s| && NonNull(s[..i]) && (i == |s| || s[i] == 0)
    ensures PrefixBeforeNull(s) == s[..i]
    decreases i
  {
    if i > 0 {
      assert s[..i][0] == s[0];
      assert s[1..][..i - 1] == s[..i][1..];
      RunIsPrefixBeforeNull(s[1..], i - 1);
    }
  }

  /** One more non-null payload collected by the PopAll loop. */
  lemma CollectStep(c: seq<nat>, i: nat, outArray: seq<nat>, out: seq<nat>)
    requires i < |c| && c[i] != 0 && out == outArray + c[..i] && NonNull(c[..i])
    ensures out + [c[i]] == outArray + c[..i + 1] && NonNull(c[..i + 1])
  {
    assert c[..i + 1] == c[..i] + [c[i]];
  }

  class FIFOBase {
    /** The link policy's allocator and TLS cache, shared by every list. */
    const cache: LinkCache
    /** TABAInc: the counter step of Head, Tail and the DoubleNext words. */
    const Inc: nat
    var Head: IndexedPointer
    var Tail: IndexedPointer
    /** The links from the dummy at Head to the last link at Tail. */
    ghost var Nodes: seq<nat>

    ghost predicate Valid()
      reads this, cache, cache.arena, cache.GlobalFreeListBundles
    {
      cache.Valid() && Inc in TagIncrements &&
      Nodes != [] && DoubleChain(cache.arena.Items, Nodes) && Disjoint(Nodes, cache.FreeList()) &&
      GetPtr(Head) == Nodes[0] && GetPtr(Tail) == Nodes[|Nodes| - 1]
    }

    /** The payloads in the queue, oldest first (the dummy's payload is not one). */
    ghost function Contents(): seq<nat>
      reads this, cache.arena
      requires Nodes != []
    {
      Payloads(cache.arena.Items, Nodes[1..])
    }

    /** The constructor: Head and Tail both index a freshly allocated dummy link, counters zero. */
    constructor (cache: LinkCache, inc: nat)
      requires cache.Valid() && cache.CanPop() && inc in TagIncrements
      modifies cache, cache.arena, cache.GlobalFreeListBundles
      ensures Valid() && Contents() == [] && this.cache == cache && Inc == inc
      ensures GetPtr(Head) == GetPtr(Tail) && GetCounterAndState(Head) == 0 && GetCounterAndState(Tail) == 0
      ensures cache.Abstract() == PopSpec(old(cache.Abstract()), old(cache.arena.NextIndex)).1
    {
      this.cache := cache;
      Inc := inc;
      var stub := AllocLockFreeLink(cache, []);
      Head := SetPtr(Init(), stub);
      Tail := SetPtr(Init(), stub);
      Nodes := [stub];
      new;
      assert DistinctAt(Nodes, 0, 0);
      assert InArenaAt(cache.arena.Items, Nodes, 0) && DoubleAt(cache.arena.Items, Nodes, 0);
      assert OutsideAt(Nodes, cache.FreeList(), 0);
    }

    /** Push: the payload's link becomes the new last link; Tail moves to it. */
    method Push(payload: nat)
      requires Valid() && cache.CanPop()
      modifies this, cache, cache.arena, cache.GlobalFreeListBundles
      ensures Valid()
      ensures Contents() == old(Contents()) + [payload]
      ensures cache.Abstract() == PopSpec(old(cache.Abstract()), old(cache.arena.NextIndex)).1
      ensures Head == old(Head) && Tail == Successor(old(Tail), Inc, Nodes[|Nodes| - 1])
      ensures Confines(old(cache.arena.Items), cache.arena.Items, old(cache.FreeList()), cache.FreeList(), old(Nodes))
    {
      ghost var items := cache.arena.Items;
      ghost var free := cache.FreeList();
      var item := NewLink(payload);
      ghost var items' := cache.arena.Items;
      LinkAtTail(item);
      ConfinesWiden(items, items', free, cache.FreeList(), [], Nodes[..|Nodes| - 1]);
      ConfinesTrans(items, items', cache.arena.Items, free, cache.FreeList(), cache.FreeList(), Nodes[..|Nodes| - 1]);
    }

    /** AllocLockFreeLink, then the payload stored in the new link, which is on no list. */
    method NewLink(payload: nat) returns (item: nat)
      requires Valid() && cache.CanPop()
      modifies cache, cache.arena, cache.GlobalFreeListBundles
      ensures Valid() && Contents() == old(Contents())
      ensures (item, cache.Abstract()) == PopSpec(old(cache.Abstract()), old(cache.arena.NextIndex))
      ensures 0 < item < MaxLinks && item in cache.arena.Items && item !in Nodes && item !in cache.FreeList()
      ensures cache.arena.Items[item].Payload == payload && GetPtr(cache.arena.Items[item].DoubleNext) == 0
      ensures item in old(cache.FreeList()) || item !in old(cache.arena.Items)
      ensures Confines(old(cache.arena.Items), cache.arena.Items, old(cache.FreeList()), cache.FreeList(), [])
    {
      ghost var items := cache.arena.Items;
      ghost var free := cache.FreeList();
      item := TakeLink();
      ghost var items' := cache.arena.Items;
      StorePayload(item, payload);
      ConfinesWiden(items, items', free, cache.FreeList(), [], [item]);
      ConfinesTrans(items, items', cache.arena.Items, free, cache.FreeList(), cache.FreeList(), [item]);
      ConfinesNarrow(items, cache.arena.Items, free, cache.FreeList(), [], [item]);
    }

    /** AllocLockFreeLink: a link with a clear record, on no list. */
    method TakeLink() returns (item: nat)
      requires Valid() && cache.CanPop()
      modifies cache, cache.arena, cache.GlobalFreeListBundles
      ensures Valid() && Contents() == old(Contents())
      ensures (item, cache.Abstract()) == PopSpec(old(cache.Abstract()), old(cache.arena.NextIndex))
      ensures 0 < item < MaxLinks && item in cache.arena.Items && item !in Nodes && item !in cache.FreeList()
      ensures GetPtr(cache.arena.Items[item].DoubleNext) == 0
      ensures item in old(cache.FreeList()) || item !in old(cache.arena.Items)
      ensures Confines(old(cache.arena.Items), cache.arena.Items, old(cache.FreeList()), cache.FreeList(), [])
    {
      ghost var items := cache.arena.Items;
      item := AllocLockFreeLink(cache, Nodes);
      DoubleChainFrame(items, cache.arena.Items, Nodes);
      DoubleChainTail(items, Nodes);
      SameLinksTail(items, cache.arena.Items, Nodes);
      PayloadsFrame(items, cache.arena.Items, Nodes[1..]);
    }

    /** DerefLink(Item)->Payload = InPayload on a link on no list. */
    method StorePayload(item: nat, payload: nat)
      requires Valid() && item in cache.arena.Items && item !in Nodes && item !in cache.FreeList()
      modifies cache.arena`Items
      ensures Valid() && Contents() == old(Contents())
      ensures cache.arena.Items == old(cache.arena.Items)[item := old(cache.arena.Items)[item].(Payload := payload)]
      ensures Confines(old(cache.arena.Items), cache.arena.Items, old(cache.FreeList()), cache.FreeList(), [item])
    {
      ghost var items := cache.arena.Items;
      var itemP := cache.arena.Items[item];
      cache.arena.Items := cache.arena.Items[item := itemP.(Payload := payload)];
      WriteKeepsInv(items, item, cache.arena.Items[item], cache.Tls, cache.Abstract(), cache.GlobalFreeListBundles.Nodes);
      SameLinksUpdate(items, item, cache.arena.Items[item], Nodes);
      DoubleChainFrame(items, cache.arena.Items, Nodes);
      DoubleChainTail(items, Nodes);
      SameLinksTail(items, cache.arena.Items, Nodes);
      PayloadsFrame(items, cache.arena.Items, Nodes[1..]);
      ConfinesUpdate(items, cache.arena.Items, cache.FreeList(), cache.FreeList(), [item], item);
    }

    /**
     * The rest of Push: the last link's DoubleNext (counter advanced) indexes the
     * new link, then Tail (counter advanced) does.
     */
    method LinkAtTail(item: nat)
      requires Valid()
      requires 0 < item < MaxLinks && item in cache.arena.Items && item !in Nodes && item !in cache.FreeList()
      requires GetPtr(cache.arena.Items[item].DoubleNext) == 0
      modifies this, cache.arena`Items
      ensures Valid() && Nodes == old(Nodes) + [item]
      ensures Contents() == old(Contents()) + [old(cache.arena.Items)[item].Payload]
      ensures Head == old(Head) && Tail == Successor(old(Tail), Inc, item)
      ensures Confines(old(cache.arena.Items), cache.arena.Items, old(cache.FreeList()), cache.FreeList(), old(Nodes))
    {
      ghost var items := cache.arena.Items;
      var localTail := Tail;
      DoubleChainLast(items, Nodes);
      var localTailP := cache.arena.Items[GetPtr(localTail)];
      var newNext := Successor(localTailP.DoubleNext, Inc, item);
      cache.arena.Items := cache.arena.Items[GetPtr(localTail) := localTailP.(DoubleNext := newNext)];
      DisjointElem(Nodes, cache.FreeList(), GetPtr(localTail)) by {
        assert Nodes[|Nodes| - 1] in Nodes;
      }
      WriteKeepsInv(items, GetPtr(localTail), cache.arena.Items[GetPtr(localTail)], cache.Tls, cache.Abstract(), cache.GlobalFreeListBundles.Nodes);
      DoubleChainSnoc(items, Nodes, item, cache.arena.Items[GetPtr(localTail)]);
      DisjointSnoc(Nodes, item, cache.FreeList());
      PayloadsWrite(items, GetPtr(localTail), cache.arena.Items[GetPtr(localTail)], Nodes[1..] + [item]);
      PayloadsSnoc(items, Nodes[1..], item);
      assert (Nodes + [item])[1..] == Nodes[1..] + [item];
      ConfinesUpdate(items, cache.arena.Items, cache.FreeList(), cache.FreeList(), Nodes, GetPtr(localTail));
      Tail := Successor(localTail, Inc, item);
      Nodes := Nodes + [item];
    }

    /**
     * Pop: null when only the dummy is left; otherwise the first payload, read
     * from the link after the dummy, which becomes the new dummy while the old
     * dummy link goes back to the cache.
     */
    method Pop() returns (result: nat)
      requires Valid()
      modifies this, cache, cache.arena`Items, cache.GlobalFreeListBundles
      ensures Valid()
      ensures old(Contents()) == [] ==>
                && result == 0 && Head == old(Head) && Nodes == old(Nodes)
                && cache.Abstract() == old(cache.Abstract()) && cache.arena.Items == old(cache.arena.Items)
      ensures old(Contents()) != [] ==>
                && result == old(Contents())[0] && Contents() == old(Contents())[1..]
                && Nodes == old(Nodes)[1..] && Head == Successor(old(Head), Inc, old(Nodes)[1])
                && cache.Abstract() == PushSpec(old(cache.Abstract()), old(Nodes)[0])
      ensures Tail == old(Tail)
      ensures Confines(old(cache.arena.Items), cache.arena.Items, old(cache.FreeList()), cache.FreeList(), old(Nodes))
    {
      var localHead := Head;
      var localTail := Tail;
      DoubleChainTail(cache.arena.Items, Nodes);
      var localNext := cache.arena.Items[GetPtr(localHead)].DoubleNext;
      if GetPtr(localHead) == GetPtr(localTail) {
        // Tail never lags behind the last link here, so the dummy has no successor.
        assert |Nodes| == 1 by {
          assert DistinctAt(Nodes, 0, |Nodes| - 1);
        }
        assert GetPtr(localNext) == 0;
        ConfinesSame(cache.arena.Items, cache.FreeList(), Nodes);
        return 0;
      }
      ghost var items := cache.arena.Items;
      ghost var rest := Nodes[1..];
      DoubleChainTail(items, rest);
      result := cache.arena.Items[GetPtr(localNext)].Payload;
      Head := Successor(localHead, Inc, GetPtr(localNext));
      Nodes := rest;
      DisjointTail(old(Nodes), cache.FreeList());
      FreeLockFreeLink(cache, GetPtr(localHead), rest);
      DoubleChainFrame(items, cache.arena.Items, rest);
      SameLinksTail(items, cache.arena.Items, rest);
      PayloadsFrame(items, cache.arena.Items, rest[1..]);
      ConfinesWiden(items, cache.arena.Items, old(cache.FreeList()), cache.FreeList(), [GetPtr(localHead)], old(Nodes));
    }

    /** PopAll: Pop until it yields null, appending each payload. */
    method PopAll(outArray: seq<nat>) returns (out: seq<nat>)
      requires Valid()
      modifies this, cache, cache.arena`Items, cache.GlobalFreeListBundles
      ensures Valid()
      ensures out == outArray + PrefixBeforeNull(old(Contents()))
      ensures |PrefixBeforeNull(old(Contents()))| == |old(Contents())| ==> Contents() == []
      ensures |PrefixBeforeNull(old(Contents()))| < |old(Contents())| ==>
                Contents() == old(Contents())[|PrefixBeforeNull(old(Contents()))| + 1..]
      ensures Confines(old(cache.arena.Items), cache.arena.Items, old(cache.FreeList()), cache.FreeList(), old(Nodes))
    {
      ghost var c := Contents();
      ghost var i := 0;
      ghost var nodes := Nodes;
      out := outArray;
      var item := Pop();
      ghost var k := 0;
      if Nodes != nodes {
        k := 1;
      }
      while item != 0
        invariant Valid() && 0 <= i <= |c|
        invariant out == outArray + c[..i] && NonNull(c[..i])
        invariant i < |c| ==> item == c[i] && Contents() == c[i + 1..]
        invariant i == |c| ==> item == 0 && Contents() == []
        invariant 0 <= k <= |nodes| && Nodes == nodes[k..]
        invariant Confines(old(cache.arena.Items), cache.arena.Items, old(cache.FreeList()), cache.FreeList(), nodes)
        decreases |c| - i
      {
        CollectStep(c, i, outArray, out);
        out := out + [item];
        i := i + 1;
        ghost var items := cache.arena.Items;
        ghost var free := cache.FreeList();
        ghost var n := Nodes;
        item := Pop();
        SuffixWithin(nodes, k);
        ConfinesWiden(items, cache.arena.Items, free, cache.FreeList(), n, nodes);
        ConfinesTrans(old(cache.arena.Items), items, cache.arena.Items, old(cache.FreeList()), free, cache.FreeList(), nodes);
        if Nodes != n {
          assert nodes[k..][1..] == nodes[k + 1..];
          k := k + 1;
        }
        if i < |c| {
          assert c[i..][1..] == c[i + 1..];
        }
      }
      RunIsPrefixBeforeNull(c, i);
    }

    /** IsEmpty: the dummy at Head has no successor. */
    function IsEmpty(): (r: bool)
      reads this, cache, cache.arena, cache.GlobalFreeListBundles
      requires Valid()
      ensures r <==> Contents() == []
    {
      DoubleChainTail(cache.arena.Items, Nodes);
      InArenaHead(cache.arena.Items, Nodes[1..]);
      GetPtr(cache.arena.Items[GetPtr(Head)].DoubleNext) == 0
    }
  }
}
