/**
 * FLockFreePointerListLIFOBase: a LIFO of payload pointers.  Each payload rides
 * in a link taken from the link cache; the links form a LIFORoot chain through
 * SingleNext.  Popping hands the link back to the cache.  The wrappers
 * TLockFreePointerListLIFOPad, TLockFreePointerListLIFO and
 * TLockFreePointerListUnordered forward Push, Pop, PopAll and IsEmpty to it
 * unchanged.
 */
module LIFOLists {
  import opened Common
  import opened IndexedPointers
  import opened LinkAllocation
  import opened LinkChains
  import opened LIFORoots
  import opened FreeLinkBundles
  import opened LinkCaches

  class LIFOBase {
    /** The link policy's allocator and TLS cache, shared by every list. */
    const cache: LinkCache
    const RootList: LIFORoot

    ghost predicate Valid()
      reads this, cache, cache.arena, cache.GlobalFreeListBundles, RootList
    {
      cache.Valid() && RootList.arena == cache.arena && RootList != cache.GlobalFreeListBundles &&
      RootList.Valid() && Disjoint(RootList.Nodes, cache.FreeList())
    }

    /** The payloads on the list, most recently pushed first. */
    ghost function Contents(): seq<nat>
      reads this, RootList, cache.arena
    {
      Payloads(cache.arena.Items, RootList.Nodes)
    }

    constructor (cache: LinkCache, inc: nat)
      requires cache.Valid() && inc in Increments
      ensures Valid() && this.cache == cache && RootList.Inc == inc && fresh(RootList)
      ensures Contents() == [] && RootList.Head == Init()
    {
      this.cache := cache;
      RootList := new LIFORoot(cache.arena, inc);
    }

    /** Reset: the root goes back to the zero word; links still on the list are abandoned. */
    method Reset()
      requires Valid()
      modifies RootList
      ensures Valid() && Contents() == [] && RootList.Head == Init()
    {
      RootList.Reset();
    }

    /**
     * AllocLockFreeLink followed by storing the payload: a link that was free (or
     * fresh) and is on no list, carrying the payload.  The list is untouched.
     */
    method AllocLink(payload: nat) returns (item: nat)
      requires Valid() && cache.CanPop()
      modifies cache, cache.arena, cache.GlobalFreeListBundles
      ensures Valid() && Contents() == old(Contents()) && RootList.Nodes == old(RootList.Nodes)
      ensures (item, cache.Abstract()) == PopSpec(old(cache.Abstract()), old(cache.arena.NextIndex))
      ensures 0 < item < MaxLinks && item in cache.arena.Items && item !in RootList.Nodes && item !in cache.FreeList()
      ensures cache.arena.Items[item].Payload == payload
      ensures item in old(cache.FreeList()) || item !in old(cache.arena.Items)
      ensures Confines(old(cache.arena.Items), cache.arena.Items, old(cache.FreeList()), cache.FreeList(), [])
    {
      ghost var items := cache.arena.Items;
      ghost var free := cache.FreeList();
      item := TakeLink();
      ghost var items' := cache.arena.Items;
      StorePayload(item, payload);
      ConfinesWiden(items, items', free, cache.FreeList(), [], [item]);
      ConfinesTrans(items, items', cache.arena.Items, free, cache.FreeList(), cache.FreeList(), [item]);
      ConfinesNarrow(items, cache.arena.Items, free, cache.FreeList(), [], [item]);
    }

    /** AllocLockFreeLink: a link from the cache, on no list. */
    method TakeLink() returns (item: nat)
      requires Valid() && cache.CanPop()
      modifies cache, cache.arena, cache.GlobalFreeListBundles
      ensures Valid() && Contents() == old(Contents()) && RootList.Nodes == old(RootList.Nodes)
      ensures (item, cache.Abstract()) == PopSpec(old(cache.Abstract()), old(cache.arena.NextIndex))
      ensures 0 < item < MaxLinks && item in cache.arena.Items && item !in RootList.Nodes && item !in cache.FreeList()
      ensures item in old(cache.FreeList()) || item !in old(cache.arena.Items)
      ensures Confines(old(cache.arena.Items), cache.arena.Items, old(cache.FreeList()), cache.FreeList(), [])
    {
      ghost var items := cache.arena.Items;
      item := AllocLockFreeLink(cache, RootList.Nodes);
      SingleChainFrame(items, cache.arena.Items, RootList.Nodes);
      PayloadsFrame(items, cache.arena.Items, RootList.Nodes);
    }

    /** DerefLink(Item)->Payload = InPayload on a link on no list. */
    method StorePayload(item: nat, payload: nat)
      requires Valid() && item in cache.arena.Items && item !in RootList.Nodes && item !in cache.FreeList()
      modifies cache.arena`Items
      ensures Valid() && Contents() == old(Contents())
      ensures cache.arena.Items == old(cache.arena.Items)[item := old(cache.arena.Items)[item].(Payload := payload)]
      ensures Confines(old(cache.arena.Items), cache.arena.Items, old(cache.FreeList()), cache.FreeList(), [item])
    {
      ghost var items := cache.arena.Items;
      ghost var nodes := RootList.Nodes;
      var itemP := cache.arena.Items[item];
      cache.arena.Items := cache.arena.Items[item := itemP.(Payload := payload)];
      WriteKeepsInv(items, item, cache.arena.Items[item], cache.Tls, cache.Abstract(), cache.GlobalFreeListBundles.Nodes);
      SameLinksUpdate(items, item, cache.arena.Items[item], nodes);
      SingleChainFrame(items, cache.arena.Items, nodes);
      PayloadsFrame(items, cache.arena.Items, nodes);
      ConfinesUpdate(items, cache.arena.Items, cache.FreeList(), cache.FreeList(), [item], item);
    }

    /** Push: the payload's link becomes the top of the list. */
    method Push(payload: nat)
      requires Valid() && cache.CanPop()
      modifies cache, cache.arena, cache.GlobalFreeListBundles, RootList
      ensures Valid()
      ensures Contents() == [payload] + old(Contents())
      ensures cache.Abstract() == PopSpec(old(cache.Abstract()), old(cache.arena.NextIndex)).1
      ensures RootList.Head == Successor(old(RootList.Head), RootList.Inc, HeadOf(RootList.Nodes))
      ensures Confines(old(cache.arena.Items), cache.arena.Items, old(cache.FreeList()), cache.FreeList(), [])
    {
      ghost var items := cache.arena.Items;
      ghost var free := cache.FreeList();
      var item := AllocLink(payload);
      ghost var items' := cache.arena.Items;
      LinkOnList(item);
      ConfinesWiden(items, items', free, cache.FreeList(), [], [item]);
      ConfinesTrans(items, items', cache.arena.Items, free, cache.FreeList(), cache.FreeList(), [item]);
      ConfinesNarrow(items, cache.arena.Items, free, cache.FreeList(), [], [item]);
    }

    /** The final step of Push and PushIf: an allocated link carrying a payload goes on top. */
    method LinkOnList(item: nat)
      requires Valid()
      requires 0 < item < MaxLinks && item in cache.arena.Items && item !in RootList.Nodes && item !in cache.FreeList()
      modifies cache.arena`Items, RootList
      ensures Valid() && RootList.Nodes == [item] + old(RootList.Nodes)
      ensures Contents() == [old(cache.arena.Items)[item].Payload] + old(Contents())
      ensures RootList.Head == Successor(old(RootList.Head), RootList.Inc, item)
      ensures Confines(old(cache.arena.Items), cache.arena.Items, old(cache.FreeList()), cache.FreeList(), [item])
    {
      ghost var items := cache.arena.Items;
      ghost var nodes := RootList.Nodes;
      RootList.Push(item);
      ConfinesUpdate(items, cache.arena.Items, cache.FreeList(), cache.FreeList(), [item], item);
      WriteKeepsInv(items, item, cache.arena.Items[item], cache.Tls, cache.Abstract(), cache.GlobalFreeListBundles.Nodes);
      DisjointCons(item, nodes, cache.FreeList());
      SameLinksUpdate(items, item, cache.arena.Items[item], nodes);
      SingleChainTail(RootList.arena.Items, RootList.Nodes);
      PayloadsFrame(items, cache.arena.Items, nodes);
      assert RootList.Nodes[1..] == nodes;
    }

    /**
     * PushIf: the callback sees the list's state bits; when it refuses, nothing
     * is allocated and false is returned, otherwise the payload is pushed.
     */
    method PushIf(payload: nat, okToPush: nat -> bool) returns (pushed: bool)
      requires Valid() && RootList.Inc > 1 && (okToPush(RootList.GetState()) ==> cache.CanPop())
      modifies cache, cache.arena, cache.GlobalFreeListBundles, RootList
      ensures Valid()
      ensures pushed == okToPush(old(RootList.GetState()))
      ensures RootList.GetState() == old(RootList.GetState())
      ensures pushed ==> Contents() == [payload] + old(Contents())
      ensures pushed ==> cache.Abstract() == PopSpec(old(cache.Abstract()), old(cache.arena.NextIndex)).1
      ensures !pushed ==> Contents() == old(Contents()) && RootList.Head == old(RootList.Head)
      ensures !pushed ==> cache.Abstract() == old(cache.Abstract()) && cache.arena.Items == old(cache.arena.Items)
      ensures Confines(old(cache.arena.Items), cache.arena.Items, old(cache.FreeList()), cache.FreeList(), [])
    {
      ghost var items := cache.arena.Items;
      ghost var free := cache.FreeList();
      var item := 0;
      if okToPush(RootList.GetState()) {
        item := AllocLink(payload);
      }
      ghost var items' := cache.arena.Items;
      pushed := LinkIf(item, okToPush);
      if pushed {
        ConfinesWiden(items, items', free, cache.FreeList(), [], [item]);
        ConfinesTrans(items, items', cache.arena.Items, free, cache.FreeList(), cache.FreeList(), [item]);
        ConfinesNarrow(items, cache.arena.Items, free, cache.FreeList(), [], [item]);
      } else {
        ConfinesSame(items, free, []);
      }
    }

    /**
     * The root's PushIf with the callback AllocateIfOkToPush, once the link (if
     * one was wanted) exists: the link goes on top exactly when okToPush accepts
     * the state bits, and the state bits stay.
     */
    method LinkIf(item: nat, okToPush: nat -> bool) returns (pushed: bool)
      requires Valid() && RootList.Inc > 1
      requires okToPush(RootList.GetState()) ==>
                 0 < item < MaxLinks && item in cache.arena.Items && item !in RootList.Nodes && item !in cache.FreeList()
      modifies cache.arena`Items, RootList
      ensures Valid()
      ensures pushed == okToPush(old(RootList.GetState()))
      ensures RootList.GetState() == old(RootList.GetState())
      ensures pushed ==> Contents() == [old(cache.arena.Items)[item].Payload] + old(Contents())
      ensures !pushed ==> Contents() == old(Contents()) && RootList.Head == old(RootList.Head)
      ensures !pushed ==> cache.arena.Items == old(cache.arena.Items)
      ensures Confines(old(cache.arena.Items), cache.arena.Items, old(cache.FreeList()), cache.FreeList(), [item])
    {
      ghost var items := cache.arena.Items;
      ghost var nodes := RootList.Nodes;
      ghost var head := RootList.Head;
      pushed := RootList.PushIf(state => if okToPush(state) then item else 0);
      if pushed {
        WriteKeepsInv(items, item, cache.arena.Items[item], cache.Tls, cache.Abstract(), cache.GlobalFreeListBundles.Nodes);
        DisjointCons(item, nodes, cache.FreeList());
        SameLinksUpdate(items, item, cache.arena.Items[item], nodes);
        SingleChainTail(RootList.arena.Items, RootList.Nodes);
        PayloadsFrame(items, cache.arena.Items, nodes);
        SuccessorSteps(head, RootList.Inc, item);
        assert RootList.Nodes[1..] == nodes;
        ConfinesUpdate(items, cache.arena.Items, cache.FreeList(), cache.FreeList(), [item], item);
      } else {
        ConfinesSame(items, cache.FreeList(), [item]);
      }
    }

    /** IsEmpty: no payload is on the list. */
    function IsEmpty(): (r: bool)
      reads this, RootList, cache, cache.arena, cache.GlobalFreeListBundles
      requires Valid()
      ensures r <==> Contents() == []
    {
      RootList.IsEmpty()
    }

    /** GetState: the list's state bits (the closed flag of a closable list). */
    function GetState(): (r: nat)
      reads this, RootList
      requires RootList.Inc in Increments
      ensures r < RootList.Inc
    {
      RootList.GetState()
    }

    /** Pop: the top payload, its link handed back to the cache; 0 (null) on an empty list. */
    method Pop() returns (result: nat)
      requires Valid()
      modifies cache, cache.arena`Items, cache.GlobalFreeListBundles, RootList
      ensures Valid()
      ensures old(Contents()) == [] ==> result == 0 && Contents() == [] && cache.Abstract() == old(cache.Abstract())
      ensures old(Contents()) != [] ==> result == old(Contents())[0] && Contents() == old(Contents())[1..]
      ensures old(RootList.Nodes) != [] ==> cache.Abstract() == PushSpec(old(cache.Abstract()), old(RootList.Nodes)[0])
      ensures old(Contents()) == [] ==> cache.arena.Items == old(cache.arena.Items)
      ensures Confines(old(cache.arena.Items), cache.arena.Items, old(cache.FreeList()), cache.FreeList(), old(RootList.Nodes))
    {
      ghost var items0 := cache.arena.Items;
      ghost var nodes := RootList.Nodes;
      var item := UnlinkTop();
      result := 0;
      if item != 0 {
        result := cache.arena.Items[item].Payload;
        ghost var items := cache.arena.Items;
        ghost var free := cache.FreeList();
        FreeLockFreeLink(cache, item, RootList.Nodes);
        SingleChainFrame(items, cache.arena.Items, RootList.Nodes);
        PayloadsFrame(items, cache.arena.Items, RootList.Nodes);
        ConfinesWiden(items, cache.arena.Items, free, cache.FreeList(), [item], nodes);
        ConfinesTrans(items0, items, cache.arena.Items, free, free, cache.FreeList(), nodes);
      }
    }

    /**
     * The root's Pop: the top link leaves the list (its SingleNext cleared) and
     * is on no list and not free; 0 when the list is empty.
     */
    method UnlinkTop() returns (item: nat)
      requires Valid()
      modifies cache.arena`Items, RootList
      ensures Valid()
      ensures item == HeadOf(old(RootList.Nodes))
      ensures old(RootList.Nodes) == [] ==> Contents() == [] && cache.arena.Items == old(cache.arena.Items)
      ensures old(RootList.Nodes) != [] ==>
                && RootList.Nodes == old(RootList.Nodes)[1..] && Contents() == old(Contents())[1..]
                && item in cache.arena.Items && item !in cache.FreeList() && item !in RootList.Nodes
                && cache.arena.Items[item].Payload == old(Contents())[0]
      ensures Confines(old(cache.arena.Items), cache.arena.Items, old(cache.FreeList()), cache.FreeList(), old(RootList.Nodes))
    {
      ghost var nodes := RootList.Nodes;
      ghost var items := cache.arena.Items;
      item := RootList.Pop();
      if item != 0 {
        SingleChainTail(items, nodes);
        DisjointTail(nodes, cache.FreeList());
        WriteKeepsInv(items, item, cache.arena.Items[item], cache.Tls, cache.Abstract(), cache.GlobalFreeListBundles.Nodes);
        SameLinksUpdate(items, item, cache.arena.Items[item], nodes[1..]);
        PopPayloads(items, cache.arena.Items, nodes);
        ConfinesUpdate(items, cache.arena.Items, cache.FreeList(), cache.FreeList(), nodes, item);
      } else {
        ConfinesSame(items, cache.FreeList(), nodes);
      }
    }

    /** PopAll: every payload, top first, appended to outArray; the links go back to the cache. */
    method PopAll(outArray: seq<nat>) returns (out: seq<nat>)
      requires Valid()
      modifies cache, cache.arena`Items, cache.GlobalFreeListBundles, RootList
      ensures Valid() && Contents() == []
      ensures out == outArray + old(Contents())
      ensures cache.Abstract() == PushMany(old(cache.Abstract()), old(RootList.Nodes))
      ensures cache.FreeList() == Reversed(old(RootList.Nodes)) + old(cache.FreeList())
      ensures old(RootList.Nodes) == [] ==> RootList.Head == old(RootList.Head)
      ensures old(RootList.Nodes) != [] ==> RootList.Head == Successor(old(RootList.Head), RootList.Inc, 0)
      ensures Confines(old(cache.arena.Items), cache.arena.Items, old(cache.FreeList()), cache.FreeList(), old(RootList.Nodes))
    {
      ghost var nodes := RootList.Nodes;
      var links := RootList.PopAll();
      out := DrainLinks(links, nodes, outArray);
    }

    /**
     * PopAllAndChangeState: as PopAll, and the state bits become
     * stateChange(old state) in the same exchange.
     */
    method PopAllAndChangeState(outArray: seq<nat>, stateChange: nat --> nat) returns (out: seq<nat>)
      requires Valid() && RootList.Inc > 1
      requires stateChange.requires(RootList.GetState()) && stateChange(RootList.GetState()) < RootList.Inc
      modifies cache, cache.arena`Items, cache.GlobalFreeListBundles, RootList
      ensures Valid() && Contents() == []
      ensures out == outArray + old(Contents())
      ensures cache.Abstract() == PushMany(old(cache.Abstract()), old(RootList.Nodes))
      ensures cache.FreeList() == Reversed(old(RootList.Nodes)) + old(cache.FreeList())
      ensures RootList.GetState() == stateChange(old(RootList.GetState()))
      ensures Confines(old(cache.arena.Items), cache.arena.Items, old(cache.FreeList()), cache.FreeList(), old(RootList.Nodes))
    {
      ghost var nodes := RootList.Nodes;
      var links := RootList.PopAllAndChangeState(stateChange);
      out := DrainLinks(links, nodes, outArray);
    }

    /**
     * The loop PopAll and PopAllAndChangeState share: walk a detached chain
     * through SingleNext, appending each payload and freeing each link.
     */
    method DrainLinks(links: nat, ghost rest: seq<nat>, outArray: seq<nat>) returns (out: seq<nat>)
      requires Valid() && RootList.Nodes == []
      requires SingleChain(cache.arena.Items, rest) && links == HeadOf(rest) && Disjoint(rest, cache.FreeList())
      modifies cache, cache.arena`Items, cache.GlobalFreeListBundles
      ensures Valid()
      ensures out == outArray + Payloads(old(cache.arena.Items), rest)
      ensures cache.Abstract() == PushMany(old(cache.Abstract()), rest)
      ensures cache.FreeList() == Reversed(rest) + old(cache.FreeList())
      ensures Confines(old(cache.arena.Items), cache.arena.Items, old(cache.FreeList()), cache.FreeList(), rest)
    {
      out := DrainChain(links, rest, outArray);
      assert SingleChain(cache.arena.Items, RootList.Nodes);
    }

    /** The walk of DrainLinks, which touches only the cache and the detached chain. */
    method DrainChain(links: nat, ghost rest: seq<nat>, outArray: seq<nat>) returns (out: seq<nat>)
      requires cache.Valid()
      requires SingleChain(cache.arena.Items, rest) && links == HeadOf(rest) && Disjoint(rest, cache.FreeList())
      modifies cache, cache.arena`Items, cache.GlobalFreeListBundles
      ensures cache.Valid()
      ensures out == outArray + Payloads(old(cache.arena.Items), rest)
      ensures cache.Abstract() == PushMany(old(cache.Abstract()), rest)
      ensures cache.FreeList() == Reversed(rest) + old(cache.FreeList())
      ensures Confines(old(cache.arena.Items), cache.arena.Items, old(cache.FreeList()), cache.FreeList(), rest)
    {
      ghost var payloads := Payloads(cache.arena.Items, rest);
      ghost var s := cache.Abstract();
      ghost var items0 := cache.arena.Items;
      ghost var free0 := cache.FreeList();
      ConfinesSame(items0, free0, rest);
      ghost var i := 0;
      var link := links;
      out := outArray;
      InArenaHead(cache.arena.Items, rest);
      while link != 0
        invariant 0 <= i <= |rest|
        invariant cache.Valid()
        invariant SingleChain(cache.arena.Items, rest[i..]) && Disjoint(rest[i..], cache.FreeList())
        invariant link == HeadOf(rest[i..]) && (link == 0 <==> i == |rest|)
        invariant Payloads(cache.arena.Items, rest[i..]) == payloads[i..]
        invariant out == outArray + payloads[..i]
        invariant cache.Abstract() == PushMany(s, rest[..i])
        invariant Confines(items0, cache.arena.Items, free0, cache.FreeList(), rest)
        decreases |rest| - i
      {
        out, link := DrainOne(link, rest, i, payloads, s, outArray, out, items0, free0);
        i := i + 1;
      }
      assert rest[..i] == rest;
      PushManyConserves(s, rest);
    }

    /** One pass of DrainChain's loop, carrying its invariant from link i to link i + 1. */
    method DrainOne(link: nat, ghost rest: seq<nat>, ghost i: nat, ghost payloads: seq<nat>, ghost s: FreeLinks,
                    ghost outArray: seq<nat>, out: seq<nat>, ghost items0: map<nat, Link>, ghost free0: seq<nat>)
      returns (out': seq<nat>, next: nat)
      requires i < |rest| && |payloads| == |rest| && cache.Valid()
      requires SingleChain(cache.arena.Items, rest[i..]) && Disjoint(rest[i..], cache.FreeList())
      requires link == HeadOf(rest[i..])
      requires Payloads(cache.arena.Items, rest[i..]) == payloads[i..]
      requires out == outArray + payloads[..i]
      requires cache.Abstract() == PushMany(s, rest[..i])
      requires Confines(items0, cache.arena.Items, free0, cache.FreeList(), rest)
      modifies cache, cache.arena`Items, cache.GlobalFreeListBundles
      ensures cache.Valid()
      ensures SingleChain(cache.arena.Items, rest[i + 1..]) && Disjoint(rest[i + 1..], cache.FreeList())
      ensures next == HeadOf(rest[i + 1..]) && (next == 0 <==> i + 1 == |rest|)
      ensures Payloads(cache.arena.Items, rest[i + 1..]) == payloads[i + 1..]
      ensures out' == outArray + payloads[..i + 1]
      ensures cache.Abstract() == PushMany(s, rest[..i + 1])
      ensures Confines(items0, cache.arena.Items, free0, cache.FreeList(), rest)
    {
      SliceStep(payloads, i);
      SliceStep(rest, i);
      ghost var items := cache.arena.Items;
      ghost var free := cache.FreeList();
      var payload;
      payload, next := FreeHead(link, rest[i..]);
      ConfinesWiden(items, cache.arena.Items, free, cache.FreeList(), [link], rest);
      ConfinesTrans(items0, items, cache.arena.Items, free0, free, cache.FreeList(), rest);
      out' := out + [payload];
      InArenaHead(cache.arena.Items, rest[i + 1..]);
    }

    /** One step of DrainLinks: read the head link of a detached chain, then free it. */
    method FreeHead(link: nat, ghost t: seq<nat>) returns (payload: nat, next: nat)
      requires cache.Valid()
      requires SingleChain(cache.arena.Items, t) && t != [] && link == t[0] && Disjoint(t, cache.FreeList())
      modifies cache, cache.arena`Items, cache.GlobalFreeListBundles
      ensures cache.Valid()
      ensures SingleChain(cache.arena.Items, t[1..]) && Disjoint(t[1..], cache.FreeList()) && next == HeadOf(t[1..])
      ensures payload == Payloads(old(cache.arena.Items), t)[0]
      ensures Payloads(cache.arena.Items, t[1..]) == Payloads(old(cache.arena.Items), t)[1..]
      ensures cache.Abstract() == PushSpec(old(cache.Abstract()), link)
      ensures Confines(old(cache.arena.Items), cache.arena.Items, old(cache.FreeList()), cache.FreeList(), [link])
    {
      ghost var items := cache.arena.Items;
      SingleChainTail(items, t);
      DisjointTail(t, cache.FreeList());
      var linkP := cache.arena.Items[link];
      payload := linkP.Payload;
      next := linkP.SingleNext;
      FreeLockFreeLink(cache, link, t[1..]);
      SingleChainFrame(items, cache.arena.Items, t[1..]);
      PayloadsFrame(items, cache.arena.Items, t[1..]);
    }
  }

  /**
   * After the top link left the list and went back to the cache, the payloads
   * of the rest are the old payloads without the first.
   */
  lemma PopPayloads(a: map<nat, Link>, b: map<nat, Link>, nodes: seq<nat>)
    requires nodes != [] && InArena(a, nodes[1..]) && SameLinks(a, b, nodes[1..])
    ensures Payloads(b, nodes[1..]) == Payloads(a, nodes)[1..]
  {
    PayloadsFrame(a, b, nodes[1..]);
  }

  /**
   * TClosableLockFreePointerListUnorderedSingleConsumer: a LIFOBase whose head
   * keeps one state bit (TABAInc = 2), set when the consumer closes the list.
   */
  class ClosableList {
    const base: LIFOBase

    ghost predicate Valid()
      reads this, base, base.cache, base.cache.arena, base.cache.GlobalFreeListBundles, base.RootList
    {
      base.Valid() && base.RootList.Inc == 2
    }

    /** The payloads on the list, most recently pushed first. */
    ghost function Contents(): seq<nat>
      reads this, base, base.RootList, base.cache.arena
    {
      base.Contents()
    }

    /** IsClosed: the low state bit of the head; with TABAInc = 2 it is the whole state. */
    function IsClosed(): (r: bool)
      reads this, base, base.RootList
      requires base.RootList.Inc == 2
      ensures r <==> IndexedPointers.GetState(base.RootList.Head, 2) == 1
      ensures !r <==> IndexedPointers.GetState(base.RootList.Head, 2) == 0
    {
      base.GetState() % 2 == 1
    }

    constructor (cache: LinkCache)
      requires cache.Valid()
      ensures Valid() && base.cache == cache && fresh(base) && fresh(base.RootList)
      ensures Contents() == [] && !IsClosed()
    {
      base := new LIFOBase(cache, 2);
    }

    /** Reset: empty and open again. */
    method Reset()
      requires Valid()
      modifies base.RootList
      ensures Valid() && Contents() == [] && !IsClosed()
    {
      base.Reset();
    }

    /** PushIfNotClosed: pushes exactly when the list is open; the closed bit never changes. */
    method PushIfNotClosed(payload: nat) returns (pushed: bool)
      requires Valid() && (!IsClosed() ==> base.cache.CanPop())
      modifies base.cache, base.cache.arena, base.cache.GlobalFreeListBundles, base.RootList
      ensures Valid() && IsClosed() == old(IsClosed())
      ensures pushed == !old(IsClosed())
      ensures pushed ==> Contents() == [payload] + old(Contents())
      ensures !pushed ==> Contents() == old(Contents()) && base.cache.Abstract() == old(base.cache.Abstract())
      ensures Confines(old(base.cache.arena.Items), base.cache.arena.Items, old(base.cache.FreeList()), base.cache.FreeList(), [])
    {
      pushed := base.PushIf(payload, state => state % 2 == 0);
    }

    /** PopAllAndClose: on an open list, every payload leaves and the list is closed. */
    method PopAllAndClose(outArray: seq<nat>) returns (out: seq<nat>)
      requires Valid() && !IsClosed()
      modifies base.cache, base.cache.arena`Items, base.cache.GlobalFreeListBundles, base.RootList
      ensures Valid() && Contents() == [] && IsClosed()
      ensures out == outArray + old(Contents())
      ensures base.cache.FreeList() == Reversed(old(base.RootList.Nodes)) + old(base.cache.FreeList())
      ensures Confines(old(base.cache.arena.Items), base.cache.arena.Items, old(base.cache.FreeList()), base.cache.FreeList(),
                       old(base.RootList.Nodes))
    {
      out := base.PopAllAndChangeState(outArray, (state: nat) requires state % 2 == 0 => state + 1);
    }
  }
}
