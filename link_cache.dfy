/**
 * The link cache object (LockFreeLinkAllocator_TLSCache): the thread's TLS
 * slot, the global list of bundles and the arena, with ghost chains relating
 * them to the free-link bundles of FreeLinkBundles, and the link policy's
 * AllocLockFreeLink and FreeLockFreeLink over it.
 */
module LinkCaches {
  import opened Common
  import opened IndexedPointers
  import opened LinkAllocation
  import opened LinkChains
  import opened LIFORoots
  import opened FreeLinkBundles

  class LinkCache {
    /** The allocator the links come from (FLockFreeLinkPolicy::LinkAllocator). */
    const arena: LinkAllocator
    /** GlobalFreeListBundles, a LIFO root with TABAInc 1. */
    const GlobalFreeListBundles: LIFORoot
    /** The calling thread's TLS slot: no record until first use. */
    var Tls: Option<ThreadLocalCache>
    ghost var Partial: seq<nat>
    ghost var Full: seq<nat>
    ghost var Bundles: seq<seq<nat>>

    ghost function Abstract(): FreeLinks
      reads this
    {
      FreeLinks(Partial, Full, Bundles)
    }

    /** The free links, partial bundle first. */
    ghost function FreeList(): seq<nat>
      reads this
    {
      AllFree(Abstract())
    }

    ghost predicate Valid()
      reads this, arena, GlobalFreeListBundles
    {
      arena.Valid() &&
      GlobalFreeListBundles.arena == arena && GlobalFreeListBundles.Inc == 1 &&
      GlobalFreeListBundles.Valid() &&
      CacheInv(arena.Items, Tls, Abstract(), GlobalFreeListBundles.Nodes)
    }

    /** Pop can proceed: a needed fresh batch fits below MaxTotalItems. */
    ghost predicate CanPop()
      reads this, arena
    {
      NeedsFreshBatch(Abstract()) ==> arena.NextIndex + NumPerBundle <= MaxTotalItems
    }

    /** The constructor claims the TLS slot (left empty) and an empty global list. */
    constructor (arena: LinkAllocator)
      requires arena.Valid()
      ensures this.arena == arena && Valid() && fresh(GlobalFreeListBundles)
      ensures Tls == None && Abstract() == FreeLinks([], [], [])
    {
      this.arena := arena;
      GlobalFreeListBundles := new LIFORoot(arena, 1);
      Tls := None;
      Partial := [];
      Full := [];
      Bundles := [];
    }

    /** GetTLS: the calling thread's record, created all zero on first use. */
    method GetTLS()
      requires Valid()
      modifies this`Tls
      ensures Valid() && Tls.Some?
      ensures old(Tls).Some? ==> Tls == old(Tls)
      ensures old(Tls).None? ==> Tls == Some(ThreadLocalCache(0, 0, 0))
    {
      if Tls.None? {
        Tls := Some(ThreadLocalCache(0, 0, 0));
      }
    }

    /**
     * Pop: refills an empty partial bundle, then hands out its first link,
     * clearing the link's Payload.  The link handed out was free or fresh, has
     * null Payload, SingleNext and DoubleNext index (the assertion in
     * AllocLockFreeLink), and no link outside the free ones changes.
     */
    method Pop() returns (r: nat)
      requires Valid() && CanPop()
      modifies this, arena, GlobalFreeListBundles
      ensures Valid()
      ensures (r, Abstract()) == PopSpec(old(Abstract()), old(arena.NextIndex))
      ensures r != 0 && r in arena.Items && r !in FreeList()
      ensures arena.Items[r].Payload == 0 && arena.Items[r].SingleNext == 0 && GetPtr(arena.Items[r].DoubleNext) == 0
      ensures r in old(FreeList()) || r !in old(arena.Items)
      ensures arena.NextIndex == if NeedsFreshBatch(old(Abstract())) then old(arena.NextIndex) + NumPerBundle else old(arena.NextIndex)
      ensures Confines(old(arena.Items), arena.Items, old(FreeList()), FreeList(), [])
    {
      GetTLS();
      if Tls.value.PartialBundle == 0 {
        Refill();
      } else {
        ConfinesSame(arena.Items, FreeList(), []);
      }
      ghost var items := arena.Items;
      ghost var free := FreeList();
      r := TakeHead();
      ConfinesTrans(old(arena.Items), items, arena.Items, old(FreeList()), free, FreeList(), []);
    }

    /** The refill of an empty partial bundle: full bundle, else global list, else fresh links. */
    method Refill()
      requires Valid() && Tls.Some? && Tls.value.PartialBundle == 0 && CanPop()
      modifies this, arena, GlobalFreeListBundles
      ensures Valid() && Tls.Some?
      ensures old(Partial) == [] && Abstract() == RefillSpec(old(Abstract()), old(arena.NextIndex))
      ensures arena.NextIndex == if NeedsFreshBatch(old(Abstract())) then old(arena.NextIndex) + NumPerBundle else old(arena.NextIndex)
      ensures Partial != [] && (Partial[0] in old(FreeList()) || Partial[0] !in old(arena.Items))
      ensures Confines(old(arena.Items), arena.Items, old(FreeList()), FreeList(), [])
    {
      if Tls.value.FullBundle != 0 {
        RefillFromFull();
      } else {
        var bundle := RefillFromGlobalList();
        if bundle == 0 {
          ghost var items := arena.Items;
          ghost var free := FreeList();
          RefillFresh();
          ConfinesTrans(old(arena.Items), items, arena.Items, old(FreeList()), free, FreeList(), []);
        }
      }
    }

    /** The full bundle becomes the partial bundle. */
    method RefillFromFull()
      requires Valid() && Tls.Some? && Tls.value.PartialBundle == 0 && Tls.value.FullBundle != 0
      modifies this`Tls, this`Partial, this`Full
      ensures Valid() && Tls.Some?
      ensures old(Partial) == [] && Abstract() == RefillSpec(old(Abstract()), old(arena.NextIndex))
      ensures !NeedsFreshBatch(old(Abstract()))
      ensures Confines(arena.Items, arena.Items, old(FreeList()), FreeList(), [])
    {
      var tls := Tls.value;
      CacheHeads(arena.Items, tls, Abstract(), GlobalFreeListBundles.Nodes);
      RefillFromFullKeepsInv(arena.Items, tls, Abstract(), GlobalFreeListBundles.Nodes);
      Tls := Some(tls.(PartialBundle := tls.FullBundle, FullBundle := 0, NumPartial := NumPerBundle));
      Partial := Full;
      Full := [];
    }

    /**
     * The top bundle of the global list becomes the partial bundle; on an empty
     * list nothing changes and 0 is returned.
     */
    method RefillFromGlobalList() returns (bundle: nat)
      requires Valid() && Tls.Some? && Tls.value.PartialBundle == 0 && Tls.value.FullBundle == 0
      modifies this`Tls, this`Partial, this`Bundles, arena`Items, GlobalFreeListBundles
      ensures Valid() && Tls.Some? && old(Partial) == [] && old(Full) == []
      ensures bundle == 0 <==> old(Bundles) == []
      ensures bundle == 0 ==> Abstract() == old(Abstract()) && Tls == old(Tls) && Tls.value.PartialBundle == 0
      ensures bundle != 0 ==> Abstract() == RefillSpec(old(Abstract()), old(arena.NextIndex))
      ensures Confines(old(arena.Items), arena.Items, old(FreeList()), FreeList(), [])
    {
      ghost var items := arena.Items;
      ghost var s := Abstract();
      ghost var g := GlobalFreeListBundles.Nodes;
      var tls := Tls.value;
      CacheHeads(items, tls, s, g);
      bundle := GlobalFreeListBundles.Pop();
      if bundle != 0 {
        RefillFromGlobalKeepsInv(items, arena.Items, tls, s, g);
        Tls := Some(tls.(PartialBundle := bundle, NumPartial := NumPerBundle));
        Partial := Bundles[0];
        Bundles := Bundles[1..];
      }
    }

    /** Alloc(64) and chain the fresh links through Payload, each on the previous one. */
    method RefillFresh()
      requires Valid() && Tls.Some? && NeedsFreshBatch(Abstract())
      requires arena.NextIndex + NumPerBundle <= MaxTotalItems
      modifies this`Tls, this`Partial, arena
      ensures Valid() && Tls.Some?
      ensures Abstract() == RefillSpec(old(Abstract()), old(arena.NextIndex))
      ensures arena.NextIndex == old(arena.NextIndex) + NumPerBundle
      ensures Confines(old(arena.Items), arena.Items, old(FreeList()), FreeList(), [])
    {
      var first := arena.Alloc(NumPerBundle);
      var partialBundle := ChainFresh(first);
      RefillFreshKeepsInv(arena.Items, Tls.value, first);
      Tls := Some(Tls.value.(PartialBundle := partialBundle, NumPartial := NumPerBundle));
      Partial := FreshChain(first, NumPerBundle);
      ConfinesFresh(old(arena.Items), arena.Items, FreeList());
    }

    /**
     * The loop of the fresh refill: link FirstIndex+k gets a zero DoubleNext and
     * SingleNext and the previous link as Payload; the last link is returned.
     */
    method ChainFresh(first: nat) returns (partialBundle: nat)
      requires arena.Valid() && 0 < first && first + NumPerBundle <= arena.NextIndex
      requires forall k :: first <= k < first + NumPerBundle ==> k in arena.Items && arena.Items[k] == EmptyLink()
      modifies arena`Items
      ensures arena.Valid() && partialBundle == first + NumPerBundle - 1
      ensures forall k :: first <= k < first + NumPerBundle ==>
                k in arena.Items && arena.Items[k] == Link(Init(), if k == first then 0 else k - 1, 0)
      ensures forall i :: i in old(arena.Items) && !(first <= i < first + NumPerBundle) ==>
                i in arena.Items && arena.Items[i] == old(arena.Items)[i]
      ensures arena.Items.Keys == old(arena.Items).Keys
    {
      partialBundle := 0;
      var index := 0;
      while index < NumPerBundle
        invariant 0 <= index <= NumPerBundle
        invariant arena.Items.Keys == old(arena.Items).Keys
        invariant forall i :: i in old(arena.Items) && !(first <= i < first + NumPerBundle) ==> arena.Items[i] == old(arena.Items)[i]
        invariant partialBundle == if index == 0 then 0 else first + index - 1
        invariant forall k :: first <= k < first + NumPerBundle ==>
                    arena.Items[k] == if k < first + index then Link(Init(), if k == first then 0 else k - 1, 0) else EmptyLink()
      {
        var event := arena.Items[first + index];
        arena.Items := arena.Items[first + index := event.(DoubleNext := Init(), SingleNext := 0, Payload := partialBundle)];
        partialBundle := first + index;
        index := index + 1;
      }
    }

    /** The last step of Pop: the partial bundle's first link leaves it, its Payload cleared. */
    method TakeHead() returns (r: nat)
      requires Valid() && Tls.Some? && Partial != []
      modifies this`Tls, this`Partial, arena`Items
      ensures Valid()
      ensures r == old(Partial)[0] && Abstract() == old(Abstract()).(Partial := old(Partial)[1..])
      ensures r != 0 && r in arena.Items && r !in FreeList()
      ensures arena.Items[r].Payload == 0 && arena.Items[r].SingleNext == 0 && GetPtr(arena.Items[r].DoubleNext) == 0
      ensures Confines(old(arena.Items), arena.Items, old(FreeList()), FreeList(), [])
    {
      ghost var items := arena.Items;
      ghost var s := Abstract();
      ghost var g := GlobalFreeListBundles.Nodes;
      TakeHeadKeepsInv(items, Tls.value, s, g);
      var result := Tls.value.PartialBundle;
      var resultP := arena.Items[result];
      Tls := Some(Tls.value.(PartialBundle := resultP.Payload, NumPartial := Tls.value.NumPartial - 1));
      arena.Items := arena.Items[result := resultP.(Payload := 0)];
      Partial := Partial[1..];
      r := result;
      SingleChainFrame(items, arena.Items, g);
    }

    /**
     * Push: a full partial bundle (NumPartial >= 64) first moves to FullBundle,
     * the previous full bundle (if any) to the global list; then the item heads
     * the partial bundle with its next pointers cleared.  Only free links and
     * the item change.
     */
    method Push(item: nat)
      requires Valid() && item in arena.Items && item !in FreeList()
      modifies this, arena`Items, GlobalFreeListBundles
      ensures Valid()
      ensures Abstract() == PushSpec(old(Abstract()), item)
      ensures Confines(old(arena.Items), arena.Items, old(FreeList()), FreeList(), [item])
    {
      GetTLS();
      if Tls.value.NumPartial >= NumPerBundle {
        RetirePartial();
      } else {
        ConfinesSame(arena.Items, FreeList(), []);
      }
      ghost var items := arena.Items;
      ghost var free := FreeList();
      PushOnPartial(item);
      ConfinesWiden(old(arena.Items), items, old(FreeList()), free, [], [item]);
      ConfinesTrans(old(arena.Items), items, arena.Items, old(FreeList()), free, FreeList(), [item]);
    }

    /**
     * The NumPartial >= 64 step of Push: the previous full bundle goes to the
     * global list, the partial bundle becomes the full one, and the partial
     * bundle starts empty.
     */
    method RetirePartial()
      requires Valid() && Tls.Some? && Tls.value.NumPartial >= NumPerBundle
      modifies this`Tls, this`Partial, this`Full, this`Bundles, arena`Items, GlobalFreeListBundles
      ensures Valid() && Tls.Some?
      ensures |old(Partial)| == NumPerBundle
      ensures Abstract() == FreeLinks([], old(Partial), if old(Full) != [] then [old(Full)] + old(Bundles) else old(Bundles))
      ensures FreeList() == old(FreeList()) && arena.Items.Keys == old(arena.Items).Keys
      ensures Confines(old(arena.Items), arena.Items, old(FreeList()), FreeList(), [])
    {
      var tls := Tls.value;
      if tls.FullBundle != 0 {
        RetireWithFull();
      } else {
        CacheHeads(arena.Items, tls, Abstract(), GlobalFreeListBundles.Nodes);
        RetireKeepsInv(arena.Items, tls, Abstract(), GlobalFreeListBundles.Nodes);
        Tls := Some(tls.(FullBundle := tls.PartialBundle, PartialBundle := 0, NumPartial := 0));
        Full := Partial;
        Partial := [];
      }
    }

    /** RetirePartial with a full bundle held: GlobalFreeListBundles.Push(FullBundle) first. */
    method RetireWithFull()
      requires Valid() && Tls.Some? && Tls.value.NumPartial >= NumPerBundle && Tls.value.FullBundle != 0
      modifies this`Tls, this`Partial, this`Full, this`Bundles, arena`Items, GlobalFreeListBundles
      ensures Valid() && Tls.Some?
      ensures |old(Partial)| == NumPerBundle && old(Full) != []
      ensures Abstract() == FreeLinks([], old(Partial), [old(Full)] + old(Bundles))
      ensures FreeList() == old(FreeList()) && arena.Items.Keys == old(arena.Items).Keys
      ensures Confines(old(arena.Items), arena.Items, old(FreeList()), FreeList(), [])
    {
      ghost var items := arena.Items;
      ghost var s := Abstract();
      ghost var g := GlobalFreeListBundles.Nodes;
      var tls := Tls.value;
      CacheHeads(items, tls, s, g);
      RetireWithFullKeepsInv(items, items[Full[0] := items[Full[0]].(SingleNext := HeadOf(g))], tls, s, g);
      GlobalFreeListBundles.Push(tls.FullBundle);
      Bundles := [Full] + Bundles;
      Tls := Some(tls.(FullBundle := tls.PartialBundle, PartialBundle := 0, NumPartial := 0));
      Full := Partial;
      Partial := [];
    }

    /** The final step of Push: the item heads the partial bundle, below 64 links. */
    method PushOnPartial(item: nat)
      requires Valid() && Tls.Some? && Tls.value.NumPartial < NumPerBundle
      requires item in arena.Items && item !in FreeList()
      modifies this`Tls, this`Partial, arena`Items
      ensures Valid()
      ensures Abstract() == old(Abstract()).(Partial := [item] + old(Partial))
      ensures Confines(old(arena.Items), arena.Items, old(FreeList()), FreeList(), [item])
    {
      ghost var items := arena.Items;
      ghost var s := Abstract();
      ghost var g := GlobalFreeListBundles.Nodes;
      PushOnPartialKeepsInv(items, Tls.value, s, g, item);
      var itemP := arena.Items[item];
      arena.Items := arena.Items[item := itemP.(DoubleNext := SetPtr(itemP.DoubleNext, 0), SingleNext := 0, Payload := Tls.value.PartialBundle)];
      Tls := Some(Tls.value.(PartialBundle := item, NumPartial := Tls.value.NumPartial + 1));
      Partial := [item] + Partial;
      SingleChainFrame(items, arena.Items, g);
    }
  }

  /**
   * Writing the record of a link that is not free (one a collection owns) keeps
   * the cache valid: its invariant reads only the records of free links.
   */
  lemma WriteKeepsInv(items: map<nat, Link>, x: nat, l: Link, tls: Option<ThreadLocalCache>, s: FreeLinks, global: seq<nat>)
    requires CacheInv(items, tls, s, global) && SingleChain(items, global)
    requires x in items && x !in AllFree(s)
    ensures CacheInv(items[x := l], tls, s, global) && SingleChain(items[x := l], global)
    ensures items[x := l].Keys == items.Keys
  {
    var b := items[x := l];
    SameLinksUpdate(items, x, l, AllFree(s));
    CacheInvFrame(items, b, tls, s, global);
    SingleChainFrame(items, b, global);
  }

  /**
   * FLockFreeLinkPolicy::AllocLockFreeLink: the cache's Pop, whose link is
   * non-null with a clear record.  The chain `owned` of some collection (links
   * that are not free) keeps its records.
   */
  method AllocLockFreeLink(cache: LinkCache, ghost owned: seq<nat>) returns (item: nat)
    requires cache.Valid() && cache.CanPop()
    requires InArena(cache.arena.Items, owned) && Disjoint(owned, cache.FreeList())
    modifies cache, cache.arena, cache.GlobalFreeListBundles
    ensures cache.Valid()
    ensures (item, cache.Abstract()) == PopSpec(old(cache.Abstract()), old(cache.arena.NextIndex))
    ensures 0 < item < MaxLinks && item in cache.arena.Items && item !in cache.FreeList() && item !in owned
    ensures cache.arena.Items[item].Payload == 0 && cache.arena.Items[item].SingleNext == 0
    ensures GetPtr(cache.arena.Items[item].DoubleNext) == 0
    ensures item in old(cache.FreeList()) || item !in old(cache.arena.Items)
    ensures SameLinks(old(cache.arena.Items), cache.arena.Items, owned)
    ensures InArena(cache.arena.Items, owned) && Disjoint(owned, cache.FreeList())
    ensures Confines(old(cache.arena.Items), cache.arena.Items, old(cache.FreeList()), cache.FreeList(), [])
  {
    ghost var items := cache.arena.Items;
    ghost var free := cache.FreeList();
    item := cache.Pop();
    ConfinesChain(items, cache.arena.Items, free, cache.FreeList(), [], owned);
    if item in owned {
      InArenaElem(items, owned, item);
      DisjointElem(owned, free, item);
    }
  }

  /**
   * FLockFreeLinkPolicy::FreeLockFreeLink: the cache's Push of a link that is
   * not free; it becomes the first free link, and the chain `rest` keeps its records.
   */
  method FreeLockFreeLink(cache: LinkCache, item: nat, ghost rest: seq<nat>)
    requires cache.Valid() && item in cache.arena.Items && item !in cache.FreeList()
    requires InArena(cache.arena.Items, rest) && Disjoint(rest, cache.FreeList()) && item !in rest
    modifies cache, cache.arena`Items, cache.GlobalFreeListBundles
    ensures cache.Valid() && cache.Abstract() == PushSpec(old(cache.Abstract()), item)
    ensures cache.FreeList() == [item] + old(cache.FreeList())
    ensures SameLinks(old(cache.arena.Items), cache.arena.Items, rest)
    ensures InArena(cache.arena.Items, rest) && Disjoint(rest, cache.FreeList())
    ensures Confines(old(cache.arena.Items), cache.arena.Items, old(cache.FreeList()), cache.FreeList(), [item])
  {
    ghost var items := cache.arena.Items;
    ghost var free := cache.FreeList();
    cache.Push(item);
    PushConserves(old(cache.Abstract()), item);
    ConfinesChain(items, cache.arena.Items, free, cache.FreeList(), [item], rest);
  }
}
