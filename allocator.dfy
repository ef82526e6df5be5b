/**
 * TLockFreeAllocOnceIndexedAllocator as instantiated for links
 * (FLockFreeLinkPolicy::TAllocator): a bump allocator of link indices whose
 * records live in pages of 16384 links, installed on first touch.  Index 0 is
 * reserved as null.  Pages are a set of installed page numbers, the records a
 * map from index to link.
 */
module LinkAllocation {
  import opened Common
  import opened IndexedPointers

  /** MaxTotalItems = MAX_LOCK_FREE_LINKS, ItemsPerPage = 16384. */
  const MaxTotalItems: nat := MaxLinks
  const ItemsPerPage: nat := 16384
  /** MaxBlocks = (MaxTotalItems + ItemsPerPage - 1) / ItemsPerPage. */
  const MaxBlocks: nat := (MaxTotalItems + ItemsPerPage - 1) / ItemsPerPage

  class LinkAllocator {
    /** The FThreadSafeCounter NextIndex: the first index not yet handed out. */
    var NextIndex: nat
    /** Page numbers whose page pointer is installed. */
    var Pages: set<nat>
    /** The order in which pages were installed. */
    ghost var Installs: seq<nat>
    /** The constructed link records, by index. */
    var Items: map<nat, Link>
    /** Whether the exhaustion hook LockFreeLinksExhausted has been called. */
    var LinksExhaustedReported: bool

    ghost predicate Valid()
      reads this
    {
      1 <= NextIndex &&
      IndicesPaged(Items.Keys, NextIndex, Pages) &&
      (forall b :: b in Pages ==> b < MaxBlocks) &&
      NoDup(Installs) && Elements(Installs) == Pages
    }

    /** The constructor skips the null index and clears the page table. */
    constructor ()
      ensures Valid()
      ensures NextIndex == 1 && Pages == {} && Items == map[] && !LinksExhaustedReported
    {
      NextIndex := 1;
      Pages := {};
      Installs := [];
      Items := map[];
      LinksExhaustedReported := false;
    }

    /**
     * GetItem: null for index 0, otherwise the page and the slot within it where
     * the record lives; the asserted preconditions become the requires.
     */
    function GetItem(index: nat): (r: Option<(nat, nat)>)
      reads this
      requires index == 0 || (index < NextIndex && index < MaxTotalItems && index / ItemsPerPage in Pages)
      ensures r.None? <==> index == 0
      ensures r.Some? ==> r.value.0 in Pages && r.value.1 < ItemsPerPage
      ensures r.Some? ==> r.value.0 * ItemsPerPage + r.value.1 == index
    {
      if index == 0 then None else Some((index / ItemsPerPage, index % ItemsPerPage))
    }

    /**
     * GetRawItem: installs the page holding `index` if it is not yet installed
     * (only once: a second installer discards its block) and returns the page and
     * slot.
     */
    method GetRawItem(index: nat) returns (block: nat, sub: nat)
      requires Valid()
      requires index != 0 && index < NextIndex && index < MaxTotalItems
      modifies this`Pages, this`Installs
      ensures Valid()
      ensures block in Pages && sub < ItemsPerPage && block * ItemsPerPage + sub == index
      ensures block == index / ItemsPerPage
      ensures Pages == old(Pages) + {block}
      ensures block in old(Pages) ==> Installs == old(Installs)
      ensures block !in old(Pages) ==> Installs == old(Installs) + [block]
    {
      block := index / ItemsPerPage;
      sub := index % ItemsPerPage;
      if block !in Pages {
        NoDupSnoc(Installs, block);
        Pages := Pages + {block};
        Installs := Installs + [block];
      }
    }

    /**
     * Alloc(Count): reserves Count consecutive indices starting at the old
     * NextIndex and value-initialises their records.  When the range passes
     * MaxTotalItems the exhaustion hook is called; the source then constructs
     * links beyond the page table, which its own assertion forbids, so the model
     * constructs nothing in that case.
     */
    method Alloc(count: nat) returns (first: nat)
      requires Valid()
      modifies this
      ensures Valid()
      ensures first == old(NextIndex) && NextIndex == old(NextIndex) + count
      ensures LinksExhaustedReported == (old(LinksExhaustedReported) || first + count > MaxTotalItems)
      ensures old(Pages) <= Pages
      ensures forall i :: i in old(Items) ==> i in Items && Items[i] == old(Items)[i]
      ensures forall i :: i in Items ==> i in old(Items) || first <= i < first + count
      ensures first + count <= MaxTotalItems ==>
                forall i :: first <= i < first + count ==> i in Items && Items[i] == EmptyLink()
      ensures first + count > MaxTotalItems ==> Items == old(Items) && Pages == old(Pages)
    {
      first := NextIndex;
      NextIndex := NextIndex + count;
      if first + count > MaxTotalItems {
        LinksExhaustedReported := true;
        return;
      }
      var current := first;
      while current < first + count
        invariant first <= current <= first + count
        invariant Valid()
        invariant NextIndex == first + count && LinksExhaustedReported == old(LinksExhaustedReported)
        invariant old(Pages) <= Pages
        invariant forall i :: i in old(Items) ==> i in Items && Items[i] == old(Items)[i]
        invariant forall i :: i in Items ==> i in old(Items) || first <= i < current
        invariant forall i :: first <= i < current ==> i in Items && Items[i] == EmptyLink()
      {
        var block, sub := GetRawItem(current);
        ghost var before := Items;
        Items := Items[current := EmptyLink()];
        forall i | first <= i <= current
          ensures i in Items && Items[i] == EmptyLink()
        {
          if i < current {
            assert i in before && before[i] == EmptyLink();
          }
        }
        current := current + 1;
      }
    }
  }

  /** Every constructed index is below NextIndex and MaxTotalItems, on an installed page. */
  ghost predicate IndicesPaged(keys: set<nat>, next: nat, pages: set<nat>)
  {
    forall i :: i in keys ==> 1 <= i < next && i < MaxTotalItems && i / ItemsPerPage in pages
  }

}
