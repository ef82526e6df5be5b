/**
 * LockFreeLinkAllocator_TLSCache and the link policy's AllocLockFreeLink /
 * FreeLockFreeLink: free links are kept in bundles of 64 chained through
 * Payload.  Each thread holds a partial bundle (with its length NumPartial) and
 * at most one full bundle; further full bundles go to a global LIFO list whose
 * links are the bundles' first links.  An empty partial bundle is refilled from
 * the full bundle, else from the global list, else from 64 fresh arena indices.
 *
 * The model has one calling thread, so the thread-local slot holds at most one
 * cache record, created on first use.
 */
module FreeLinkBundles {
  import opened Common
  import opened IndexedPointers
  import opened LinkChains

  /** NUM_PER_BUNDLE. */
  const NumPerBundle: nat := 64

  /** FThreadLocalCache: the per-thread record, all zero when created. */
  datatype ThreadLocalCache = ThreadLocalCache(FullBundle: nat, PartialBundle: nat, NumPartial: int)

  /**
   * The free links as chains: the thread's partial and full bundles and the
   * bundles on the global list, top first.
   */
  datatype FreeLinks = FreeLinks(Partial: seq<nat>, Full: seq<nat>, Bundles: seq<seq<nat>>)

  function Concat(bs: seq<seq<nat>>): seq<nat>
  {
    if bs == [] then [] else bs[0] + Concat(bs[1..])
  }

  /** The first link of every bundle: the links on the global LIFO list. */
  function Heads(bs: seq<seq<nat>>): (r: seq<nat>)
    ensures |r| == |bs|
  {
    if bs == [] then [] else [HeadOf(bs[0])] + Heads(bs[1..])
  }

  /** Every free link, each chain in order. */
  function AllFree(s: FreeLinks): seq<nat>
  {
    s.Partial + s.Full + Concat(s.Bundles)
  }

  /**
   * The counting invariant: the partial bundle holds at most 64 links, the full
   * bundle none or exactly 64, and every bundle on the global list exactly 64.
   */
  predicate WellFormed(s: FreeLinks)
  {
    |s.Partial| <= NumPerBundle &&
    (s.Full == [] || |s.Full| == NumPerBundle) &&
    forall b :: 0 <= b < |s.Bundles| ==> |s.Bundles[b]| == NumPerBundle
  }

  /** Pop must fetch fresh links: nothing in the partial, full or global bundles. */
  predicate NeedsFreshBatch(s: FreeLinks)
  {
    s.Partial == [] && s.Full == [] && s.Bundles == []
  }

  /**
   * The partial bundle after the first n steps of chaining fresh links FirstIndex,
   * FirstIndex+1, ...: each new link's Payload is the previous partial head, so
   * the chain runs from the highest index down to FirstIndex.
   */
  function FreshChain(first: nat, n: nat): (r: seq<nat>)
    ensures |r| == n
    ensures forall k :: 0 <= k < n ==> r[k] == first + n - 1 - k
  {
    if n == 0 then [] else [first + n - 1] + FreshChain(first, n - 1)
  }

  /** The refill of an empty partial bundle: full bundle, else global list, else fresh links. */
  function RefillSpec(s: FreeLinks, next: nat): FreeLinks
    requires s.Partial == []
  {
    if s.Full != [] then FreeLinks(s.Full, [], s.Bundles)
    else if s.Bundles != [] then FreeLinks(s.Bundles[0], [], s.Bundles[1..])
    else FreeLinks(FreshChain(next, NumPerBundle), [], [])
  }

  /**
   * LockFreeLinkAllocator_TLSCache::Pop on the free-link chains, with `next` the
   * allocator's NextIndex: the link handed out and the chains afterwards.
   */
  function PopSpec(s: FreeLinks, next: nat): (r: (nat, FreeLinks))
    requires WellFormed(s)
  {
    var t := if s.Partial == [] then RefillSpec(s, next) else s;
    (t.Partial[0], t.(Partial := t.Partial[1..]))
  }

  /** LockFreeLinkAllocator_TLSCache::Push on the free-link chains. */
  function PushSpec(s: FreeLinks, item: nat): FreeLinks
  {
    if |s.Partial| >= NumPerBundle then
      var bundles := if s.Full != [] then [s.Full] + s.Bundles else s.Bundles;
      FreeLinks([item], s.Partial, bundles)
    else
      s.(Partial := [item] + s.Partial)
  }

  /**
   * Refill order: a pop from an empty partial bundle takes the first link of the
   * full bundle and clears it; without a full bundle it takes the top bundle of
   * the global list; without either it takes the highest of 64 fresh indices.
   */
  lemma RefillOrder(s: FreeLinks, next: nat)
    requires WellFormed(s) && s.Partial == []
    ensures s.Full != [] ==> PopSpec(s, next) == (s.Full[0], FreeLinks(s.Full[1..], [], s.Bundles))
    ensures s.Full == [] && s.Bundles != [] ==>
              PopSpec(s, next) == (s.Bundles[0][0], FreeLinks(s.Bundles[0][1..], [], s.Bundles[1..]))
    ensures NeedsFreshBatch(s) ==>
              PopSpec(s, next).0 == next + NumPerBundle - 1 && PopSpec(s, next).1.Partial == FreshChain(next, NumPerBundle - 1)
  {
    if NeedsFreshBatch(s) {
      assert FreshChain(next, NumPerBundle)[1..] == FreshChain(next, NumPerBundle - 1);
    }
  }

  /** Pop and Push keep the counting invariant. */
  lemma PopKeepsWellFormed(s: FreeLinks, next: nat)
    requires WellFormed(s)
    ensures WellFormed(PopSpec(s, next).1)
  {
  }

  lemma PushKeepsWellFormed(s: FreeLinks, item: nat)
    requires WellFormed(s)
    ensures WellFormed(PushSpec(s, item))
  {
  }

  /**
   * Pushing a link and popping on the same thread hands the same link back, and
   * below a full partial bundle it restores the chains exactly.
   */
  lemma PushThenPop(s: FreeLinks, item: nat, next: nat)
    requires WellFormed(s)
    ensures WellFormed(PushSpec(s, item))
    ensures PopSpec(PushSpec(s, item), next).0 == item
    ensures |s.Partial| < NumPerBundle ==> PopSpec(PushSpec(s, item), next).1 == s
  {
    PushKeepsWellFormed(s, item);
    if |s.Partial| < NumPerBundle {
      assert ([item] + s.Partial)[1..] == s.Partial;
    }
  }

  lemma ConcatCons(b: seq<nat>, bs: seq<seq<nat>>)
    ensures Concat([b] + bs) == b + Concat(bs)
  {
    assert ([b] + bs)[1..] == bs;
  }

  /**
   * Pop hands out a free link: the link followed by the remaining free links is
   * the old free list, in order, or the fresh batch when one was needed.
   */
  lemma PopConserves(s: FreeLinks, next: nat)
    requires WellFormed(s)
    ensures [PopSpec(s, next).0] + AllFree(PopSpec(s, next).1)
            == if NeedsFreshBatch(s) then FreshChain(next, NumPerBundle) else AllFree(s)
  {
    var t := if s.Partial == [] then RefillSpec(s, next) else s;
    assert t.Partial != [] && AllFree(t) == if NeedsFreshBatch(s) then FreshChain(next, NumPerBundle) else AllFree(s) by {
      if s.Partial == [] && s.Full == [] && s.Bundles != [] {
        assert |s.Bundles[0]| == NumPerBundle;
        AllFreeFromGlobal(s);
      } else if NeedsFreshBatch(s) {
        assert AllFree(t) == FreshChain(next, NumPerBundle) + [] + [];
      }
    }
    AllFreeTakeHead(t);
  }

  /** Push puts exactly the pushed link in front of the free links. */
  lemma PushConserves(s: FreeLinks, item: nat)
    ensures AllFree(PushSpec(s, item)) == [item] + AllFree(s)
  {
    if |s.Partial| >= NumPerBundle && s.Full != [] {
      ConcatCons(s.Full, s.Bundles);
    }
  }

  /** LockFreeLinkAllocator_TLSCache::Push of each of ns, in order. */
  function PushMany(s: FreeLinks, ns: seq<nat>): FreeLinks
  {
    if ns == [] then s else PushSpec(PushMany(s, ns[..|ns| - 1]), ns[|ns| - 1])
  }

  /** Pushing a run of links puts them in front of the free links, last pushed first. */
  lemma {:induction false} PushManyConserves(s: FreeLinks, ns: seq<nat>)
    ensures AllFree(PushMany(s, ns)) == Reversed(ns) + AllFree(s)
  {
    if ns != [] {
      var init := ns[..|ns| - 1];
      PushManyConserves(s, init);
      PushConserves(PushMany(s, init), ns[|ns| - 1]);
    }
  }

  /** n pops in a row: the links handed out, in order, and the chains afterwards. */
  function PopMany(s: FreeLinks, next: nat, n: nat): (nat, seq<nat>, FreeLinks)
    requires WellFormed(s)
    decreases n
  {
    if n == 0 then (next, [], s)
    else
      var next' := if NeedsFreshBatch(s) then next + NumPerBundle else next;
      PopKeepsWellFormed(s, next);
      var (item, s') := PopSpec(s, next);
      var (next'', rest, s'') := PopMany(s', next', n - 1);
      (next'', [item] + rest, s'')
  }

  /** Popping from a partial bundle of at least n links hands out its first n links. */
  lemma {:induction false} PopManyFromPartial(s: FreeLinks, next: nat, n: nat)
    requires WellFormed(s) && n <= |s.Partial|
    ensures PopMany(s, next, n).1 == s.Partial[..n]
    ensures PopMany(s, next, n).2 == s.(Partial := s.Partial[n..])
    decreases n
  {
    if n > 0 {
      var s' := s.(Partial := s.Partial[1..]);
      PopManyFromPartial(s', next, n - 1);
      assert s.Partial[..n] == [s.Partial[0]] + s'.Partial[..n - 1];
      assert s'.Partial[n - 1..] == s.Partial[n..];
    }
  }

  /**
   * A fresh batch: a thread with no free links that pops 64 times receives the
   * fresh indices from the highest, FirstIndex+63, down to FirstIndex, and is
   * then out of free links again.
   */
  lemma FreshBatchOrder(next: nat)
    ensures PopMany(FreeLinks([], [], []), next, NumPerBundle).1 == FreshChain(next, NumPerBundle)
    ensures NeedsFreshBatch(PopMany(FreeLinks([], [], []), next, NumPerBundle).2)
  {
    var s := FreeLinks([], [], []);
    var t := FreeLinks(FreshChain(next, NumPerBundle - 1), [], []);
    RefillOrder(s, next);
    assert PopSpec(s, next) == (next + NumPerBundle - 1, t);
    PopManyFromPartial(t, next + NumPerBundle, NumPerBundle - 1);
    assert t.Partial[..NumPerBundle - 1] == t.Partial;
    assert t.Partial[NumPerBundle - 1..] == [];
  }

  /**
   * A free bundle's records: chained through Payload, DoubleNext's index null, and
   * SingleNext null except at the first link of a bundle on the global list,
   * which the list itself links.
   */
  ghost predicate ClearBundle(items: map<nat, Link>, nodes: seq<nat>, onGlobalList: bool)
  {
    PayloadChain(items, nodes) &&
    forall k {:trigger ClearAt(items, nodes, onGlobalList, k)} :: ClearAt(items, nodes, onGlobalList, k)
  }

  ghost predicate ClearAt(items: map<nat, Link>, nodes: seq<nat>, onGlobalList: bool, k: int)
  {
    0 <= k < |nodes| && nodes[k] in items ==>
      GetPtr(items[nodes[k]].DoubleNext) == 0 && ((k == 0 && onGlobalList) || items[nodes[k]].SingleNext == 0)
  }

  ghost predicate ClearBundles(items: map<nat, Link>, bs: seq<seq<nat>>)
  {
    forall b {:trigger ClearBundleAt(items, bs, b)} :: ClearBundleAt(items, bs, b)
  }

  ghost predicate ClearBundleAt(items: map<nat, Link>, bs: seq<seq<nat>>, b: int)
  {
    0 <= b < |bs| ==> ClearBundle(items, bs[b], true)
  }

  ghost predicate FreeChains(items: map<nat, Link>, s: FreeLinks)
  {
    ClearBundle(items, s.Partial, false) && ClearBundle(items, s.Full, false) && ClearBundles(items, s.Bundles)
  }

  /** The thread's record matches the chains: heads, and NumPartial the partial bundle's length. */
  ghost predicate TlsAgrees(tls: Option<ThreadLocalCache>, s: FreeLinks)
  {
    match tls
    case None => s.Partial == [] && s.Full == []
    case Some(t) =>
      t.PartialBundle == HeadOf(s.Partial) && t.FullBundle == HeadOf(s.Full) && t.NumPartial == |s.Partial|
  }

  /**
   * The cache invariant on values: the arena records, the thread's record, the
   * free-link chains and the links on the global list.
   */
  ghost predicate CacheInv(items: map<nat, Link>, tls: Option<ThreadLocalCache>, s: FreeLinks, global: seq<nat>)
  {
    global == Heads(s.Bundles) && WellFormed(s) && NoDup(AllFree(s)) && TlsAgrees(tls, s) && FreeChains(items, s)
  }

  lemma ClearBundleFrame(a: map<nat, Link>, b: map<nat, Link>, nodes: seq<nat>, onGlobalList: bool)
    requires ClearBundle(a, nodes, onGlobalList) && SameLinks(a, b, nodes)
    ensures ClearBundle(b, nodes, onGlobalList)
  {
    PayloadChainFrame(a, b, nodes);
    forall k ensures ClearAt(b, nodes, onGlobalList, k) {
      assert ClearAt(a, nodes, onGlobalList, k) && SameAt(a, b, nodes, k) && InArenaAt(a, nodes, k);
    }
  }

  /** The records of a chain's links agree wherever those of a chain containing it do. */
  lemma SameLinksSub(a: map<nat, Link>, b: map<nat, Link>, all: seq<nat>, part: seq<nat>, off: nat)
    requires SameLinks(a, b, all) && off + |part| <= |all|
    requires forall k :: 0 <= k < |part| ==> part[k] == all[off + k]
    ensures SameLinks(a, b, part)
  {
    forall k ensures SameAt(a, b, part, k) {
      if 0 <= k < |part| {
        assert SameAt(a, b, all, off + k);
      }
    }
  }

  /** A clear bundle off the global list may go on it. */
  lemma ClearBundleOnGlobal(items: map<nat, Link>, nodes: seq<nat>)
    requires ClearBundle(items, nodes, false)
    ensures ClearBundle(items, nodes, true)
  {
    forall k ensures ClearAt(items, nodes, true, k) {
      assert ClearAt(items, nodes, false, k);
    }
  }

  /** Dropping the first link of a clear bundle off the global list. */
  lemma ClearBundleTail(items: map<nat, Link>, nodes: seq<nat>)
    requires ClearBundle(items, nodes, false) && nodes != []
    ensures ClearBundle(items, nodes[1..], false) && nodes[0] !in nodes[1..]
    ensures nodes[0] in items && 0 < nodes[0] < MaxLinks && items[nodes[0]].Payload == HeadOf(nodes[1..])
    ensures items[nodes[0]].SingleNext == 0 && GetPtr(items[nodes[0]].DoubleNext) == 0
  {
    PayloadChainTail(items, nodes);
    assert ClearAt(items, nodes, false, 0);
    var t := nodes[1..];
    forall k ensures ClearAt(items, t, false, k) {
      if 0 <= k < |t| {
        assert t[k] == nodes[k + 1] && ClearAt(items, nodes, false, k + 1);
      }
    }
  }

  /** A cleared link whose Payload is the old head extends a clear bundle off the global list. */
  lemma ClearBundleCons(items: map<nat, Link>, x: nat, nodes: seq<nat>)
    requires ClearBundle(items, nodes, false) && x !in nodes
    requires x in items && 0 < x < MaxLinks && items[x].Payload == HeadOf(nodes)
    requires items[x].SingleNext == 0 && GetPtr(items[x].DoubleNext) == 0
    ensures ClearBundle(items, [x] + nodes, false)
  {
    PayloadChainCons(items, x, nodes);
    var t := [x] + nodes;
    forall k ensures ClearAt(items, t, false, k) {
      if 0 < k < |t| {
        assert t[k] == nodes[k - 1] && ClearAt(items, nodes, false, k - 1);
      }
    }
  }

  lemma InConcat(bs: seq<seq<nat>>, b: nat, k: nat)
    requires b < |bs| && k < |bs[b]|
    ensures bs[b][k] in Concat(bs)
    decreases b
  {
    if b > 0 {
      InConcat(bs[1..], b - 1, k);
    }
  }

  lemma ClearBundlesFrame(a: map<nat, Link>, b: map<nat, Link>, bs: seq<seq<nat>>)
    requires ClearBundles(a, bs) && SameLinks(a, b, Concat(bs))
    ensures ClearBundles(b, bs)
  {
    forall i ensures ClearBundleAt(b, bs, i) {
      if 0 <= i < |bs| {
        assert ClearBundleAt(a, bs, i);
        var c := Concat(bs);
        forall k ensures SameAt(a, b, bs[i], k) {
          if 0 <= k < |bs[i]| && bs[i][k] in a {
            InConcat(bs, i, k);
            var j :| 0 <= j < |c| && c[j] == bs[i][k];
            assert SameAt(a, b, c, j);
          }
        }
        ClearBundleFrame(a, b, bs[i], true);
      }
    }
  }

  /** Free-link chains depend only on the records of free links. */
  lemma FreeChainsFrame(a: map<nat, Link>, b: map<nat, Link>, s: FreeLinks)
    requires FreeChains(a, s) && SameLinks(a, b, AllFree(s))
    ensures FreeChains(b, s)
  {
    var all := AllFree(s);
    var c := Concat(s.Bundles);
    SameLinksSub(a, b, all, s.Partial, 0);
    SameLinksSub(a, b, all, s.Full, |s.Partial|);
    SameLinksSub(a, b, all, c, |s.Partial| + |s.Full|);
    ClearBundleFrame(a, b, s.Partial, false);
    ClearBundleFrame(a, b, s.Full, false);
    ClearBundlesFrame(a, b, s.Bundles);
  }

  lemma HeadsInConcat(bs: seq<seq<nat>>, i: nat)
    requires i < |bs| && bs[i] != []
    ensures Heads(bs)[i] == bs[i][0] && bs[i][0] in Concat(bs)
    decreases i
  {
    InConcat(bs, i, 0);
    if i > 0 {
      HeadsInConcat(bs[1..], i - 1);
    }
  }

  lemma SameLinksExcept(a: map<nat, Link>, b: map<nat, Link>, x: nat, nodes: seq<nat>)
    requires x in a && x in b && b == a[x := b[x]]
    requires x !in nodes
    ensures SameLinks(a, b, nodes)
  {
  }

  lemma NoDupAppendRight(a: seq<nat>, b: seq<nat>)
    requires NoDup(a + b)
    ensures forall x :: x in a ==> x !in b
  {
    forall i, j | 0 <= i < |a| && 0 <= j < |b| ensures a[i] != b[j] {
      assert (a + b)[i] == a[i] && (a + b)[|a| + j] == b[j] && DistinctAt(a + b, i, |a| + j);
    }
  }

  /** A link outside every bundle is not the first link of any bundle. */
  lemma NotInHeads(bs: seq<seq<nat>>, x: nat)
    requires forall b :: 0 <= b < |bs| ==> |bs[b]| == NumPerBundle
    requires x !in Concat(bs)
    ensures x !in Heads(bs)
  {
    forall i | 0 <= i < |bs| ensures Heads(bs)[i] != x {
      HeadsInConcat(bs, i);
    }
  }

  /** The global list's links are free links. */
  lemma HeadsAreFree(s: FreeLinks, x: nat)
    requires WellFormed(s) && x !in AllFree(s)
    ensures x !in Heads(s.Bundles)
  {
    NotInHeads(s.Bundles, x);
  }

  /** The thread's record names the heads of its bundles: a null head means an empty bundle. */
  lemma CacheHeads(items: map<nat, Link>, t: ThreadLocalCache, s: FreeLinks, global: seq<nat>)
    requires CacheInv(items, Some(t), s, global)
    ensures t.PartialBundle == 0 <==> s.Partial == []
    ensures t.FullBundle == 0 <==> s.Full == []
    ensures s.Partial != [] ==> s.Partial[0] in items
    ensures s.Full != [] ==> s.Full[0] in items
  {
    InArenaHead(items, s.Partial);
    InArenaHead(items, s.Full);
  }

  /** Refill from the full bundle: it becomes the partial bundle. */
  lemma RefillFromFullKeepsInv(items: map<nat, Link>, t: ThreadLocalCache, s: FreeLinks, global: seq<nat>)
    requires CacheInv(items, Some(t), s, global) && s.Partial == [] && t.FullBundle != 0
    ensures var t' := t.(PartialBundle := t.FullBundle, FullBundle := 0, NumPartial := NumPerBundle);
            CacheInv(items, Some(t'), RefillSpec(s, 0), global)
    ensures s.Full != [] && AllFree(RefillSpec(s, 0)) == AllFree(s)
  {
    assert AllFree(RefillSpec(s, 0)) == AllFree(s);
  }

  /** A bundle whose first link's SingleNext is set to v is a clear bundle, on the global list exactly when v is not null. */
  lemma ClearBundleRelink(items: map<nat, Link>, b: seq<nat>, onGlobalList: bool, v: nat)
    requires ClearBundle(items, b, onGlobalList) && b != []
    ensures b[0] in items
    ensures ClearBundle(items[b[0] := items[b[0]].(SingleNext := v)], b, v != 0)
  {
    assert InArenaAt(items, b, 0);
    var items' := items[b[0] := items[b[0]].(SingleNext := v)];
    NoDupTail(b);
    var onList := v != 0;
    forall k ensures InArenaAt(items', b, k) && PayloadAt(items', b, k) && ClearAt(items', b, onList, k) {
      if 0 <= k < |b| {
        assert InArenaAt(items, b, k) && PayloadAt(items, b, k) && ClearAt(items, b, onGlobalList, k);
        if k > 0 {
          assert b[1..][k - 1] == b[k];
        }
      }
    }
  }

  /** The first bundle of a sequence of bundles, and the rest. */
  lemma ClearBundlesUncons(items: map<nat, Link>, bs: seq<seq<nat>>)
    requires ClearBundles(items, bs) && bs != []
    ensures ClearBundle(items, bs[0], true) && ClearBundles(items, bs[1..])
  {
    assert ClearBundleAt(items, bs, 0);
    forall i ensures ClearBundleAt(items, bs[1..], i) {
      if 0 <= i < |bs| - 1 {
        assert bs[1..][i] == bs[i + 1] && ClearBundleAt(items, bs, i + 1);
      }
    }
  }

  lemma ClearBundlesCons(items: map<nat, Link>, b: seq<nat>, bs: seq<seq<nat>>)
    requires ClearBundle(items, b, true) && ClearBundles(items, bs)
    ensures ClearBundles(items, [b] + bs)
  {
    forall i ensures ClearBundleAt(items, [b] + bs, i) {
      if 0 < i <= |bs| {
        assert ([b] + bs)[i] == bs[i - 1] && ClearBundleAt(items, bs, i - 1);
      }
    }
  }

  /** Taking the top bundle of the global list keeps the free links in order. */
  lemma AllFreeFromGlobal(s: FreeLinks)
    requires s.Partial == [] && s.Full == [] && s.Bundles != []
    ensures AllFree(FreeLinks(s.Bundles[0], [], s.Bundles[1..])) == AllFree(s)
    ensures AllFree(s) == s.Bundles[0] + Concat(s.Bundles[1..])
    ensures Heads(s.Bundles) == [HeadOf(s.Bundles[0])] + Heads(s.Bundles[1..])
  {
    ConcatCons(s.Bundles[0], s.Bundles[1..]);
    assert [s.Bundles[0]] + s.Bundles[1..] == s.Bundles;
  }

  /**
   * Refill from the global list, after its Pop cleared the top bundle's first
   * SingleNext: that bundle becomes the partial bundle.
   */
  lemma RefillFromGlobalKeepsInv(items: map<nat, Link>, items': map<nat, Link>, t: ThreadLocalCache, s: FreeLinks, global: seq<nat>)
    requires CacheInv(items, Some(t), s, global) && s.Partial == [] && s.Full == [] && s.Bundles != []
    requires var h := s.Bundles[0][0]; h in items && items' == items[h := items[h].(SingleNext := 0)]
    ensures var t' := t.(PartialBundle := s.Bundles[0][0], NumPartial := NumPerBundle);
            CacheInv(items', Some(t'), RefillSpec(s, 0), global[1..])
    ensures AllFree(RefillSpec(s, 0)) == AllFree(s)
    ensures SameLinks(items, items', global[1..])
    ensures Confines(items, items', AllFree(s), AllFree(RefillSpec(s, 0)), [])
  {
    var b := s.Bundles[0];
    var rest := s.Bundles[1..];
    var h := b[0];
    AllFreeFromGlobal(s);
    ClearBundlesUncons(items, s.Bundles);
    ClearBundleRelink(items, b, true, 0);
    NoDupAppendRight(b, Concat(rest));
    SameLinksExcept(items, items', h, Concat(rest));
    ClearBundlesFrame(items, items', rest);
    NotInHeads(rest, h);
    SameLinksExcept(items, items', h, global[1..]);
    ConfinesUpdate(items, items', AllFree(s), AllFree(RefillSpec(s, 0)), [], h);
  }

  /** The fresh links form a bundle, highest index first. */
  lemma FreshChainIsBundle(items: map<nat, Link>, first: nat)
    requires 0 < first && first + NumPerBundle <= MaxLinks
    requires forall k :: first <= k < first + NumPerBundle ==>
               k in items && items[k] == Link(Init(), if k == first then 0 else k - 1, 0)
    ensures ClearBundle(items, FreshChain(first, NumPerBundle), false)
    ensures NoDup(FreshChain(first, NumPerBundle))
  {
    var p := FreshChain(first, NumPerBundle);
    forall k | 0 <= k < |p| ensures p[k] in items && 0 < p[k] < MaxLinks && items[p[k]].Payload == NextOf(p, k) {
      assert p[k] == first + NumPerBundle - 1 - k;
    }
  }

  /**
   * After the fresh links FirstIndex..FirstIndex+63 have been chained, each on the
   * previous one, they form the partial bundle, highest index first.
   */
  lemma RefillFreshKeepsInv(items: map<nat, Link>, t: ThreadLocalCache, first: nat)
    requires 0 < first && first + NumPerBundle <= MaxLinks && t.FullBundle == 0
    requires forall k :: first <= k < first + NumPerBundle ==>
               k in items && items[k] == Link(Init(), if k == first then 0 else k - 1, 0)
    ensures var t' := t.(PartialBundle := first + NumPerBundle - 1, NumPartial := NumPerBundle);
            CacheInv(items, Some(t'), FreeLinks(FreshChain(first, NumPerBundle), [], []), [])
  {
    var s := FreeLinks(FreshChain(first, NumPerBundle), [], []);
    assert AllFree(s) == s.Partial;
    FreshChainIsBundle(items, first);
  }

  /** The free links after the partial bundle's first one. */
  lemma AllFreeTakeHead(s: FreeLinks)
    requires s.Partial != []
    ensures AllFree(s) == [s.Partial[0]] + AllFree(s.(Partial := s.Partial[1..]))
  {
    assert s.Partial == [s.Partial[0]] + s.Partial[1..];
  }

  /** Dropping the partial bundle's first link keeps the remaining chains. */
  lemma TakeHeadChains(items: map<nat, Link>, items': map<nat, Link>, s: FreeLinks)
    requires FreeChains(items, s) && s.Partial != [] && NoDup(AllFree(s))
    requires var r := s.Partial[0]; r in items && r in items' && items' == items[r := items'[r]]
    ensures FreeChains(items', s.(Partial := s.Partial[1..]))
    ensures s.Partial[0] !in AllFree(s.(Partial := s.Partial[1..]))
  {
    var r := s.Partial[0];
    var s' := s.(Partial := s.Partial[1..]);
    ClearBundleTail(items, s.Partial);
    AllFreeTakeHead(s);
    NoDupTail(AllFree(s));
    SameLinksExcept(items, items', r, AllFree(s'));
    FreeChainsFrame(items, items', s');
  }

  /** Handing out the partial bundle's first link: it leaves the chains with its Payload cleared. */
  lemma TakeHeadKeepsInv(items: map<nat, Link>, t: ThreadLocalCache, s: FreeLinks, global: seq<nat>)
    requires CacheInv(items, Some(t), s, global) && s.Partial != []
    ensures s.Partial[0] in items && 0 < s.Partial[0] < MaxLinks
    ensures var r := s.Partial[0];
            var items' := items[r := items[r].(Payload := 0)];
            var t' := t.(PartialBundle := items[r].Payload, NumPartial := t.NumPartial - 1);
            && CacheInv(items', Some(t'), s.(Partial := s.Partial[1..]), global)
            && r !in AllFree(s.(Partial := s.Partial[1..]))
            && AllFree(s) == [r] + AllFree(s.(Partial := s.Partial[1..]))
            && items'[r].SingleNext == 0 && GetPtr(items'[r].DoubleNext) == 0
            && SameLinks(items, items', global)
            && Confines(items, items', AllFree(s), AllFree(s.(Partial := s.Partial[1..])), [])
  {
    var r := s.Partial[0];
    ClearBundleTail(items, s.Partial);
    var items' := items[r := items[r].(Payload := 0)];
    var s' := s.(Partial := s.Partial[1..]);
    TakeHeadChains(items, items', s);
    AllFreeTakeHead(s);
    NoDupTail(AllFree(s));
    HeadsAreFree(s', r);
    SameLinksExcept(items, items', r, global);
    ConfinesUpdate(items, items', AllFree(s), AllFree(s'), [], r);
  }

  /**
   * Retiring a full partial bundle without a full bundle: it becomes the full
   * bundle and the partial bundle starts empty.
   */
  lemma RetireKeepsInv(items: map<nat, Link>, t: ThreadLocalCache, s: FreeLinks, global: seq<nat>)
    requires CacheInv(items, Some(t), s, global) && |s.Partial| == NumPerBundle && s.Full == []
    ensures var t' := t.(FullBundle := t.PartialBundle, PartialBundle := 0, NumPartial := 0);
            CacheInv(items, Some(t'), FreeLinks([], s.Partial, s.Bundles), global)
    ensures AllFree(FreeLinks([], s.Partial, s.Bundles)) == AllFree(s)
  {
    assert AllFree(FreeLinks([], s.Partial, s.Bundles)) == AllFree(s);
  }

  /** Moving the full bundle onto the global list keeps the free links in order. */
  lemma AllFreeRetire(s: FreeLinks)
    ensures AllFree(FreeLinks([], s.Partial, [s.Full] + s.Bundles)) == AllFree(s)
    ensures Heads([s.Full] + s.Bundles) == [HeadOf(s.Full)] + Heads(s.Bundles)
  {
    ConcatCons(s.Full, s.Bundles);
    assert ([s.Full] + s.Bundles)[1..] == s.Bundles;
  }

  /** An element of the middle part of a duplicate-free sequence is in neither other part. */
  lemma NoDupMiddle(a: seq<nat>, b: seq<nat>, c: seq<nat>, k: nat)
    requires NoDup(a + b + c) && k < |b|
    ensures b[k] !in a && b[k] !in c
  {
    var s := a + b + c;
    assert s[|a| + k] == b[k];
    forall i | 0 <= i < |a| ensures a[i] != b[k] {
      assert s[i] == a[i] && DistinctAt(s, i, |a| + k);
    }
    forall j | 0 <= j < |c| ensures c[j] != b[k] {
      assert s[|a| + |b| + j] == c[j] && DistinctAt(s, |a| + k, |a| + |b| + j);
    }
  }

  /**
   * Retiring a full partial bundle while a full bundle is held: after the global
   * list's Push linked the full bundle's first link, that bundle is on the
   * global list, the partial bundle is the full one, and the partial bundle is
   * empty.
   */
  lemma RetireWithFullKeepsInv(items: map<nat, Link>, items': map<nat, Link>, t: ThreadLocalCache, s: FreeLinks, global: seq<nat>)
    requires CacheInv(items, Some(t), s, global) && |s.Partial| == NumPerBundle && s.Full != []
    requires var f := s.Full[0]; f in items && items' == items[f := items[f].(SingleNext := HeadOf(global))]
    ensures s.Full[0] !in global && 0 < s.Full[0] < MaxLinks
    ensures var t' := t.(FullBundle := t.PartialBundle, PartialBundle := 0, NumPartial := 0);
            CacheInv(items', Some(t'), FreeLinks([], s.Partial, [s.Full] + s.Bundles), [s.Full[0]] + global)
    ensures AllFree(FreeLinks([], s.Partial, [s.Full] + s.Bundles)) == AllFree(s)
    ensures SameLinks(items, items', global)
    ensures Confines(items, items', AllFree(s), AllFree(FreeLinks([], s.Partial, [s.Full] + s.Bundles)), [])
  {
    var f := s.Full[0];
    assert InArenaAt(items, s.Full, 0);
    AllFreeRetire(s);
    NoDupMiddle(s.Partial, s.Full, Concat(s.Bundles), 0);
    NotInHeads(s.Bundles, f);
    SameLinksExcept(items, items', f, global);
    SameLinksExcept(items, items', f, s.Partial);
    ClearBundleFrame(items, items', s.Partial, false);
    SameLinksExcept(items, items', f, Concat(s.Bundles));
    ClearBundlesFrame(items, items', s.Bundles);
    assert ClearBundle(items, s.Full, false);
    ClearBundleRelink(items, s.Full, false, HeadOf(global));
    if HeadOf(global) == 0 {
      assert ClearAt(items, s.Full, false, 0);
      assert items' == items;
      ClearBundleOnGlobal(items, s.Full);
    }
    ClearBundlesCons(items', s.Full, s.Bundles);
    assert f in AllFree(s) by {
      assert AllFree(s)[|s.Partial|] == f;
    }
    ConfinesUpdate(items, items', AllFree(s), AllFree(s), [], f);
  }

  /** Pushing a link on the partial bundle puts it first among the free links. */
  lemma AllFreePushPartial(s: FreeLinks, item: nat)
    ensures AllFree(s.(Partial := [item] + s.Partial)) == [item] + AllFree(s)
  {
  }

  /** The pushed link, its Payload the old partial head, extends the chains. */
  lemma PushChains(items: map<nat, Link>, items': map<nat, Link>, s: FreeLinks, item: nat)
    requires FreeChains(items, s) && NoDup(AllFree(s))
    requires item in items && item in items' && 0 < item < MaxLinks && item !in AllFree(s)
    requires items' == items[item := items'[item]]
    requires GetPtr(items'[item].DoubleNext) == 0 && items'[item].SingleNext == 0
    requires items'[item].Payload == HeadOf(s.Partial)
    ensures FreeChains(items', s.(Partial := [item] + s.Partial))
  {
    SameLinksExcept(items, items', item, AllFree(s));
    FreeChainsFrame(items, items', s);
    assert item !in s.Partial by {
      forall k | 0 <= k < |s.Partial| ensures s.Partial[k] == AllFree(s)[k] { }
    }
    ClearBundleCons(items', item, s.Partial);
  }

  /** The pushed link heads the partial bundle (below 64 links). */
  lemma PushOnPartialKeepsInv(items: map<nat, Link>, t: ThreadLocalCache, s: FreeLinks, global: seq<nat>, item: nat)
    requires CacheInv(items, Some(t), s, global) && |s.Partial| < NumPerBundle
    requires item in items && 0 < item < MaxLinks && item !in AllFree(s)
    ensures var l := items[item];
            var items' := items[item := l.(DoubleNext := SetPtr(l.DoubleNext, 0), SingleNext := 0, Payload := t.PartialBundle)];
            var t' := t.(PartialBundle := item, NumPartial := t.NumPartial + 1);
            && CacheInv(items', Some(t'), s.(Partial := [item] + s.Partial), global)
            && AllFree(s.(Partial := [item] + s.Partial)) == [item] + AllFree(s)
            && SameLinks(items, items', global)
            && Confines(items, items', AllFree(s), AllFree(s.(Partial := [item] + s.Partial)), [item])
  {
    var l := items[item];
    var items' := items[item := l.(DoubleNext := SetPtr(l.DoubleNext, 0), SingleNext := 0, Payload := t.PartialBundle)];
    PushChains(items, items', s, item);
    AllFreePushPartial(s, item);
    NoDupCons(item, AllFree(s));
    HeadsAreFree(s, item);
    SameLinksExcept(items, items', item, global);
    ConfinesUpdate(items, items', AllFree(s), AllFree(s.(Partial := [item] + s.Partial)), [item], item);
  }

  /**
   * The frame of a cache operation, on values: every link of `items` that is
   * neither free (in `free`) nor among `touched` keeps its record and is still
   * not free afterwards.  A collection's links are such links.
   */
  ghost predicate Confines(items: map<nat, Link>, items': map<nat, Link>, free: seq<nat>, free': seq<nat>, touched: seq<nat>)
  {
    forall i {:trigger Kept(items, items', free, free', touched, i)} :: Kept(items, items', free, free', touched, i)
  }

  /** Link i, if it is neither free nor touched, keeps its record and stays not free. */
  ghost predicate Kept(items: map<nat, Link>, items': map<nat, Link>, free: seq<nat>, free': seq<nat>, touched: seq<nat>, i: nat)
  {
    i in items && i !in free && i !in touched ==> i in items' && items'[i] == items[i] && i !in free'
  }

  lemma ConfinesTrans(a: map<nat, Link>, b: map<nat, Link>, c: map<nat, Link>, fa: seq<nat>, fb: seq<nat>, fc: seq<nat>, touched: seq<nat>)
    requires Confines(a, b, fa, fb, touched) && Confines(b, c, fb, fc, touched)
    ensures Confines(a, c, fa, fc, touched)
  {
    forall i ensures Kept(a, c, fa, fc, touched, i) {
      assert Kept(a, b, fa, fb, touched, i) && Kept(b, c, fb, fc, touched, i);
    }
  }

  /** More touched links make a weaker frame. */
  lemma ConfinesWiden(a: map<nat, Link>, b: map<nat, Link>, fa: seq<nat>, fb: seq<nat>, touched: seq<nat>, touched': seq<nat>)
    requires Confines(a, b, fa, fb, touched)
    requires forall x :: x in touched ==> x in touched'
    ensures Confines(a, b, fa, fb, touched')
  {
    forall i ensures Kept(a, b, fa, fb, touched', i) {
      assert Kept(a, b, fa, fb, touched, i);
    }
  }

  /** A touched link that was free, or not yet in the arena, need not be named as touched. */
  lemma ConfinesNarrow(a: map<nat, Link>, b: map<nat, Link>, fa: seq<nat>, fb: seq<nat>, touched: seq<nat>, touched': seq<nat>)
    requires Confines(a, b, fa, fb, touched')
    requires forall x :: x in touched' ==> x in touched || x in fa || x !in a
    ensures Confines(a, b, fa, fb, touched)
  {
    forall i ensures Kept(a, b, fa, fb, touched, i) {
      assert Kept(a, b, fa, fb, touched', i);
    }
  }

  /** Nothing changes. */
  lemma ConfinesSame(items: map<nat, Link>, free: seq<nat>, touched: seq<nat>)
    ensures Confines(items, items, free, free, touched)
  {
    forall i ensures Kept(items, items, free, free, touched, i) { }
  }

  /** Rewriting one free or touched link, with no new free links but touched ones. */
  lemma ConfinesUpdate(items: map<nat, Link>, items': map<nat, Link>, free: seq<nat>, free': seq<nat>, touched: seq<nat>, x: nat)
    requires x in items' && items' == items[x := items'[x]]
    requires x in free || x in touched
    requires forall i :: i in free' ==> i in free || i in touched
    ensures Confines(items, items', free, free', touched)
  {
    forall i ensures Kept(items, items', free, free', touched, i) { }
  }

  /** Fresh links, absent from the old arena, replacing an empty free list. */
  lemma ConfinesFresh(items: map<nat, Link>, items': map<nat, Link>, free': seq<nat>)
    requires forall i :: i in items ==> i in items' && items'[i] == items[i]
    requires forall i :: i in free' ==> i !in items
    ensures Confines(items, items', [], free', [])
  {
    forall i ensures Kept(items, items', [], free', [], i) { }
  }

  /**
   * A chain of links that were neither free nor touched keeps its records, stays
   * in the arena and is still not free.
   */
  lemma ConfinesChain(items: map<nat, Link>, items': map<nat, Link>, free: seq<nat>, free': seq<nat>, touched: seq<nat>, nodes: seq<nat>)
    requires Confines(items, items', free, free', touched)
    requires InArena(items, nodes) && Disjoint(nodes, free) && Disjoint(nodes, touched)
    ensures SameLinks(items, items', nodes) && InArena(items', nodes) && Disjoint(nodes, free')
  {
    forall k ensures SameAt(items, items', nodes, k) && InArenaAt(items', nodes, k) && OutsideAt(nodes, free', k) {
      if 0 <= k < |nodes| {
        assert InArenaAt(items, nodes, k) && OutsideAt(nodes, free, k) && OutsideAt(nodes, touched, k);
        assert Kept(items, items', free, free', touched, nodes[k]);
      }
    }
  }

  /** The global list's links are free links. */
  lemma GlobalIsFree(s: FreeLinks, global: seq<nat>, x: nat)
    requires WellFormed(s) && global == Heads(s.Bundles) && x in global
    ensures x in AllFree(s)
  {
    var i :| 0 <= i < |global| && global[i] == x;
    HeadsInConcat(s.Bundles, i);
  }

  /** The cache invariant depends only on the records of the free links. */
  lemma CacheInvFrame(items: map<nat, Link>, items': map<nat, Link>, tls: Option<ThreadLocalCache>, s: FreeLinks, global: seq<nat>)
    requires CacheInv(items, tls, s, global) && SameLinks(items, items', AllFree(s))
    ensures CacheInv(items', tls, s, global) && SameLinks(items, items', global)
  {
    FreeChainsFrame(items, items', s);
    var all := AllFree(s);
    forall k ensures SameAt(items, items', global, k) {
      if 0 <= k < |global| && global[k] in items {
        GlobalIsFree(s, global, global[k]);
        SameLinksElem(items, items', all, global[k]);
      }
    }
  }
}
