/**
 * How collections thread themselves through the link arena: a chain is the
 * sequence of link indices a collection owns, in order, and each kind of
 * collection links consecutive entries through one field of the link record
 * (SingleNext for LIFO lists, the index part of DoubleNext for FIFO queues,
 * Payload for free-link bundles).  The last link of a chain points to 0.
 */
module LinkChains {
  import opened Common
  import opened IndexedPointers

  /** Every entry of the chain is a live, non-null link of the arena. */
  ghost predicate InArena(items: map<nat, Link>, nodes: seq<nat>)
  {
    forall k {:trigger InArenaAt(items, nodes, k)} :: InArenaAt(items, nodes, k)
  }

  ghost predicate InArenaAt(items: map<nat, Link>, nodes: seq<nat>, k: int)
  {
    0 <= k < |nodes| ==> nodes[k] in items && 0 < nodes[k] < MaxLinks
  }

  /** A LIFO chain: duplicate-free, linked through SingleNext. */
  ghost predicate SingleChain(items: map<nat, Link>, nodes: seq<nat>)
  {
    NoDup(nodes) && InArena(items, nodes) &&
    forall k {:trigger SingleAt(items, nodes, k)} :: SingleAt(items, nodes, k)
  }

  /** A FIFO chain: duplicate-free, linked through the index part of DoubleNext. */
  ghost predicate DoubleChain(items: map<nat, Link>, nodes: seq<nat>)
  {
    NoDup(nodes) && InArena(items, nodes) &&
    forall k {:trigger DoubleAt(items, nodes, k)} :: DoubleAt(items, nodes, k)
  }

  /** A free-link bundle: duplicate-free, linked through Payload. */
  ghost predicate PayloadChain(items: map<nat, Link>, nodes: seq<nat>)
  {
    NoDup(nodes) && InArena(items, nodes) &&
    forall k {:trigger PayloadAt(items, nodes, k)} :: PayloadAt(items, nodes, k)
  }

  /** Entry k of a LIFO chain links to entry k+1 (or 0). */
  ghost predicate SingleAt(items: map<nat, Link>, nodes: seq<nat>, k: int)
  {
    0 <= k < |nodes| && nodes[k] in items ==> items[nodes[k]].SingleNext == NextOf(nodes, k)
  }

  ghost predicate DoubleAt(items: map<nat, Link>, nodes: seq<nat>, k: int)
  {
    0 <= k < |nodes| && nodes[k] in items ==> GetPtr(items[nodes[k]].DoubleNext) == NextOf(nodes, k)
  }

  ghost predicate PayloadAt(items: map<nat, Link>, nodes: seq<nat>, k: int)
  {
    0 <= k < |nodes| && nodes[k] in items ==> items[nodes[k]].Payload == NextOf(nodes, k)
  }

  /** The arena `b` holds the same records as `a` at every entry of the chain. */
  ghost predicate SameLinks(a: map<nat, Link>, b: map<nat, Link>, nodes: seq<nat>)
  {
    forall k {:trigger SameAt(a, b, nodes, k)} :: SameAt(a, b, nodes, k)
  }

  ghost predicate SameAt(a: map<nat, Link>, b: map<nat, Link>, nodes: seq<nat>, k: int)
  {
    0 <= k < |nodes| && nodes[k] in a ==> nodes[k] in b && b[nodes[k]] == a[nodes[k]]
  }

  /** The Payload fields along a chain, in chain order (0 for a link not in the arena). */
  ghost function Payloads(items: map<nat, Link>, nodes: seq<nat>): (r: seq<nat>)
    ensures |r| == |nodes|
  {
    if nodes == [] then []
    else [if nodes[0] in items then items[nodes[0]].Payload else 0] + Payloads(items, nodes[1..])
  }

  lemma {:induction false} PayloadsFrame(a: map<nat, Link>, b: map<nat, Link>, nodes: seq<nat>)
    requires InArena(a, nodes) && SameLinks(a, b, nodes)
    ensures Payloads(a, nodes) == Payloads(b, nodes)
    decreases |nodes|
  {
    if nodes != [] {
      assert InArenaAt(a, nodes, 0) && SameAt(a, b, nodes, 0);
      var t := nodes[1..];
      forall k ensures InArenaAt(a, t, k) && SameAt(a, b, t, k) {
        if 0 <= k < |t| {
          assert t[k] == nodes[k + 1] && InArenaAt(a, nodes, k + 1) && SameAt(a, b, nodes, k + 1);
        }
      }
      PayloadsFrame(a, b, t);
    }
  }

  /** A link on the chain keeps its record. */
  lemma SameLinksElem(a: map<nat, Link>, b: map<nat, Link>, nodes: seq<nat>, x: nat)
    requires SameLinks(a, b, nodes) && x in nodes && x in a
    ensures x in b && b[x] == a[x]
  {
    var k :| 0 <= k < |nodes| && nodes[k] == x;
    assert SameAt(a, b, nodes, k);
  }

  /** Records written only outside the chain leave it alone. */
  lemma SameLinksUpdate(a: map<nat, Link>, x: nat, l: Link, nodes: seq<nat>)
    requires x !in nodes
    ensures SameLinks(a, a[x := l], nodes)
  {
    var b := a[x := l];
    forall k ensures SameAt(a, b, nodes, k) {
      if 0 <= k < |nodes| {
        assert nodes[k] != x;
      }
    }
  }

  /** What holds along a chain holds along its tail. */
  lemma SameLinksTail(a: map<nat, Link>, b: map<nat, Link>, nodes: seq<nat>)
    requires SameLinks(a, b, nodes) && nodes != []
    ensures SameLinks(a, b, nodes[1..])
  {
    forall k ensures SameAt(a, b, nodes[1..], k) {
      if 0 <= k < |nodes| - 1 {
        assert nodes[1..][k] == nodes[k + 1] && SameAt(a, b, nodes, k + 1);
      }
    }
  }

  /** A link on a chain is a live, non-null link of the arena. */
  lemma InArenaElem(items: map<nat, Link>, nodes: seq<nat>, x: nat)
    requires InArena(items, nodes) && x in nodes
    ensures x in items && 0 < x < MaxLinks
  {
    var k :| 0 <= k < |nodes| && nodes[k] == x;
    assert InArenaAt(items, nodes, k);
  }

  /** The head of a non-empty chain is a live, non-null link. */
  lemma InArenaHead(items: map<nat, Link>, nodes: seq<nat>)
    requires InArena(items, nodes)
    ensures nodes != [] ==> nodes[0] in items && 0 < nodes[0] < MaxLinks
    ensures HeadOf(nodes) < MaxLinks
  {
    if nodes != [] {
      assert InArenaAt(items, nodes, 0);
    }
  }

  lemma SingleChainFrame(a: map<nat, Link>, b: map<nat, Link>, nodes: seq<nat>)
    requires SingleChain(a, nodes) && SameLinks(a, b, nodes)
    ensures SingleChain(b, nodes)
  {
    forall k ensures InArenaAt(b, nodes, k) && SingleAt(b, nodes, k) {
      assert InArenaAt(a, nodes, k) && SingleAt(a, nodes, k) && SameAt(a, b, nodes, k);
    }
  }

  lemma DoubleChainFrame(a: map<nat, Link>, b: map<nat, Link>, nodes: seq<nat>)
    requires DoubleChain(a, nodes) && SameLinks(a, b, nodes)
    ensures DoubleChain(b, nodes)
  {
    forall k ensures InArenaAt(b, nodes, k) && DoubleAt(b, nodes, k) {
      assert InArenaAt(a, nodes, k) && DoubleAt(a, nodes, k) && SameAt(a, b, nodes, k);
    }
  }

  lemma PayloadChainFrame(a: map<nat, Link>, b: map<nat, Link>, nodes: seq<nat>)
    requires PayloadChain(a, nodes) && SameLinks(a, b, nodes)
    ensures PayloadChain(b, nodes)
  {
    forall k ensures InArenaAt(b, nodes, k) && PayloadAt(b, nodes, k) {
      assert InArenaAt(a, nodes, k) && PayloadAt(a, nodes, k) && SameAt(a, b, nodes, k);
    }
  }

  /** Consing a link whose SingleNext points at the old head extends a LIFO chain. */
  lemma SingleChainCons(items: map<nat, Link>, x: nat, nodes: seq<nat>)
    requires SingleChain(items, nodes) && x !in nodes
    requires x in items && 0 < x < MaxLinks && items[x].SingleNext == HeadOf(nodes)
    ensures SingleChain(items, [x] + nodes)
  {
    NoDupCons(x, nodes);
    var t := [x] + nodes;
    forall k ensures InArenaAt(items, t, k) && SingleAt(items, t, k) {
      if 0 < k < |t| {
        assert t[k] == nodes[k - 1];
        assert NextOf(t, k) == NextOf(nodes, k - 1);
        assert InArenaAt(items, nodes, k - 1) && SingleAt(items, nodes, k - 1);
      }
    }
  }

  /** Dropping the head of a LIFO chain leaves a LIFO chain. */
  lemma SingleChainTail(items: map<nat, Link>, nodes: seq<nat>)
    requires SingleChain(items, nodes) && nodes != []
    ensures SingleChain(items, nodes[1..]) && nodes[0] !in nodes[1..]
    ensures nodes[0] in items && 0 < nodes[0] < MaxLinks && items[nodes[0]].SingleNext == HeadOf(nodes[1..])
  {
    NoDupTail(nodes);
    var t := nodes[1..];
    assert InArenaAt(items, nodes, 0) && SingleAt(items, nodes, 0);
    forall k ensures InArenaAt(items, t, k) && SingleAt(items, t, k) {
      if 0 <= k < |t| {
        assert t[k] == nodes[k + 1];
        assert NextOf(t, k) == NextOf(nodes, k + 1);
        assert InArenaAt(items, nodes, k + 1) && SingleAt(items, nodes, k + 1);
      }
    }
  }

  /** Dropping the head of a bundle leaves a bundle. */
  lemma PayloadChainTail(items: map<nat, Link>, nodes: seq<nat>)
    requires PayloadChain(items, nodes) && nodes != []
    ensures PayloadChain(items, nodes[1..]) && nodes[0] !in nodes[1..]
    ensures nodes[0] in items && 0 < nodes[0] < MaxLinks && items[nodes[0]].Payload == HeadOf(nodes[1..])
  {
    NoDupTail(nodes);
    var t := nodes[1..];
    assert InArenaAt(items, nodes, 0) && PayloadAt(items, nodes, 0);
    forall k ensures InArenaAt(items, t, k) && PayloadAt(items, t, k) {
      if 0 <= k < |t| {
        assert t[k] == nodes[k + 1];
        assert NextOf(t, k) == NextOf(nodes, k + 1);
        assert InArenaAt(items, nodes, k + 1) && PayloadAt(items, nodes, k + 1);
      }
    }
  }

  /** Consing a link whose Payload points at the old head extends a bundle. */
  lemma PayloadChainCons(items: map<nat, Link>, x: nat, nodes: seq<nat>)
    requires PayloadChain(items, nodes) && x !in nodes
    requires x in items && 0 < x < MaxLinks && items[x].Payload == HeadOf(nodes)
    ensures PayloadChain(items, [x] + nodes)
  {
    NoDupCons(x, nodes);
    var t := [x] + nodes;
    forall k ensures InArenaAt(items, t, k) && PayloadAt(items, t, k) {
      if 0 < k < |t| {
        assert t[k] == nodes[k - 1];
        assert NextOf(t, k) == NextOf(nodes, k - 1);
        assert InArenaAt(items, nodes, k - 1) && PayloadAt(items, nodes, k - 1);
      }
    }
  }

  /** Dropping the head of a FIFO chain leaves a FIFO chain. */
  lemma DoubleChainTail(items: map<nat, Link>, nodes: seq<nat>)
    requires DoubleChain(items, nodes) && nodes != []
    ensures DoubleChain(items, nodes[1..]) && nodes[0] !in nodes[1..]
    ensures nodes[0] in items && 0 < nodes[0] < MaxLinks && GetPtr(items[nodes[0]].DoubleNext) == HeadOf(nodes[1..])
  {
    NoDupTail(nodes);
    var t := nodes[1..];
    assert InArenaAt(items, nodes, 0) && DoubleAt(items, nodes, 0);
    forall k ensures InArenaAt(items, t, k) && DoubleAt(items, t, k) {
      if 0 <= k < |t| {
        assert t[k] == nodes[k + 1];
        assert NextOf(t, k) == NextOf(nodes, k + 1);
        assert InArenaAt(items, nodes, k + 1) && DoubleAt(items, nodes, k + 1);
      }
    }
  }

  /** The last link of a FIFO chain is live and its DoubleNext index is null. */
  lemma DoubleChainLast(items: map<nat, Link>, nodes: seq<nat>)
    requires DoubleChain(items, nodes) && nodes != []
    ensures nodes[|nodes| - 1] in items && GetPtr(items[nodes[|nodes| - 1]].DoubleNext) == 0
  {
    assert InArenaAt(items, nodes, |nodes| - 1) && DoubleAt(items, nodes, |nodes| - 1);
  }

  /**
   * Appending a link with a null DoubleNext index, by pointing the old last
   * link's DoubleNext at it, extends a FIFO chain.
   */
  lemma DoubleChainSnoc(items: map<nat, Link>, nodes: seq<nat>, x: nat, l: Link)
    requires DoubleChain(items, nodes) && nodes != [] && x !in nodes
    requires x in items && 0 < x < MaxLinks && GetPtr(items[x].DoubleNext) == 0 && GetPtr(l.DoubleNext) == x
    ensures DoubleChain(items[nodes[|nodes| - 1] := l], nodes + [x])
  {
    var last := nodes[|nodes| - 1];
    var b := items[last := l];
    var t := nodes + [x];
    NoDupSnoc(nodes, x);
    forall k ensures InArenaAt(b, t, k) && DoubleAt(b, t, k) {
      if 0 <= k < |nodes| {
        assert t[k] == nodes[k] && InArenaAt(items, nodes, k) && DoubleAt(items, nodes, k);
        if k < |nodes| - 1 {
          assert DistinctAt(nodes, k, |nodes| - 1);
          assert NextOf(t, k) == NextOf(nodes, k);
        }
      } else if k == |nodes| {
        assert t[k] == x && x != last;
      }
    }
  }

  /** Appending to a chain appends its payload. */
  lemma {:induction false} PayloadsSnoc(items: map<nat, Link>, nodes: seq<nat>, x: nat)
    requires x in items
    ensures Payloads(items, nodes + [x]) == Payloads(items, nodes) + [items[x].Payload]
    decreases |nodes|
  {
    if nodes != [] {
      assert (nodes + [x])[1..] == nodes[1..] + [x];
      PayloadsSnoc(items, nodes[1..], x);
    } else {
      assert Payloads(items, [x][1..]) == [];
    }
  }

  /** Rewriting a record without touching its Payload leaves every chain's payloads. */
  lemma {:induction false} PayloadsWrite(items: map<nat, Link>, x: nat, l: Link, nodes: seq<nat>)
    requires x in items && l.Payload == items[x].Payload
    ensures Payloads(items[x := l], nodes) == Payloads(items, nodes)
    decreases |nodes|
  {
    if nodes != [] {
      PayloadsWrite(items, x, l, nodes[1..]);
    }
  }
}
