/** Small shared vocabulary: optional values, powers of two, duplicate-free index lists. */
module Common {

  datatype Option<T> = None | Some(value: T)

  /** 2^n. */
  function Pow2(n: nat): (r: nat)
    ensures r >= 1
  {
    if n == 0 then 1 else 2 * Pow2(n - 1)
  }

  /** No index occurs twice in the list. */
  ghost predicate NoDup(s: seq<nat>)
  {
    forall i, j {:trigger DistinctAt(s, i, j)} :: DistinctAt(s, i, j)
  }

  ghost predicate DistinctAt(s: seq<nat>, i: int, j: int)
  {
    0 <= i < j < |s| ==> s[i] != s[j]
  }

  /** No element of `a` occurs in `b`. */
  ghost predicate Disjoint(a: seq<nat>, b: seq<nat>)
  {
    forall k {:trigger OutsideAt(a, b, k)} :: OutsideAt(a, b, k)
  }

  ghost predicate OutsideAt(a: seq<nat>, b: seq<nat>, k: int)
  {
    0 <= k < |a| ==> a[k] !in b
  }

  lemma DisjointElem(a: seq<nat>, b: seq<nat>, x: nat)
    requires Disjoint(a, b) && x in a
    ensures x !in b
  {
    var k :| 0 <= k < |a| && a[k] == x;
    assert OutsideAt(a, b, k);
  }

  lemma DisjointTail(a: seq<nat>, b: seq<nat>)
    requires Disjoint(a, b) && a != []
    ensures Disjoint(a[1..], b) && a[0] !in b
  {
    assert OutsideAt(a, b, 0);
    forall k ensures OutsideAt(a[1..], b, k) {
      if 0 <= k < |a| - 1 {
        assert a[1..][k] == a[k + 1] && OutsideAt(a, b, k + 1);
      }
    }
  }

  lemma DisjointCons(x: nat, a: seq<nat>, b: seq<nat>)
    requires Disjoint(a, b) && x !in b
    ensures Disjoint([x] + a, b)
  {
    forall k ensures OutsideAt([x] + a, b, k) {
      if 0 < k <= |a| {
        assert ([x] + a)[k] == a[k - 1] && OutsideAt(a, b, k - 1);
      }
    }
  }

  /** The first element of a chain, or 0 (the null index) for an empty chain. */
  function HeadOf(s: seq<nat>): nat
  {
    if s == [] then 0 else s[0]
  }

  /** The successor of position k in a chain, or 0 (null) after the last element. */
  function NextOf(s: seq<nat>, k: nat): nat
  {
    if k + 1 < |s| then s[k + 1] else 0
  }

  /** The elements of a sequence, as a set. */
  ghost function Elements(s: seq<nat>): set<nat>
  {
    set x | x in s
  }

  lemma NoDupTail(s: seq<nat>)
    requires NoDup(s) && s != []
    ensures NoDup(s[1..]) && s[0] !in s[1..]
  {
    var t := s[1..];
    forall x | x in t ensures x != s[0] {
      var j :| 0 <= j < |t| && t[j] == x;
      assert s[j + 1] == x && DistinctAt(s, 0, j + 1);
    }
    forall i, j ensures DistinctAt(t, i, j) {
      if 0 <= i < j < |t| {
        assert t[i] == s[i + 1] && t[j] == s[j + 1] && DistinctAt(s, i + 1, j + 1);
      }
    }
  }

  lemma NoDupCons(x: nat, s: seq<nat>)
    requires NoDup(s) && x !in s
    ensures NoDup([x] + s)
  {
    var t := [x] + s;
    forall i, j ensures DistinctAt(t, i, j) {
      if 0 <= i < j < |t| {
        if i == 0 {
          assert t[j] == s[j - 1];
        } else {
          assert t[i] == s[i - 1] && t[j] == s[j - 1] && DistinctAt(s, i - 1, j - 1);
        }
      }
    }
  }

  lemma NoDupSnoc(s: seq<nat>, x: nat)
    requires NoDup(s) && x !in s
    ensures NoDup(s + [x]) && Elements(s + [x]) == Elements(s) + {x}
  {
    var t := s + [x];
    forall i, j ensures DistinctAt(t, i, j) {
      if 0 <= i < j < |t| {
        if j == |s| {
          assert t[i] == s[i];
        } else {
          assert t[i] == s[i] && t[j] == s[j] && DistinctAt(s, i, j);
        }
      }
    }
  }

  lemma DisjointSnoc(a: seq<nat>, x: nat, b: seq<nat>)
    requires Disjoint(a, b) && x !in b
    ensures Disjoint(a + [x], b)
  {
    forall k ensures OutsideAt(a + [x], b, k) {
      if 0 <= k < |a| {
        assert (a + [x])[k] == a[k] && OutsideAt(a, b, k);
      }
    }
  }

  /** The elements of s, last first. */
  function Reversed<T>(s: seq<T>): (r: seq<T>)
    ensures |r| == |s|
  {
    if s == [] then [] else [s[|s| - 1]] + Reversed(s[..|s| - 1])
  }

  /** Moving one element from the suffix s[i..] to the prefix s[..i]. */
  lemma SliceStep<T>(s: seq<T>, i: int)
    requires 0 <= i < |s|
    ensures s[..i + 1] == s[..i] + [s[i]] && s[..i + 1][..i] == s[..i] && s[i..][1..] == s[i + 1..]
  {
  }

  /** Every element of a suffix is an element of the whole. */
  lemma SuffixWithin(s: seq<nat>, k: nat)
    requires k <= |s|
    ensures forall x :: x in s[k..] ==> x in s
  {
  }
}
