/**
 * The registry of threads by id in private/ThreadManager.cpp: a map from
 * thread id to thread object.  Thread objects are opaque handles.
 */
module ThreadManagers {

  /** A runnable-thread object, by identity. */
  type ThreadRef = nat

  /** AddThread's effect: bind the id unless it is bound already. */
  function Added(m: map<int, ThreadRef>, id: int, t: ThreadRef): (r: map<int, ThreadRef>)
    ensures id in r && r[id] == (if id in m then m[id] else t)
    ensures forall k :: k != id ==> (k in r <==> k in m)
    ensures forall k :: k in m ==> r[k] == m[k]
  {
    if id in m then m else m[id := t]
  }

  /** RemoveThread(id)'s effect: drop the binding of id, if any. */
  function Erased(m: map<int, ThreadRef>, id: int): (r: map<int, ThreadRef>)
    ensures id !in r
    ensures forall k :: k != id ==> (k in r <==> k in m)
    ensures forall k :: k in r ==> r[k] == m[k]
  {
    m - {id}
  }

  /** Removing a thread just added to a free id gives back the registry. */
  lemma {:induction false} EraseUndoesAdd(m: map<int, ThreadRef>, id: int, t: ThreadRef)
    requires id !in m
    ensures Erased(Added(m, id, t), id) == m
  {
    assert Added(m, id, t) == m[id := t];
    assert m[id := t] - {id} == m;
  }

  /** Adding to a bound id changes nothing; adding twice is adding once. */
  lemma {:induction false} AddIdempotent(m: map<int, ThreadRef>, id: int, t: ThreadRef, u: ThreadRef)
    ensures id in m ==> Added(m, id, t) == m
    ensures Added(Added(m, id, t), id, u) == Added(m, id, t)
  {
  }

  class ThreadManager {
    var Threads: map<int, ThreadRef>

    constructor()
      ensures Threads == map[]
    {
      Threads := map[];
    }

    /** AddThread: bind the id to the thread when the id is free. */
    method AddThread(id: int, t: ThreadRef)
      modifies this
      ensures Threads == Added(old(Threads), id, t)
    {
      if id !in Threads {
        Threads := Threads[id := t];
      }
    }

    /** RemoveThread(id): erase the id's binding; an unbound id is left alone. */
    method RemoveThread(id: int)
      modifies this
      ensures Threads == Erased(old(Threads), id)
    {
      Threads := Threads - {id};
    }

    /** GetThreadName: the empty name, whatever the id. */
    method GetThreadName(id: int) returns (name: string)
      ensures name == ""
    {
      name := "";
    }
  }
}

/**
 * The registry of threads by id in Thread/ThreadBase.cpp: a map ordered by
 * id from thread id to thread object, ticked in id order when there is no
 * multithreading.  Each thread object has a name, given as a function.
 */
module ThreadBaseManagers {

  type ThreadRef = nat

  /** No id in s is smaller than k. */
  predicate AtMost(k: nat, s: set<nat>)
  {
    forall j :: j in s ==> k <= j
  }

  /** A non-empty set of ids has a smallest one. */
  lemma {:induction false} SmallestOf(s: set<nat>) returns (k: nat)
    requires s != {}
    ensures k in s && AtMost(k, s)
    decreases |s|
  {
    var x :| x in s;
    if s == {x} {
      k := x;
    } else {
      var m := SmallestOf(s - {x});
      k := if x < m then x else m;
      forall j | j in s ensures k <= j {
        if j != x {
          assert j in s - {x};
        }
      }
    }
  }

  lemma SmallestExists(s: set<nat>)
    requires s != {}
    ensures exists k :: k in s && AtMost(k, s)
  {
    var k := SmallestOf(s);
  }

  /** The smallest id of a non-empty set. */
  ghost function Lowest(s: set<nat>): (k: nat)
    requires s != {}
    ensures k in s && AtMost(k, s)
  {
    SmallestExists(s);
    var k :| k in s && AtMost(k, s);
    k
  }

  /** The ids bound to t. */
  ghost function KeysOf(m: map<nat, ThreadRef>, t: ThreadRef): set<nat>
  {
    set k | k in m && m[k] == t
  }

  /**
   * std::map::insert: a new binding only for a free id; a bound id keeps
   * its thread.
   */
  function Inserted(m: map<nat, ThreadRef>, id: nat, t: ThreadRef): (r: map<nat, ThreadRef>)
    ensures id in r && r[id] == (if id in m then m[id] else t)
    ensures forall k :: k != id ==> (k in r <==> k in m)
    ensures forall k :: k in m ==> r[k] == m[k]
  {
    if id in m then m else m[id := t]
  }

  /** AddThread as written: insert only when the id is already bound. */
  function AddedAsWritten(m: map<nat, ThreadRef>, id: nat, t: ThreadRef): map<nat, ThreadRef>
  {
    if id in m then Inserted(m, id, t) else m
  }

  /** As written, AddThread never changes the registry. */
  lemma {:induction false} AddAsWrittenChangesNothing(m: map<nat, ThreadRef>, id: nat, t: ThreadRef)
    ensures AddedAsWritten(m, id, t) == m
  {
    if id in m {
      assert Inserted(m, id, t) == m;
    }
  }

  /** On an empty registry, AddThread as written registers nothing, where an insert would. */
  lemma AddAsWrittenRegistersNothing()
    ensures 1 !in AddedAsWritten(map[], 1, 7)
    ensures 1 in Inserted(map[], 1, 7) && Inserted(map[], 1, 7)[1] == 7
  {
  }

  /** RemoveThread(t)'s effect: erase the lowest id bound to t; nothing when t is not registered. */
  ghost function RemovedThread(m: map<nat, ThreadRef>, t: ThreadRef): map<nat, ThreadRef>
  {
    if KeysOf(m, t) == {} then m else m - {Lowest(KeysOf(m, t))}
  }

  /** Removing a thread added under an id below all of the thread's other ids gives back the registry. */
  lemma {:induction false} RemoveUndoesInsert(m: map<nat, ThreadRef>, id: nat, t: ThreadRef)
    requires id !in m && AtMost(id, KeysOf(m, t))
    ensures RemovedThread(Inserted(m, id, t), t) == m
  {
    var n := Inserted(m, id, t);
    assert n == m[id := t];
    assert KeysOf(n, t) == KeysOf(m, t) + {id};
    var k := Lowest(KeysOf(n, t));
    assert k == id;
    assert n - {id} == m;
  }

  /** RemoveThread leaves every other thread registered under the same ids. */
  lemma {:induction false} RemoveKeepsOthers(m: map<nat, ThreadRef>, t: ThreadRef)
    ensures var r := RemovedThread(m, t);
      (forall k :: k in r ==> k in m && r[k] == m[k]) &&
      (forall k :: k in m && m[k] != t ==> k in r) &&
      |KeysOf(m, t) - KeysOf(r, t)| <= 1
  {
    var r := RemovedThread(m, t);
    if KeysOf(m, t) != {} {
      var k := Lowest(KeysOf(m, t));
      assert KeysOf(r, t) == KeysOf(m, t) - {k};
      assert KeysOf(m, t) - KeysOf(r, t) == {k};
    } else {
      assert KeysOf(m, t) - KeysOf(r, t) == {};
    }
  }

  /** The threads of a registry in increasing id order. */
  ghost function InIdOrder(m: map<nat, ThreadRef>): seq<ThreadRef>
    decreases |m.Keys|
  {
    if m.Keys == {} then []
    else
      var k := Lowest(m.Keys);
      assert |(m - {k}).Keys| < |m.Keys| by {
        assert (m - {k}).Keys == m.Keys - {k};
      }
      [m[k]] + InIdOrder(m - {k})
  }

  class ThreadManager {
    var Threads: map<nat, ThreadRef>
    /** The threads ticked so far, in order. */
    var Ticked: seq<ThreadRef>

    constructor()
      ensures Threads == map[] && Ticked == []
    {
      Threads := map[];
      Ticked := [];
    }

    /** AddThread as written: the insert runs only for an id that is already bound. */
    method AddThread(id: nat, t: ThreadRef)
      modifies this
      ensures Threads == AddedAsWritten(old(Threads), id, t) && Ticked == old(Ticked)
    {
      if id in Threads {
        Threads := Inserted(Threads, id, t);
      }
    }

    /** AddThread as its documentation describes it: add the thread under a free id. */
    method AddThreadIntended(id: nat, t: ThreadRef)
      modifies this
      ensures Threads == Inserted(old(Threads), id, t) && Ticked == old(Ticked)
    {
      Threads := Inserted(Threads, id, t);
    }

    /**
     * RemoveThread: visit the ids in increasing order and erase the first
     * one bound to the thread.
     */
    method RemoveThread(t: ThreadRef)
      modifies this
      ensures Threads == RemovedThread(old(Threads), t) && Ticked == old(Ticked)
    {
      var unvisited := Threads.Keys;
      while unvisited != {}
        invariant unvisited <= Threads.Keys && Threads == old(Threads) && Ticked == old(Ticked)
        invariant forall j :: j in KeysOf(Threads, t) ==> j in unvisited
        invariant forall j :: j in Threads.Keys - unvisited ==> AtMost(j, unvisited)
        decreases |unvisited|
      {
        SmallestExists(unvisited);
        var k :| k in unvisited && AtMost(k, unvisited);
        if Threads[k] == t {
          assert k in KeysOf(Threads, t);
          var lowest := Lowest(KeysOf(Threads, t));
          assert lowest in unvisited;
          assert k == lowest;
          Threads := Threads - {k};
          return;
        }
        forall j | j in Threads.Keys - (unvisited - {k}) ensures AtMost(j, unvisited - {k}) {
          if j != k {
            assert AtMost(j, unvisited);
          }
        }
        unvisited := unvisited - {k};
      }
      assert KeysOf(Threads, t) == {};
    }

    /** Tick: with no multithreading, tick every registered thread in id order. */
    method Tick(supportsMultithreading: bool)
      modifies this
      ensures Threads == old(Threads)
      ensures Ticked == if supportsMultithreading then old(Ticked) else old(Ticked) + InIdOrder(old(Threads))
    {
      if supportsMultithreading {
        return;
      }
      var rest := Threads;
      while rest != map[]
        invariant Threads == old(Threads)
        invariant Ticked + InIdOrder(rest) == old(Ticked) + InIdOrder(Threads)
        decreases |rest.Keys|
      {
        SmallestExists(rest.Keys);
        var k :| k in rest && AtMost(k, rest.Keys);
        assert k == Lowest(rest.Keys);
        assert InIdOrder(rest) == [rest[k]] + InIdOrder(rest - {k});
        Ticked := Ticked + [rest[k]];
        assert (rest - {k}).Keys == rest.Keys - {k};
        rest := rest - {k};
      }
      assert InIdOrder(rest) == [];
    }

    /** GetThreadName: the registered thread's name, or the empty name. */
    function GetThreadName(id: nat, names: ThreadRef -> string): (r: string)
      reads this
      ensures id in Threads ==> r == names(Threads[id])
      ensures id !in Threads ==> r == ""
    {
      if id in Threads then names(Threads[id]) else ""
    }
  }
}
