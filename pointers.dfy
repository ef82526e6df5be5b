/**
 * The tagged index pointer (FIndexedPointer) and the link record it addresses.
 *
 * One 64-bit word holds a 26-bit link index in its low bits and a 38-bit
 * counter-and-state above them.  The low bits of the counter-and-state, below
 * the per-collection increment TABAInc, hold a small state value; the bits above
 * count successful updates (the ABA counter).  The word is kept as a natural
 * number below 2^64; the source's masks and shifts by powers of two are written
 * as % and / by those powers, which agree with them on unsigned values.
 */
module IndexedPointers {
  import opened Common

  /** MAX_LOCK_FREE_LINKS_AS_BITS and MAX_LOCK_FREE_LINKS = 1 << 26. */
  const LinkBits: nat := 26
  const MaxLinks: nat := 0x400_0000
  /** MAX_TagBitsValue = 1 << (64 - 26): the counter-and-state is below this. */
  const TagLimit: nat := 0x40_0000_0000

  type Word = x: nat | x < 0x1_0000_0000_0000_0000

  /**
   * The increments TABAInc the LIFO root admits: a power of two (static assertion
   * "must be power of two") leaving at least 2^23 counter values, so at most 2^15.
   */
  const Increments: set<nat> :=
    {1, 2, 4, 8, 16, 32, 64, 128, 256, 512, 1024, 2048, 4096, 8192, 16384, 32768}

  /**
   * The increments the FIFO admits: its own static assertions ask for a power of
   * two no larger than 65536, one step beyond the LIFO root's bound.  The counter
   * arithmetic below holds for every one of them.
   */
  const TagIncrements: set<nat> := Increments + {65536}

  datatype IndexedPointer = IndexedPointer(Ptrs: Word)

  /** Init: the all-zero word, a null pointer with counter 0. */
  function Init(): (r: IndexedPointer)
    ensures GetPtr(r) == 0 && GetCounterAndState(r) == 0
  {
    IndexedPointer(0)
  }

  /** The low 26 bits: the link index (0 is null). */
  function GetPtr(p: IndexedPointer): (r: nat)
    ensures r < MaxLinks
  {
    p.Ptrs % MaxLinks
  }

  /** The high 38 bits: counter and state. */
  function GetCounterAndState(p: IndexedPointer): (r: nat)
    ensures r < TagLimit
  {
    p.Ptrs / MaxLinks
  }

  /**
   * SetAll packs an index and a counter-and-state into one word; the asserted
   * bounds make the two fields disjoint, so the source's OR is a sum here.
   */
  function SetAll(ptr: nat, counterAndState: nat): (r: IndexedPointer)
    requires ptr < MaxLinks && counterAndState < TagLimit
    ensures GetPtr(r) == ptr && GetCounterAndState(r) == counterAndState
  {
    IndexedPointer(ptr + counterAndState * MaxLinks)
  }

  /** SetPtr replaces the index and keeps the counter-and-state. */
  function SetPtr(p: IndexedPointer, to: nat): (r: IndexedPointer)
    requires to < MaxLinks
    ensures GetPtr(r) == to && GetCounterAndState(r) == GetCounterAndState(p)
  {
    SetAll(to, GetCounterAndState(p))
  }

  /** SetCounterAndState replaces the counter-and-state and keeps the index. */
  function SetCounterAndState(p: IndexedPointer, to: nat): (r: IndexedPointer)
    requires to < TagLimit
    ensures GetPtr(r) == GetPtr(p) && GetCounterAndState(r) == to
  {
    SetAll(GetPtr(p), to)
  }

  /** A word is determined by its two fields. */
  lemma FieldsDetermineWord(p: IndexedPointer, q: IndexedPointer)
    requires GetPtr(p) == GetPtr(q) && GetCounterAndState(p) == GetCounterAndState(q)
    ensures p == q
  {
    assert p.Ptrs == GetCounterAndState(p) * MaxLinks + GetPtr(p);
    assert q.Ptrs == GetCounterAndState(q) * MaxLinks + GetPtr(q);
  }

  /** GetState<TABAInc>: the bits of the counter-and-state below TABAInc. */
  function GetState(p: IndexedPointer, inc: nat): (r: nat)
    requires inc in TagIncrements
    ensures r < inc
  {
    GetCounterAndState(p) % inc
  }

  /**
   * SetState<TABAInc>: replaces the state bits (asserted Value < TABAInc) and keeps
   * the counter bits above them and the index.
   */
  function SetState(p: IndexedPointer, inc: nat, value: nat): (r: IndexedPointer)
    requires inc in TagIncrements && value < inc
    ensures GetState(r, inc) == value
    ensures GetCounterAndState(r) / inc == GetCounterAndState(p) / inc
    ensures GetPtr(r) == GetPtr(p)
  {
    var cs := GetCounterAndState(p);
    StateBitsFit(cs, inc, value);
    SetCounterAndState(p, cs - cs % inc + value)
  }

  lemma StateBitsFit(cs: nat, inc: nat, value: nat)
    requires inc in TagIncrements && value < inc && cs < TagLimit
    ensures cs - cs % inc + value < TagLimit
    ensures (cs - cs % inc + value) % inc == value
    ensures (cs - cs % inc + value) / inc == cs / inc
  {
    var m := IncrementDividesTagLimit(inc);
    var q := cs / inc;
    assert cs == q * inc + cs % inc;
    if q >= m {
      MulMonotone(m, q, inc);
      assert false;
    }
    MulMonotone(q, m - 1, inc);
    assert (m - 1) * inc == TagLimit - inc;
    DivModUnique(cs - cs % inc + value, inc, q, value);
  }

  /** Every increment either collection admits divides 2^38; the quotient is the number of counter values. */
  lemma IncrementDividesTagLimit(inc: nat) returns (m: nat)
    requires inc in TagIncrements
    ensures m >= 1 && m * inc == TagLimit && TagLimit / inc == m
  {
    m := TagLimit / inc;
    assert m * inc == TagLimit;
  }

  /** A power of two: 1, or twice a power of two (the source tests TABAInc & (TABAInc - 1) == 0). */
  predicate IsPowerOfTwo(x: nat)
  {
    x == 1 || (x >= 2 && x % 2 == 0 && IsPowerOfTwo(x / 2))
  }

  /** The FIFO's set is exactly the positive powers of two no larger than 65536. */
  lemma TagIncrementsMatchAssertions(inc: nat)
    requires inc > 0
    ensures inc in TagIncrements <==> IsPowerOfTwo(inc) && inc <= 65536
  {
    if inc in TagIncrements {
      TagIncrementsArePowers(inc);
    } else if IsPowerOfTwo(inc) && inc <= 65536 {
      PowersAreTagIncrements(inc);
    }
  }

  /** Each admitted increment halves down to 1. */
  lemma {:induction false} TagIncrementsArePowers(inc: nat)
    requires inc in TagIncrements
    ensures IsPowerOfTwo(inc) && inc <= 65536
  {
    if inc != 1 {
      assert inc % 2 == 0 && inc / 2 in TagIncrements;
      TagIncrementsArePowers(inc / 2);
    }
  }

  /** Each power of two up to 65536 is twice an admitted increment, or 1. */
  lemma {:induction false} PowersAreTagIncrements(inc: nat)
    requires inc > 0 && IsPowerOfTwo(inc) && inc <= 65536
    ensures inc in TagIncrements
  {
    if inc != 1 {
      PowersAreTagIncrements(inc / 2);
      assert inc == 2 * (inc / 2);
    }
  }

  /**
   * The LIFO root's set is exactly the positive powers of two that leave at
   * least 2^23 counter values below 2^38.
   */
  lemma IncrementsMatchAssertions(inc: nat)
    requires inc > 0
    ensures inc in Increments <==> IsPowerOfTwo(inc) && TagLimit / inc >= 0x80_0000
  {
    TagIncrementsMatchAssertions(inc);
    if inc <= 0x8000 {
      DivLowerBound(inc);
    } else {
      DivUpperBound(inc);
    }
  }

  /** An increment up to 2^15 leaves at least 2^23 counter values. */
  lemma DivLowerBound(inc: nat)
    requires 0 < inc <= 0x8000
    ensures TagLimit / inc >= 0x80_0000
  {
    MulMonotone(inc, 0x8000, 0x80_0000);
    var q := TagLimit / inc;
    if q < 0x80_0000 {
      MulMonotone(q + 1, 0x80_0000, inc);
      assert false;
    }
  }

  /** A larger increment leaves fewer. */
  lemma DivUpperBound(inc: nat)
    requires inc > 0x8000
    ensures TagLimit / inc < 0x80_0000
  {
    var q := TagLimit / inc;
    MulMonotone(0x8001, inc, q);
  }

  lemma MulMonotone(a: nat, b: nat, d: nat)
    requires a <= b
    ensures a * d <= b * d
  {
  }

  /** Quotient and remainder are unique. */
  lemma DivModUnique(x: int, d: int, q: int, r: int)
    requires d > 0 && 0 <= r < d && x == q * d + r
    ensures x / d == q && x % d == r
  {
    var q0, r0 := x / d, x % d;
    assert (q - q0) * d == r0 - r;
    if q > q0 {
      MulMonotone(1, q - q0, d);
    } else if q < q0 {
      MulMonotone(1, q0 - q, d);
    }
  }

  /** The result of AdvanceCounterAndState: the new word and whether the overflow hook ran. */
  datatype Advanced = Advanced(Next: IndexedPointer, Overflowed: bool)

  /**
   * AdvanceCounterAndState(From, TABAInc) applied to the word `self`: the new
   * counter-and-state is From's plus TABAInc, kept to 38 bits; `self`'s index is
   * kept.  The overflow hook LockFreeTagCounterHasOverflowed (a short sleep) runs
   * when the new value is below From's.  This is the wrapping behaviour the
   * overflow check is written for; the as-written assertion path is
   * AdvanceCounterAndStateAsWritten below.
   */
  function AdvanceCounterAndState(self: IndexedPointer, from: IndexedPointer, inc: nat): (r: Advanced)
    requires inc in TagIncrements
    ensures GetPtr(r.Next) == GetPtr(self)
    ensures r.Overflowed <==> GetCounterAndState(from) + inc >= TagLimit
    ensures !r.Overflowed ==> GetCounterAndState(r.Next) == GetCounterAndState(from) + inc
    ensures r.Overflowed ==> GetCounterAndState(r.Next) == GetCounterAndState(from) + inc - TagLimit
  {
    var sum := GetCounterAndState(from) + inc;
    var next := SetCounterAndState(self, sum % TagLimit);
    Advanced(next, GetCounterAndState(next) < GetCounterAndState(from))
  }

  /** Advancing by TABAInc never disturbs the state bits, even when the counter wraps. */
  lemma AdvanceKeepsState(self: IndexedPointer, from: IndexedPointer, inc: nat)
    requires inc in TagIncrements
    ensures GetState(AdvanceCounterAndState(self, from, inc).Next, inc) == GetState(from, inc)
  {
    var m := IncrementDividesTagLimit(inc);
    WrappingStep(GetCounterAndState(from), inc, m);
  }

  /**
   * Advancing moves the counter part (the bits above TABAInc) up by exactly one
   * step, modulo the number of counter values 2^38 / TABAInc.
   */
  lemma AdvanceCountsOneStep(self: IndexedPointer, from: IndexedPointer, inc: nat)
    requires inc in TagIncrements
    ensures GetCounterAndState(AdvanceCounterAndState(self, from, inc).Next) / inc
            == (GetCounterAndState(from) / inc + 1) % (TagLimit / inc)
  {
    var m := IncrementDividesTagLimit(inc);
    WrappingStep(GetCounterAndState(from), inc, m);
  }

  /** Adding d to x modulo m * d: the remainder by d is kept and the quotient steps by one modulo m. */
  lemma WrappingStep(x: nat, d: nat, m: nat)
    requires d > 0 && m >= 1 && x < m * d
    ensures (x + d) % (m * d) % d == x % d
    ensures (x + d) % (m * d) / d == (x / d + 1) % m
  {
    QuotientBelow(x, d, m);
    if x / d + 1 < m {
      WrappingStepInside(x, d, m);
    } else {
      WrappingStepAround(x, d, m);
    }
  }

  lemma QuotientBelow(x: nat, d: nat, m: nat)
    requires d > 0 && x < m * d
    ensures x / d < m
  {
    if x / d >= m {
      MulMonotone(m, x / d, d);
      assert false;
    }
  }

  /** The step that stays below m * d. */
  lemma WrappingStepInside(x: nat, d: nat, m: nat)
    requires d > 0 && x < m * d && x / d + 1 < m
    ensures (x + d) % (m * d) % d == x % d
    ensures (x + d) % (m * d) / d == (x / d + 1) % m
  {
    var q, r := x / d, x % d;
    assert x == q * d + r;
    MulMonotone(q + 2, m, d);
    assert x + d == (q + 1) * d + r;
    assert (q + 2) * d == (q + 1) * d + d;
    DivModUnique(x + d, m * d, 0, x + d);
    DivModUnique(x + d, d, q + 1, r);
    DivModUnique(q + 1, m, 0, q + 1);
  }

  /** The step that wraps past m * d. */
  lemma WrappingStepAround(x: nat, d: nat, m: nat)
    requires d > 0 && x < m * d && x / d + 1 == m
    ensures (x + d) % (m * d) % d == x % d
    ensures (x + d) % (m * d) / d == (x / d + 1) % m
  {
    var q, r := x / d, x % d;
    assert x == q * d + r;
    assert x + d == m * d + r;
    DivModUnique(x + d, m * d, 1, r);
    DivModUnique(r, d, 0, r);
    DivModUnique(q + 1, m, 1, 0);
  }

  /**
   * The new head word a successful update installs: AdvanceCounterAndState(Local,
   * TABAInc) on a scratch word followed by SetPtr(To).  Its index is `to`;
   * SuccessorSteps states what happens to the counter and the state.
   */
  function Successor(local: IndexedPointer, inc: nat, to: nat): (r: IndexedPointer)
    requires inc in TagIncrements && to < MaxLinks
    ensures GetPtr(r) == to
  {
    SetPtr(AdvanceCounterAndState(local, local, inc).Next, to)
  }

  /** A successful update keeps the state bits and moves the counter one step. */
  lemma SuccessorSteps(local: IndexedPointer, inc: nat, to: nat)
    requires inc in TagIncrements && to < MaxLinks
    ensures GetState(Successor(local, inc, to), inc) == GetState(local, inc)
    ensures GetCounterAndState(Successor(local, inc, to)) / inc == (GetCounterAndState(local) / inc + 1) % (TagLimit / inc)
  {
    AdvanceKeepsState(local, local, inc);
    AdvanceCountsOneStep(local, local, inc);
  }

  /**
   * The same operation with SetAll's assertion (counter-and-state below 2^38)
   * taken literally, as a debug build runs it: None where the assertion fails.
   */
  function AdvanceCounterAndStateAsWritten(self: IndexedPointer, from: IndexedPointer, inc: nat): (r: Option<Advanced>)
    requires inc in TagIncrements
    ensures r.Some? <==> GetCounterAndState(from) + inc < TagLimit
    ensures r.Some? ==> !r.value.Overflowed
  {
    var sum := GetCounterAndState(from) + inc;
    if sum < TagLimit then
      var next := SetCounterAndState(self, sum);
      Some(Advanced(next, GetCounterAndState(next) < GetCounterAndState(from)))
    else
      None
  }

  /**
   * The wrap the overflow hook is written for trips SetAll's assertion first:
   * from the largest counter-and-state, advancing by 1 stops a debug build,
   * while the wrapping definition reports the overflow.
   */
  lemma CounterWrapTripsAssertion()
    ensures AdvanceCounterAndStateAsWritten(Init(), SetAll(0, TagLimit - 1), 1).None?
    ensures AdvanceCounterAndState(Init(), SetAll(0, TagLimit - 1), 1).Overflowed
    ensures GetCounterAndState(AdvanceCounterAndState(Init(), SetAll(0, TagLimit - 1), 1).Next) == 0
  {
  }

  /**
   * FIndexedLockFreeLink: the link record.  DoubleNext chains FIFO nodes,
   * SingleNext chains LIFO nodes, Payload holds the item (or, for a free link, the
   * next link of its bundle).
   */
  datatype Link = Link(DoubleNext: IndexedPointer, Payload: nat, SingleNext: nat)

  /** A value-initialised link: every field zero. */
  function EmptyLink(): (l: Link)
    ensures GetPtr(l.DoubleNext) == 0 && l.Payload == 0 && l.SingleNext == 0
  {
    Link(Init(), 0, 0)
  }
}
