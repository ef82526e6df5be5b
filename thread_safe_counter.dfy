/**
 * FThreadSafeCounter: a 32-bit signed counter updated by interlocked
 * operations.  The interlocked intrinsics wrap around in two's complement,
 * which is written out here as Wrap.
 */
module ThreadSafeCounters {

  const TwoTo32: int := 0x1_0000_0000
  const TwoTo31: int := 0x8000_0000

  type Int32 = x: int | -TwoTo31 <= x < TwoTo31

  /** The 32-bit two's-complement value of x. */
  function Wrap(x: int): (r: Int32)
    ensures (r - x) % TwoTo32 == 0
    ensures -TwoTo31 <= x < TwoTo31 ==> r == x
  {
    (x + TwoTo31) % TwoTo32 - TwoTo31
  }

  /** Values that differ by a multiple of 2^32 wrap to the same value. */
  lemma {:induction false} WrapShift(x: int, c: int)
    ensures Wrap(x + c * TwoTo32) == Wrap(x)
    decreases if c < 0 then -c else c
  {
    if c > 0 {
      WrapShift(x, c - 1);
      assert x + c * TwoTo32 == (x + (c - 1) * TwoTo32) + TwoTo32;
      assert (x + c * TwoTo32 + TwoTo31) % TwoTo32 == (x + (c - 1) * TwoTo32 + TwoTo31) % TwoTo32;
    } else if c < 0 {
      WrapShift(x, c + 1);
      assert x + c * TwoTo32 == (x + (c + 1) * TwoTo32) - TwoTo32;
      assert (x + c * TwoTo32 + TwoTo31) % TwoTo32 == (x + (c + 1) * TwoTo32 + TwoTo31) % TwoTo32;
    }
  }

  /** Wrapping a part of a sum first does not change the wrapped sum. */
  lemma WrapInner(x: int, y: int)
    ensures Wrap(x + Wrap(y)) == Wrap(x + y)
  {
    var c := (Wrap(y) - y) / TwoTo32;
    assert Wrap(y) == y + c * TwoTo32;
    WrapShift(x + y, c);
  }

  /** Adding an amount and then subtracting it gives back the old value, wrap-around included. */
  lemma {:induction false} AddThenSubtract(x: Int32, a: int)
    ensures Wrap(Wrap(x + a) - a) == x
  {
    WrapInner(-a, x + a);
    assert -a + (x + a) == x;
  }

  /** Subtracting an amount and then adding it gives back the old value. */
  lemma {:induction false} SubtractThenAdd(x: Int32, a: int)
    ensures Wrap(Wrap(x - a) + a) == x
  {
    AddThenSubtract(x, -a);
  }

  /** Only the largest value wraps on increment, to the smallest. */
  lemma IncrementWraps(x: Int32)
    ensures Wrap(x + 1) == if x == TwoTo31 - 1 then -TwoTo31 else x + 1
  {
  }

  class ThreadSafeCounter {
    var Counter: Int32

    /** The default constructor: zero. */
    constructor()
      ensures Counter == 0
    {
      Counter := 0;
    }

    /** The value constructor. */
    constructor FromValue(value: Int32)
      ensures Counter == value
    {
      Counter := value;
    }

    /** The copy constructor: the other counter's value, the other counter untouched. */
    constructor Copy(other: ThreadSafeCounter)
      ensures Counter == other.Counter
    {
      Counter := other.Counter;
    }

    /** Increment: add one and return the new value. */
    method Increment() returns (r: Int32)
      modifies this
      ensures Counter == Wrap(old(Counter) + 1) && r == Counter
    {
      Counter := Wrap(Counter + 1);
      r := Counter;
    }

    /** Add: add an amount and return the old value. */
    method Add(amount: Int32) returns (r: Int32)
      modifies this
      ensures Counter == Wrap(old(Counter) + amount) && r == old(Counter)
    {
      r := Counter;
      Counter := Wrap(Counter + amount);
    }

    /** Decrement: subtract one and return the new value. */
    method Decrement() returns (r: Int32)
      modifies this
      ensures Counter == Wrap(old(Counter) - 1) && r == Counter
    {
      Counter := Wrap(Counter - 1);
      r := Counter;
    }

    /**
     * Subtract: add the 32-bit negation of the amount and return the old
     * value; the counter ends up decreased by the amount.
     */
    method Subtract(amount: Int32) returns (r: Int32)
      modifies this
      ensures Counter == Wrap(old(Counter) - amount) && r == old(Counter)
    {
      r := Counter;
      var negated: int := -(amount as int);
      WrapInner(Counter, negated);
      Counter := Wrap(Counter + Wrap(negated));
    }

    /** Set: store a value and return the old one. */
    method Set(value: Int32) returns (r: Int32)
      modifies this
      ensures Counter == value && r == old(Counter)
    {
      r := Counter;
      Counter := value;
    }

    /** Reset: store zero and return the old value. */
    method Reset() returns (r: Int32)
      modifies this
      ensures Counter == 0 && r == old(Counter)
    {
      r := Counter;
      Counter := 0;
    }

    /** GetValue: read the value. */
    method GetValue() returns (r: Int32)
      ensures r == Counter
    {
      r := Counter;
    }
  }
}
