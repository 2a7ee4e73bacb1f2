/**
 * The random-access cursor `pointer_wrapper_iterator`: a thin wrapper around one
 * position into a container's buffer. A position is modelled as an integer offset
 * from the start of that buffer, so pointer arithmetic becomes integer arithmetic.
 * No operation checks bounds; only reading through the iterator needs the position
 * to lie inside the storage it reads.
 */
module VectorIterator {

  class PointerWrapperIterator {
    // m_iterator: the wrapped position, as an offset into the container's buffer
    var current: int

    /** Value-initialised wrapped position: the null position, offset 0. */
    constructor Default()
      ensures Base() == 0
    {
      current := 0;
    }

    /** The explicit constructor wraps exactly the given position. */
    constructor (i: int)
      ensures Base() == i
    {
      current := i;
    }

    /** The converting constructor (e.g. iterator to const_iterator) keeps the position. */
    constructor Convert(other: PointerWrapperIterator)
      ensures Base() == other.Base()
    {
      current := other.Base();
    }

    /** base(): the wrapped position itself. */
    function Base(): (p: int)
      reads this
      ensures p == current
    {
      current
    }

    /** operator*: the slot at the wrapped position. */
    function Deref<E>(storage: array<E>): (r: E)
      reads this, storage
      requires 0 <= Base() < storage.Length
      ensures r == storage[Base()]
    {
      storage[current]
    }

    /** operator[]: the slot n positions away from the wrapped one. */
    function Subscript<E>(storage: array<E>, n: int): (r: E)
      reads this, storage
      requires 0 <= Base() + n < storage.Length
      ensures r == storage[Base() + n]
    {
      storage[current + n]
    }

    /** Pre-increment: advance by one and hand back this same iterator. */
    method PreIncrement() returns (self: PointerWrapperIterator)
      modifies this
      ensures self == this && Base() == old(Base()) + 1
    {
      current := current + 1;
      self := this;
    }

    /** Post-increment: advance by one, returning a new iterator at the old position. */
    method PostIncrement() returns (before: PointerWrapperIterator)
      modifies this
      ensures fresh(before) && before.Base() == old(Base())
      ensures Base() == old(Base()) + 1
    {
      before := new PointerWrapperIterator(current);
      current := current + 1;
    }

    /** Pre-decrement: move back by one and hand back this same iterator. */
    method PreDecrement() returns (self: PointerWrapperIterator)
      modifies this
      ensures self == this && Base() == old(Base()) - 1
    {
      current := current - 1;
      self := this;
    }

    /** Post-decrement: move back by one, returning a new iterator at the old position. */
    method PostDecrement() returns (before: PointerWrapperIterator)
      modifies this
      ensures fresh(before) && before.Base() == old(Base())
      ensures Base() == old(Base()) - 1
    {
      before := new PointerWrapperIterator(current);
      current := current - 1;
    }

    /** operator+=: move by n in place. */
    method AddAssign(n: int) returns (self: PointerWrapperIterator)
      modifies this
      ensures self == this && Base() == old(Base()) + n
    {
      current := current + n;
      self := this;
    }

    /** operator-=: move by -n in place. */
    method SubAssign(n: int) returns (self: PointerWrapperIterator)
      modifies this
      ensures self == this && Base() == old(Base()) - n
    {
      current := current - n;
      self := this;
    }

    /** operator+: a new iterator n positions further on; this one is left where it is. */
    method Plus(n: int) returns (r: PointerWrapperIterator)
      ensures fresh(r) && r.Base() == Base() + n
    {
      r := new PointerWrapperIterator(current + n);
    }

    /** operator-: a new iterator n positions back; this one is left where it is. */
    method Minus(n: int) returns (r: PointerWrapperIterator)
      ensures fresh(r) && r.Base() == Base() - n
    {
      r := new PointerWrapperIterator(current - n);
    }
  }

  /** `it += n` followed by `it -= n` puts the iterator back where it was. */
  method AddThenSubRestores(it: PointerWrapperIterator, n: int)
    modifies it
    ensures it.Base() == old(it.Base())
  {
    var _ := it.AddAssign(n);
    var _ := it.SubAssign(n);
  }

  /** `(it + n) - n` is an iterator at it's position, and `it` itself never moves. */
  method PlusThenMinusRoundTrip(it: PointerWrapperIterator, n: int) returns (back: PointerWrapperIterator)
    ensures back.Base() == it.Base()
  {
    var ahead := it.Plus(n);
    back := ahead.Minus(n);
  }

  /** `it[n]` reads the same slot as `*(it + n)`. */
  method SubscriptIsDerefOfSum<E>(it: PointerWrapperIterator, storage: array<E>, n: int)
    returns (viaSubscript: E, viaSum: E)
    requires 0 <= it.Base() + n < storage.Length
    ensures viaSubscript == viaSum
  {
    viaSubscript := it.Subscript(storage, n);
    var moved := it.Plus(n);
    viaSum := moved.Deref(storage);
  }

  /** Post-increment then pre-decrement: the iterator is back, the copy marks where it was. */
  method PostIncrementThenPreDecrement(it: PointerWrapperIterator) returns (before: PointerWrapperIterator)
    modifies it
    ensures before.Base() == it.Base() == old(it.Base())
  {
    before := it.PostIncrement();
    var _ := it.PreDecrement();
  }
}
