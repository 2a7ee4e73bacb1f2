/**
 * The growable contiguous array `stl_container_impl::Vector`.
 *
 * Its state is three positions into one buffer: the start of the buffer, the end of
 * the live elements (finish) and the end of the allocated storage. Here the buffer
 * is an array of slots whose start is position 0, so finish and endOfStorage are
 * offsets into it; a slot is either raw allocated storage or a live element.
 *
 * The allocator service and the element type's constructor are black boxes: every
 * allocation and every construction may throw, which the model renders as a
 * nondeterministic failure reported by an `ok` result. A failed operation leaves the
 * three positions and the current buffer exactly as they were.
 */
module VectorImpl {
  import opened VectorModel
  import VectorIterator

  /** Allocator_traits::allocate: n fresh raw slots, or bad_alloc (ok == false). */
  method Allocate<T>(n: nat) returns (ok: bool, storage: array<Slot<T>>)
    ensures fresh(storage) && storage.Length == n
    ensures forall i :: 0 <= i < n ==> storage[i] == Raw
  {
    ok := *;
    storage := new Slot<T>[n](_ => Raw);
  }

  /** Allocator_traits::construct: the element constructor builds x in slot i, or throws. */
  method Construct<T>(storage: array<Slot<T>>, i: nat, x: T) returns (ok: bool)
    requires i < storage.Length
    modifies storage
    ensures ok ==> storage[..] == old(storage[..])[i := Live(x)]
    ensures !ok ==> unchanged(storage)
  {
    ok := *;
    if ok {
      storage[i] := Live(x);
    }
  }

  /** Allocator_traits::destroy: the slot goes back to raw storage; never throws. */
  method Destroy<T>(storage: array<Slot<T>>, i: nat)
    requires i < storage.Length
    modifies storage
    ensures storage[..] == old(storage[..])[i := Raw]
  {
    storage[i] := Raw;
  }

  class Vector<T> {
    var buffer: array<Slot<T>>   // m_buffer: start of the storage, position 0
    var finish: nat              // m_finish: one past the last live element
    var endOfStorage: nat        // m_endOfStorage: one past the allocated storage

    /** The layout invariant: buffer <= finish <= endOfStorage, every slot before finish live. */
    ghost predicate Valid()
      reads this, buffer
    {
      finish <= endOfStorage == buffer.Length && AllLive(buffer[..finish])
    }

    /** Every slot in [finish, endOfStorage) is allocated but not constructed. */
    ghost predicate SpareRaw()
      reads this, buffer
      requires Valid()
    {
      forall i :: finish <= i < endOfStorage ==> buffer[i] == Raw
    }

    /** The live elements, in order. */
    ghost function Elems(): seq<T>
      reads this, buffer
      requires Valid()
    {
      Values(buffer[..finish])
    }

    /** The abstract value: live elements and capacity. */
    ghost function Model(): Layout<T>
      reads this, buffer
      requires Valid()
    {
      Layout(Elems(), endOfStorage)
    }

    /** Default construction: all three positions null, i.e. no storage at all. */
    constructor ()
      ensures Valid() && SpareRaw() && fresh(buffer)
      ensures Model() == Layout([], 0)
    {
      buffer := new Slot<T>[0];
      finish := 0;
      endOfStorage := 0;
    }

    /** size(): finish - buffer, the number of live elements. */
    function Size(): (n: nat)
      reads this, buffer
      requires Valid()
      ensures n == |Elems()| && n <= buffer.Length
    {
      finish - 0
    }

    /** capacity(): endOfStorage - buffer, the number of allocated slots. */
    function Capacity(): (c: nat)
      reads this, buffer
      requires Valid()
      ensures c == buffer.Length && |Elems()| <= c
    {
      endOfStorage - 0
    }

    /** operator[]: the element at pos, unchecked, so pos must be below size(). */
    function Subscript(pos: nat): (r: T)
      reads this, buffer
      requires Valid() && pos < Size()
      ensures r == Elems()[pos]
    {
      buffer[pos].value
    }

    method Begin() returns (it: VectorIterator.PointerWrapperIterator)
      ensures fresh(it) && it.Base() == 0
    {
      it := new VectorIterator.PointerWrapperIterator(0);
    }

    method CBegin() returns (it: VectorIterator.PointerWrapperIterator)
      ensures fresh(it) && it.Base() == 0
    {
      it := new VectorIterator.PointerWrapperIterator(0);
    }

    method End() returns (it: VectorIterator.PointerWrapperIterator)
      requires Valid()
      ensures fresh(it) && it.Base() == Size()
    {
      it := new VectorIterator.PointerWrapperIterator(finish);
    }

    method CEnd() returns (it: VectorIterator.PointerWrapperIterator)
      requires Valid()
      ensures fresh(it) && it.Base() == Size()
    {
      it := new VectorIterator.PointerWrapperIterator(finish);
    }

    /** empty(): cbegin() == cend(), i.e. there is no live element. */
    method Empty() returns (r: bool)
      requires Valid()
      ensures r <==> Elems() == []
    {
      var first := CBegin();
      var last := CEnd();
      r := first.Base() == last.Base();
    }

    /** begin()[pos] reads the element at pos. */
    method SubscriptThroughBegin(pos: nat) returns (x: T)
      requires Valid() && pos < Size()
      ensures x == Elems()[pos]
    {
      var first := Begin();
      var slot := first.Subscript(buffer, pos);
      x := slot.value;
    }

    /**
     * move_range_if_noexcept: transfer the live slots [fromFirst, fromLast) into raw
     * slots starting at toFirst, advancing toEnd (the by-reference `to`) per element.
     * If an element transfer throws, the copies made so far are destroyed again, so
     * the destination is as it was; toEnd is left where the failure happened.
     */
    static method MoveRangeIfNoexcept(from: array<Slot<T>>, fromFirst: nat, fromLast: nat,
                                      to: array<Slot<T>>, toFirst: nat)
      returns (toEnd: nat, ok: bool)
      requires from != to
      requires fromFirst <= fromLast <= from.Length
      requires forall i :: fromFirst <= i < fromLast ==> from[i].Live?
      requires toFirst + (fromLast - fromFirst) <= to.Length
      requires forall i :: toFirst <= i < toFirst + (fromLast - fromFirst) ==> to[i] == Raw
      modifies to
      ensures toFirst <= toEnd <= toFirst + (fromLast - fromFirst)
      ensures ok ==> toEnd == toFirst + (fromLast - fromFirst)
      ensures ok ==> forall i :: 0 <= i < to.Length ==>
        to[i] == if toFirst <= i < toEnd then from[fromFirst + (i - toFirst)] else old(to[i])
      ensures !ok ==> to[..] == old(to[..])
    {
      toEnd := toFirst;
      var ptr := fromFirst;
      while ptr != fromLast
        invariant fromFirst <= ptr <= fromLast
        invariant toEnd == toFirst + (ptr - fromFirst)
        invariant forall i :: 0 <= i < to.Length ==>
          to[i] == if toFirst <= i < toEnd then from[fromFirst + (i - toFirst)] else old(to[i])
      {
        var built := Construct(to, toEnd, from[ptr].value);
        if !built {
          DestroyRange(to, toFirst, toEnd);
          assert to[..] == old(to[..]);
          return toEnd, false;
        }
        ptr, toEnd := ptr + 1, toEnd + 1;
      }
      ok := true;
    }

    /**
     * construct_range: build a copy of value in every raw slot of [first, last). If a
     * construction throws, the copies built so far are destroyed again.
     */
    static method ConstructRange(storage: array<Slot<T>>, first: nat, last: nat, value: T)
      returns (ok: bool)
      requires first <= last <= storage.Length
      requires forall i :: first <= i < last ==> storage[i] == Raw
      modifies storage
      ensures ok ==> forall i :: 0 <= i < storage.Length ==>
        storage[i] == if first <= i < last then Live(value) else old(storage[i])
      ensures !ok ==> storage[..] == old(storage[..])
    {
      var cur := first;
      while cur != last
        invariant first <= cur <= last
        invariant forall i :: 0 <= i < storage.Length ==>
          storage[i] == if first <= i < cur then Live(value) else old(storage[i])
      {
        var built := Construct(storage, cur, value);
        if !built {
          DestroyRange(storage, first, cur);
          assert storage[..] == old(storage[..]);
          return false;
        }
        cur := cur + 1;
      }
      ok := true;
    }

    /** destroy_range: every slot of [first, last) goes back to raw storage. */
    static method DestroyRange(storage: array<Slot<T>>, first: nat, last: nat)
      requires first <= last <= storage.Length
      modifies storage
      ensures forall i :: 0 <= i < storage.Length ==>
        storage[i] == if first <= i < last then Raw else old(storage[i])
    {
      var ptr := first;
      while ptr != last
        invariant first <= ptr <= last
        invariant forall i :: 0 <= i < storage.Length ==>
          storage[i] == if first <= i < ptr then Raw else old(storage[i])
      {
        Destroy(storage, ptr);
        ptr := ptr + 1;
      }
    }

    /**
     * reserve(count): nothing when count fits; otherwise a buffer of exactly count
     * slots receives the elements. The old buffer's elements are destroyed; releasing
     * its storage is not part of the model.
     */
    method Reserve(count: nat) returns (ok: bool)
      requires Valid()
      modifies this, buffer
      ensures Valid()
      ensures ok ==> Model() == VectorModel.Reserve(old(Model()), count)
      ensures count <= old(endOfStorage) ==> ok && unchanged(this) && unchanged(buffer)
      ensures ok && count > old(endOfStorage) ==> fresh(buffer) && SpareRaw()
      ensures old(SpareRaw()) ==> SpareRaw()
      ensures !ok ==> unchanged(this) && unchanged(buffer)
    {
      var capacity := endOfStorage;
      if count <= capacity {
        return true;
      }
      var granted, buff := Allocate<T>(count);
      if !granted {
        return false;
      }
      var newFinish, moved := MoveRangeIfNoexcept(buffer, 0, finish, buff, 0);
      if !moved {
        return false;
      }
      DestroyRange(buffer, 0, finish);
      assert buff[..newFinish] == old(buffer[..finish]);
      buffer := buff;
      finish := newFinish;
      endOfStorage := count;
      ok := true;
    }

    /**
     * realloc_insert(value): a buffer of GrowthCapacity(capacity) slots receives the
     * elements and then value at index size(); only when every step succeeded are the
     * old elements destroyed and the three positions moved to the new buffer.
     */
    method ReallocInsert(value: T) returns (ok: bool)
      requires Valid()
      modifies this, buffer
      ensures Valid()
      ensures ok ==> fresh(buffer) && SpareRaw()
      ensures ok ==> Model() == Layout(old(Elems()) + [value], GrowthCapacity(old(endOfStorage)))
      ensures !ok ==> unchanged(this) && unchanged(buffer)
    {
      var oldSize := finish;
      var oldCap := endOfStorage;
      var newCap := GrowthCapacity(oldCap);
      var granted, buff := Allocate<T>(newCap);
      if !granted {
        // the intended strong guarantee; the source's handler releases a buffer it never got
        return false;
      }
      var newFinish, moved := MoveRangeIfNoexcept(buffer, 0, finish, buff, 0);
      if !moved {
        return false;
      }
      var built := Construct(buff, oldSize, value);
      if !built {
        return false;
      }
      newFinish := newFinish + 1;
      DestroyRange(buffer, 0, finish);
      assert buff[..newFinish] == old(buffer[..finish]) + [Live(value)];
      buffer := buff;
      endOfStorage := newCap;
      finish := newFinish;
      ok := true;
    }

    /** emplace_back(value): construct in place when there is room, else realloc_insert. */
    method EmplaceBack(value: T) returns (ok: bool)
      requires Valid()
      modifies this, buffer
      ensures Valid()
      ensures ok ==> Model() == VectorModel.PushBack(old(Model()), value)
      ensures old(finish) < old(endOfStorage) ==> buffer == old(buffer)
      ensures ok && old(finish) == old(endOfStorage) ==> fresh(buffer)
      ensures old(SpareRaw()) ==> SpareRaw()
      ensures !ok ==> unchanged(this) && unchanged(buffer)
    {
      if finish != endOfStorage {
        ok := Construct(buffer, finish, value);
        if ok {
          assert buffer[..finish + 1] == old(buffer[..finish]) + [Live(value)];
          finish := finish + 1;
        }
      } else {
        ok := ReallocInsert(value);
      }
    }

    /** push_back(value): the same two paths as emplace_back, with a copy of value. */
    method PushBack(value: T) returns (ok: bool)
      requires Valid()
      modifies this, buffer
      ensures Valid()
      ensures ok ==> Model() == VectorModel.PushBack(old(Model()), value)
      ensures old(finish) < old(endOfStorage) ==> buffer == old(buffer)
      ensures ok && old(finish) == old(endOfStorage) ==> fresh(buffer)
      ensures old(SpareRaw()) ==> SpareRaw()
      ensures !ok ==> unchanged(this) && unchanged(buffer)
    {
      if finish != endOfStorage {
        ok := Construct(buffer, finish, value);
        if ok {
          assert buffer[..finish + 1] == old(buffer[..finish]) + [Live(value)];
          finish := finish + 1;
        }
      } else {
        ok := ReallocInsert(value);
      }
    }

    /** pop_back(): destroy the last element; undefined on an empty vector. */
    method PopBack()
      requires Valid() && Size() > 0
      modifies this`finish, buffer
      ensures Valid()
      ensures Model() == VectorModel.PopBack(old(Model()))
      ensures old(SpareRaw()) ==> SpareRaw()
    {
      finish := finish - 1;
      Destroy(buffer, finish);
      assert buffer[..finish] == old(buffer[..finish - 1]);
    }

    /** clear(): destroy every element; the storage stays. */
    method Clear()
      requires Valid()
      modifies this`finish, buffer
      ensures Valid()
      ensures Model() == VectorModel.Clear(old(Model()))
      ensures old(SpareRaw()) ==> SpareRaw()
    {
      DestroyRange(buffer, 0, finish);
      finish := 0;
    }

    /**
     * resize(count, value), following the code. Grow branch: a buffer of exactly count
     * slots receives the elements, construct_range fills the slots after them, but the
     * finish position handed to construct_range is a copy, so it stays after the
     * transferred elements: the size is unchanged and the filled slots are constructed
     * yet not live. Shrink branch: the new finish is buffer + count - size; count < size
     * would put it before the buffer, so the model requires count >= size(), which
     * leaves count == size(), where every element is destroyed.
     */
    method Resize(count: nat, value: T) returns (ok: bool)
      requires Valid()
      requires count >= Size()
      modifies this, buffer
      ensures Valid()
      ensures ok ==> Model() == ResizeAsWritten(old(Model()), count, value).value
      ensures ok && count > old(Size()) ==> fresh(buffer)
      ensures ok && count > old(Size()) ==>
        forall i :: old(Size()) <= i < count ==> buffer[i] == Live(value)
      ensures ok && count > old(Size()) ==> !SpareRaw()
      ensures count == old(Size()) ==> ok && buffer == old(buffer) && (old(SpareRaw()) ==> SpareRaw())
      ensures !ok ==> unchanged(this) && unchanged(buffer)
    {
      var size := finish;
      if count > size {
        var granted, newBuff := Allocate<T>(count);
        if !granted {
          return false;
        }
        var endOfStorage' := count;
        var finish', moved := MoveRangeIfNoexcept(buffer, 0, finish, newBuff, 0);
        if !moved {
          DestroyRange(newBuff, 0, finish');
          return false;
        }
        var built := ConstructRange(newBuff, finish', endOfStorage', value);
        if !built {
          DestroyRange(newBuff, 0, finish');
          return false;
        }
        DestroyRange(buffer, 0, finish);
        assert newBuff[..finish'] == old(buffer[..finish]);
        buffer := newBuff;
        finish := finish';
        endOfStorage := endOfStorage';
        assert buffer[finish] == Live(value);
        ok := true;
      } else {
        var newFinish := count - size;
        DestroyRange(buffer, newFinish, finish);
        finish := newFinish;
        ok := true;
      }
    }
  }

  /**
   * A run of push_back calls on one vector. While the calls succeed the layout follows
   * VectorModel.PushAll; the first call that throws ends the run, and the vector keeps
   * what the earlier calls appended.
   */
  method AppendAll<T>(v: Vector<T>, xs: seq<T>) returns (appended: nat)
    requires v.Valid()
    modifies v, v.buffer
    ensures v.Valid() && appended <= |xs|
    ensures v.Model() == PushAll(old(v.Model()), xs[..appended])
    ensures v.buffer == old(v.buffer) || fresh(v.buffer)
    ensures old(v.SpareRaw()) ==> v.SpareRaw()
  {
    appended := 0;
    while appended < |xs|
      invariant v.Valid() && appended <= |xs|
      invariant v.buffer == old(v.buffer) || fresh(v.buffer)
      invariant old(v.SpareRaw()) ==> v.SpareRaw()
      invariant v.Model() == PushAll(old(v.Model()), xs[..appended])
    {
      var ok := v.PushBack(xs[appended]);
      if !ok {
        return;
      }
      PushAllSnoc(old(v.Model()), xs[..appended], xs[appended]);
      assert xs[..appended + 1] == xs[..appended] + [xs[appended]];
      appended := appended + 1;
    }
  }

  /**
   * reserve(n) followed by push_back calls that bring the size to at most n: the
   * appended elements follow the old ones and the capacity stays max(n, capacity),
   * so none of the appends reallocates.
   */
  method ReserveThenAppend<T>(v: Vector<T>, n: nat, xs: seq<T>) returns (ok: bool, appended: nat)
    requires v.Valid() && v.Size() + |xs| <= n
    modifies v, v.buffer
    ensures v.Valid() && appended <= |xs|
    ensures ok ==> v.Model() == Layout(old(v.Elems()) + xs[..appended], Max(n, old(v.Capacity())))
    ensures v.buffer == old(v.buffer) || fresh(v.buffer)
    ensures old(v.SpareRaw()) ==> v.SpareRaw()
    ensures !ok ==> appended == 0 && unchanged(v) && unchanged(v.buffer)
  {
    appended := 0;
    ok := v.Reserve(n);
    if !ok {
      return;
    }
    appended := AppendAll(v, xs);
    ReserveThenAppendKeepsCapacity(old(v.Model()), n, xs[..appended]);
  }
}
