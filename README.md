# stl_container_impl::Vector in Dafny

This project models the growable contiguous array `stl_container_impl::Vector` (`src/vector.hpp`)
and its random-access cursor `pointer_wrapper_iterator` (`src/vector_iterator.hpp`), and proves
properties of the model.

- `vector_iterator.dfy`, module `VectorIterator`: the iterator is a class with one field, the
  wrapped position, as an integer offset into the container's buffer. `++`, `--`, `+=` and `-=`
  change that field in place. `+` and `-` return a new iterator. `*`, `[]` and `base()` only read.
- `vector_model.dfy`, module `VectorModel`: the abstract value of a vector, a `Layout` of live
  elements and capacity. It holds the growth policy of `realloc_insert` and the effect of every
  mutating operation on the layout. It also has lemmas over sequences of calls: size after n
  appends, capacity bounds, no reallocation after `reserve` or `clear`, and the doubling on the
  first forced reallocation. A buffer slot is `Raw` (allocated, not constructed) or `Live(value)`.
- `vector.dfy`, module `VectorImpl`: the class `Vector` with the source's three fields. `buffer`
  is an array of slots starting at position 0, and `finish` and `endOfStorage` are offsets into
  it. `Valid()` is the layout invariant. `Elems()` and `Model()` give the abstract value. Every
  mutating method is proved against the matching `VectorModel` function. The private copy
  loops (`move_range_if_noexcept`, `construct_range`, `destroy_range`) are loops over array
  indices.
  Two client methods, `AppendAll` and `ReserveThenAppend`, chain calls on one object. They show
  that the appending lemmas of `VectorModel` carry over to the class.

The allocator and the element constructor are black boxes. `Allocate` and `Construct` may fail
nondeterministically, and that failure stands for a thrown exception. An operation that fails
returns `ok == false` and leaves the three fields and the current buffer unchanged (`unchanged`
in the contracts). The source assigns the fields only after every step has succeeded, so this
matches the code on every failure path but one: an allocation failure inside `realloc_insert` is
undefined behaviour in the source (see `VectorImpl.Vector.ReallocInsert` under "## Left out").

The model follows the code where it departs from the usual contract of a standard vector:
- `reserve` has no maximum-length check.
- `resize` always reallocates when it grows, even if `count` fits in the current capacity, and
  the capacity then becomes exactly `count` (possibly smaller than before).
- The two `resize` branches compute the wrong finish position (see "## Findings").
- `empty()` compares `cbegin()` and `cend()`, but the iterator class declares no equality
  operator. The model compares their `base()` positions.

## Model

| member | source | states |
|---|---|---|
| `VectorIterator.PointerWrapperIterator.Default` | src/vector_iterator.hpp:28-29 | the value-initialised iterator wraps the null position (offset 0) |
| `VectorIterator.PointerWrapperIterator.constructor` | src/vector_iterator.hpp:31-32 | the explicit constructor wraps exactly the given position; `Base()` returns it |
| `VectorIterator.PointerWrapperIterator.Convert` | src/vector_iterator.hpp:34-36 | the converting constructor keeps the other iterator's `base()` |
| `VectorIterator.PointerWrapperIterator.Base` | src/vector_iterator.hpp:65 | `base()` is the wrapped position itself, the one the constructors set and the operators move |
| `VectorIterator.PointerWrapperIterator.Deref` | src/vector_iterator.hpp:39 | `*it` reads the slot at `base()` |
| `VectorIterator.PointerWrapperIterator.Subscript` | src/vector_iterator.hpp:60 | `it[n]` reads the slot at `base() + n` |
| `VectorIterator.PointerWrapperIterator.PreIncrement` | src/vector_iterator.hpp:42-46 | the position advances by one and the same iterator is returned |
| `VectorIterator.PointerWrapperIterator.PostIncrement` | src/vector_iterator.hpp:48 | returns a new iterator at the old position; this one advances by one |
| `VectorIterator.PointerWrapperIterator.PreDecrement` | src/vector_iterator.hpp:51-55 | the position moves back by one and the same iterator is returned |
| `VectorIterator.PointerWrapperIterator.PostDecrement` | src/vector_iterator.hpp:57 | returns a new iterator at the old position; this one moves back by one |
| `VectorIterator.PointerWrapperIterator.AddAssign` | src/vector_iterator.hpp:61 | `it += n` moves the position by n and returns the same iterator |
| `VectorIterator.PointerWrapperIterator.SubAssign` | src/vector_iterator.hpp:63 | `it -= n` moves the position by -n and returns the same iterator |
| `VectorIterator.PointerWrapperIterator.Plus` | src/vector_iterator.hpp:62 | `it + n` is a new iterator at `base() + n`; `it` does not move |
| `VectorIterator.PointerWrapperIterator.Minus` | src/vector_iterator.hpp:64 | `it - n` is a new iterator at `base() - n`; `it` does not move |
| `VectorIterator.AddThenSubRestores` | src/vector_iterator.hpp:61-63 | `it += n` then `it -= n` restores `base()` |
| `VectorIterator.PlusThenMinusRoundTrip` | src/vector_iterator.hpp:62-64 | `(it + n) - n` is at `it`'s position |
| `VectorIterator.SubscriptIsDerefOfSum` | src/vector_iterator.hpp:39-62 | `it[n]` reads the same slot as `*(it + n)` |
| `VectorIterator.PostIncrementThenPreDecrement` | src/vector_iterator.hpp:42-57 | `it++` then `--it` leaves `it` where it was; the returned copy is there too |
| `VectorModel.Values` | src/vector.hpp:252-253 | the live run of slots yields one element per slot, in order |
| `VectorModel.GrowthCapacity` | src/vector.hpp:132 | `oldCap + max(1, oldCap)` is 1 from an empty buffer and double otherwise, always more than `oldCap` |
| `VectorModel.Reserve` | src/vector.hpp:41-57 | no change when n fits; otherwise capacity becomes exactly n; the elements never change |
| `VectorModel.PushBack` | src/vector.hpp:70-94 | the value lands at index old size, size grows by one, earlier elements stay; capacity stays with spare room, else follows the growth policy |
| `VectorModel.PopBack` | src/vector.hpp:101-105 | size drops by one, the remaining prefix and the capacity are kept |
| `VectorModel.Clear` | src/vector.hpp:107-111 | size becomes 0, capacity is kept |
| `VectorModel.ResizeAsWritten` | src/vector.hpp:208-249 | as the code computes it: growing keeps the elements and the size but sets capacity to count; count == size empties the vector; count < size is undefined |
| `VectorModel.Resize` | src/vector.hpp:208-249 | as intended: exactly count elements, the old ones as prefix, new ones copies of value, capacity `max(count, capacity)` |
| `VectorModel.PushAllAppends` | src/vector.hpp:83-94 | after any run of appends the elements are the old ones followed by the appended ones in call order; capacity never shrinks |
| `VectorModel.PushAllSnoc` | src/vector.hpp:83-94 | appending xs then x is the same as appending xs + [x] |
| `VectorModel.PushAllWithinCapacity` | src/vector.hpp:83-89 | appends that fit in the spare capacity keep the capacity and only append |
| `VectorModel.PushAllKeepsTight` | src/vector.hpp:128-148 | appends keep capacity below twice the size (and 0 when empty) |
| `VectorModel.PushAllFromEmpty` | src/vector.hpp:128-148 | n appends to a new vector give size n, the elements in order, and `n <= capacity < 2n` |
| `VectorModel.ReserveThenAppendKeepsCapacity` | src/vector.hpp:41-57 | after `reserve(n)`, appends up to n elements in all never reallocate |
| `VectorModel.ClearThenAppendReusesCapacity` | src/vector.hpp:107-111 | after `clear()`, appends that fit in the old capacity reuse it |
| `VectorModel.FirstReallocationDoubles` | src/vector.hpp:132 | filling capacity C >= 1 keeps C; the next append doubles it and keeps the order |
| `VectorModel.PopBackUndoesPushBack` | src/vector.hpp:101-105 | `pop_back` after `push_back(x)` restores the elements, and the whole layout when there was room |
| `VectorModel.ResizeGrowThenShrinkRestores` | src/vector.hpp:208-249 | the intended resize grows then shrinks back to the original elements |
| `VectorModel.ResizeGrowKeepsOldSize` | src/vector.hpp:211-230 | as written, growing keeps the old size where the intended resize reaches count |
| `VectorModel.ResizeToSizeClears` | src/vector.hpp:244-247 | as written, `resize(size())` drops every element where the intended resize changes nothing |
| `VectorImpl.Vector.constructor` | src/vector.hpp:33 | `Vector() = default` leaves all three positions null (src/vector.hpp:252-254): no elements, capacity 0 |
| `VectorImpl.Vector.Size` | src/vector.hpp:116 | `finish - buffer` is the number of live elements and at most the capacity |
| `VectorImpl.Vector.Capacity` | src/vector.hpp:117 | `endOfStorage - buffer` is the buffer length and at least the size |
| `VectorImpl.Vector.Subscript` | src/vector.hpp:124 | `v[pos]` for `pos < size()` is element pos |
| `VectorImpl.Vector.Begin` | src/vector.hpp:119 | `begin()` wraps the buffer start |
| `VectorImpl.Vector.CBegin` | src/vector.hpp:120 | `cbegin()` wraps the buffer start |
| `VectorImpl.Vector.End` | src/vector.hpp:121 | `end()` wraps the finish position, `size()` |
| `VectorImpl.Vector.CEnd` | src/vector.hpp:122 | `cend()` wraps the finish position, `size()` |
| `VectorImpl.Vector.Empty` | src/vector.hpp:114 | `cbegin() == cend()` holds exactly when there are no elements |
| `VectorImpl.Vector.SubscriptThroughBegin` | src/vector.hpp:119-124 | `begin()[pos]` reads element pos |
| `VectorImpl.Vector.MoveRangeIfNoexcept` | src/vector.hpp:157-175 | on success the destination range holds the source range in order and `to` has advanced by its length; on failure the partial copies are destroyed and the destination is as before |
| `VectorImpl.Vector.ConstructRange` | src/vector.hpp:177-193 | on success every slot of the range holds value and nothing else changes; on failure the storage is as before |
| `VectorImpl.Vector.DestroyRange` | src/vector.hpp:195-206 | every slot of the range is raw again, no other slot changes |
| `VectorImpl.Vector.Reserve` | src/vector.hpp:41-57 | when count fits it cannot fail and changes nothing; otherwise success gives `VectorModel.Reserve` of the old layout on a fresh buffer with raw spare slots; failure: fields and buffer unchanged |
| `VectorImpl.Vector.ReallocInsert` | src/vector.hpp:127-155 | success: fresh buffer of `GrowthCapacity(capacity)` slots holding the old elements then value; failure: fields and buffer unchanged |
| `VectorImpl.Vector.EmplaceBack` | src/vector.hpp:69-81 | success: layout is `VectorModel.PushBack` of the old one; with spare room the buffer stays, otherwise a fresh buffer; failure: fields and buffer unchanged |
| `VectorImpl.Vector.PushBack` | src/vector.hpp:83-99 | success: layout is `VectorModel.PushBack` of the old one; with spare room the buffer stays, otherwise a fresh buffer; failure: fields and buffer unchanged |
| `VectorImpl.Vector.PopBack` | src/vector.hpp:101-105 | requires a non-empty vector; layout is `VectorModel.PopBack` of the old one |
| `VectorImpl.Vector.Clear` | src/vector.hpp:107-111 | layout is `VectorModel.Clear` of the old one |
| `VectorImpl.Vector.Resize` | src/vector.hpp:208-249 | as written: success gives `ResizeAsWritten`; when growing, the slots `[size, count)` hold value but are not live, so the spare-storage invariant is broken; `count == size()` cannot fail and keeps the buffer; failure: fields and buffer unchanged |
| `VectorImpl.AppendAll` | src/vector.hpp:83-94 | a run of `push_back` calls on the class follows `VectorModel.PushAll` up to the first call that throws; the vector then holds its old buffer or a fresh one, and raw spare slots stay raw, so further calls can follow |
| `VectorImpl.ReserveThenAppend` | src/vector.hpp:41-94 | on the class, `reserve(n)` then appends up to n elements in all keep capacity `max(n, capacity)` and only append; if `reserve` throws nothing changes and nothing is appended; the buffer is the old one or fresh and raw spare slots stay raw |

## Left out

- The allocator service is modelled only as raw slot writes plus a failure point. Storage release and leaks are not modelled. That covers `reserve` never deallocating the old buffer (src/vector.hpp:49-56) and the `_resize` failure path not deallocating the new buffer.
- Destroying an already-raw slot is a no-op in the model. So the model does not flag that `_resize` destroys the transferred prefix a second time after `move_range_if_noexcept` has already destroyed it on failure (src/vector.hpp:172, 238).
- `std::move_if_noexcept`: every transfer is a plain value copy, and moved-from elements are not modelled.
- `VectorImpl.Vector.ReallocInsert`: when `allocate` throws, the model returns `ok == false` with everything unchanged, the strong guarantee the code is evidently meant to give. The code does not give it: `buff` is declared without an initial value (src/vector.hpp:133), the throwing `allocate` (src/vector.hpp:138) never assigns it, and the handler then passes that indeterminate pointer to `deallocate` (src/vector.hpp:152), which is undefined behaviour. `VectorImpl.Vector.EmplaceBack` and `VectorImpl.Vector.PushBack` inherit this failure contract on their full-buffer path.
- `VectorImpl.Vector.ReallocInsert`: the failure contract also says the old elements are unchanged. But for an element type whose move constructor is noexcept, the source moves the old elements before it constructs the new one (src/vector.hpp:139-140). A throwing construction then leaves the old buffer holding moved-from objects, which a copy model cannot express.
- `VectorImpl.Vector.Resize`: requires `count >= size()`. For `count < size()` the source computes a finish position before the start of the buffer, which is undefined behaviour. `VectorModel.ResizeAsWritten` maps that case to `None`. Its failure contract (`unchanged(buffer)`) also assumes copies. For an element type whose move constructor is noexcept, the old elements are moved into the new buffer before `construct_range` runs (src/vector.hpp:222-223). A throwing construction then leaves the old buffer holding moved-from objects, which the model does not represent.
- The `resize(count)` overload without a value default-constructs the new elements through `std::forward(args)...`, which only instantiates with no arguments. The model has one `Resize` with an explicit fill value.
- `emplace_back` arguments are modelled as one already-built element value.
- Aliasing of the pushed value: `push_back` and `emplace_back` take the value as a Dafny value, not as a reference. In the source, `v.push_back(v[i])` on a full vector moves the old elements first and then constructs the new element from the alias, which by then refers to a moved-from object (src/vector.hpp:139-140). The model cannot express that.
- `VectorIterator.PointerWrapperIterator.Default`: the value-initialised null position is modelled as offset 0, which is also `begin()`. The model therefore lets a value-initialised iterator be dereferenced on a non-empty buffer, whereas the source would dereference a null pointer.
- The distinction between `bad_alloc` and other exceptions (src/vector.hpp:232-240) is collapsed into `ok == false`.
- `size_type` is unbounded. The overflow of `oldCap + max(1, oldCap)` and any maximum element count are not modelled.
- The destructor (src/vector.hpp:35-39) is not modelled.
- `operator[]` returns an assignable reference. The model only reads through it.
- `operator->`, the `reverse_iterator` typedefs, and pointer identity are not modelled.
- Iterator positions are unbounded integers with no bounds checks. Invalidation after reallocation is not tracked, and const and non-const iterators share one class.
- `src/Vector.hpp` (a field-only stub in another namespace) and `src/main.cpp` (a demo with an empty `main`) are not part of this model.

## Findings

| source | as written | input that shows it | evidently intended | confidence | as-written member | corrected member |
|---|---|---|---|---|---|---|
| src/vector.hpp:223-229 | `construct_range` takes `finish` by value, so `m_finish` stays after the transferred elements and the size does not change | `resize(3)` on a vector holding `[a]` leaves size 1 and capacity 3 | size becomes `count`, and the new slots are live copies of the value | high; not executed | `VectorModel.ResizeGrowKeepsOldSize` | `VectorModel.Resize` |
| src/vector.hpp:244-247 | the new finish is `m_buffer + count - size` | `resize(2)` on `[a, b]` empties the vector; `resize(1)` on `[a, b]` points before the buffer | the new finish is `m_buffer + count` | high; not executed | `VectorModel.ResizeToSizeClears` | `VectorModel.Resize` |

`VectorImpl.Vector.Resize` keeps the code's behaviour, so the class shows both defects as they are. `VectorModel.Resize` is the corrected definition. Its properties are in its contract and in `VectorModel.ResizeGrowThenShrinkRestores`.
