/**
 * The abstract value of a `Vector`: its live elements and its capacity, together
 * with the effect of each mutating operation on that value. The class in module
 * VectorImpl is proved against these functions; the lemmas here state what holds
 * across sequences of calls (appending, reserving, clearing, resizing).
 */
module VectorModel {

  /** One slot of a buffer: allocated but unconstructed storage, or a live element. */
  datatype Slot<T> = Raw | Live(value: T)

  /** A vector seen from outside: the live elements in order and the allocated capacity. */
  datatype Layout<T> = Layout(elems: seq<T>, capacity: nat)

  datatype Option<T> = None | Some(value: T)

  /** The layout invariant: size never exceeds capacity. */
  predicate Valid<T>(v: Layout<T>)
  {
    |v.elems| <= v.capacity
  }

  function Max(a: nat, b: nat): nat
  {
    if a < b then b else a
  }

  predicate AllLive<T>(s: seq<Slot<T>>)
  {
    forall i :: 0 <= i < |s| ==> s[i].Live?
  }

  /** The elements held by a run of live slots, in order. */
  function Values<T>(s: seq<Slot<T>>): (r: seq<T>)
    requires AllLive(s)
    ensures |r| == |s|
    ensures forall i :: 0 <= i < |s| ==> r[i] == s[i].value
  {
    if s == [] then [] else Values(s[..|s| - 1]) + [s[|s| - 1].value]
  }

  /** Growth policy of realloc_insert: 1 slot for an empty buffer, otherwise double. */
  function GrowthCapacity(oldCap: nat): (r: nat)
    ensures r > oldCap
    ensures r == if oldCap == 0 then 1 else 2 * oldCap
  {
    oldCap + Max(1, oldCap)
  }

  /** reserve(n): nothing when n fits, else exactly n slots; the elements never change. */
  function Reserve<T>(v: Layout<T>, n: nat): (r: Layout<T>)
    requires Valid(v)
    ensures Valid(r) && r.elems == v.elems
    ensures n <= v.capacity ==> r == v
    ensures n > v.capacity ==> r.capacity == n
  {
    if n <= v.capacity then v else Layout(v.elems, n)
  }

  /**
   * push_back(x) / emplace_back(x): x becomes the last element, the earlier ones stay;
   * capacity stays while there is spare room and follows GrowthCapacity when full.
   */
  function PushBack<T>(v: Layout<T>, x: T): (r: Layout<T>)
    requires Valid(v)
    ensures Valid(r)
    ensures |r.elems| == |v.elems| + 1
    ensures r.elems[..|v.elems|] == v.elems && r.elems[|v.elems|] == x
    ensures |v.elems| < v.capacity ==> r.capacity == v.capacity
    ensures |v.elems| == v.capacity ==> r.capacity == GrowthCapacity(v.capacity)
  {
    var cap := if |v.elems| < v.capacity then v.capacity else GrowthCapacity(v.capacity);
    Layout(v.elems + [x], cap)
  }

  /** pop_back(): drops the last element and keeps the capacity. */
  function PopBack<T>(v: Layout<T>): (r: Layout<T>)
    requires Valid(v) && |v.elems| > 0
    ensures Valid(r) && r.capacity == v.capacity
    ensures |r.elems| == |v.elems| - 1
    ensures v.elems == r.elems + [v.elems[|v.elems| - 1]]
  {
    Layout(v.elems[..|v.elems| - 1], v.capacity)
  }

  /** clear(): no elements left, capacity kept. */
  function Clear<T>(v: Layout<T>): (r: Layout<T>)
    requires Valid(v)
    ensures Valid(r) && |r.elems| == 0 && r.capacity == v.capacity
  {
    Layout([], v.capacity)
  }

  /** count copies of x. */
  function Fill<T>(count: nat, x: T): (r: seq<T>)
    ensures |r| == count
    ensures forall i :: 0 <= i < count ==> r[i] == x
  {
    if count == 0 then [] else Fill(count - 1, x) + [x]
  }

  /**
   * resize(count, value) as the code computes it. The grow branch reallocates to
   * exactly count slots but never advances the finish position past the transferred
   * elements, so the size stays the old size. The shrink branch sets the finish
   * position to buffer + count - size: for count == size that is the buffer start
   * (every element is dropped), for count < size it lies before the buffer, which is
   * undefined behaviour (None).
   */
  function ResizeAsWritten<T>(v: Layout<T>, count: nat, value: T): (r: Option<Layout<T>>)
    requires Valid(v)
    ensures r.Some? <==> count >= |v.elems|
    ensures r.Some? ==> Valid(r.value)
    ensures count > |v.elems| ==> r == Some(Layout(v.elems, count))
    ensures count == |v.elems| ==> r == Some(Layout([], v.capacity))
  {
    if count > |v.elems| then Some(Layout(v.elems, count))
    else if count == |v.elems| then Some(Layout([], v.capacity))
    else None
  }

  /**
   * resize(count, value) as intended: exactly count elements, the old ones kept as
   * a prefix, the new ones copies of value; the buffer grows to exactly count slots
   * only when count exceeds the capacity.
   */
  function Resize<T>(v: Layout<T>, count: nat, value: T): (r: Layout<T>)
    requires Valid(v)
    ensures Valid(r) && |r.elems| == count
    ensures count <= |v.elems| ==> r.elems == v.elems[..count]
    ensures count > |v.elems| ==> r.elems[..|v.elems|] == v.elems
    ensures forall i :: |v.elems| <= i < count ==> r.elems[i] == value
    ensures r.capacity == Max(count, v.capacity)
  {
    if count <= |v.elems| then Layout(v.elems[..count], v.capacity)
    else Layout(v.elems + Fill(count - |v.elems|, value), Max(count, v.capacity))
  }

  /** The layout reached by appending every element of xs in turn. */
  function PushAll<T>(v: Layout<T>, xs: seq<T>): (r: Layout<T>)
    requires Valid(v)
    ensures Valid(r)
    decreases |xs|
  {
    if xs == [] then v else PushAll(PushBack(v, xs[0]), xs[1..])
  }

  /**
   * Appending is exact and capacity never shrinks: after n appends the size has
   * grown by n, the old elements come first and the new ones follow in call order.
   */
  lemma {:induction false} PushAllAppends<T>(v: Layout<T>, xs: seq<T>)
    requires Valid(v)
    ensures PushAll(v, xs).elems == v.elems + xs
    ensures PushAll(v, xs).capacity >= v.capacity
    decreases |xs|
  {
    if xs != [] {
      var w := PushBack(v, xs[0]);
      assert w.elems == v.elems + [xs[0]];
      PushAllAppends(w, xs[1..]);
      assert [xs[0]] + xs[1..] == xs;
    }
  }

  /** Appending xs and then x is appending xs + [x]. */
  lemma {:induction false} PushAllSnoc<T>(v: Layout<T>, xs: seq<T>, x: T)
    requires Valid(v)
    ensures PushAll(v, xs + [x]) == PushBack(PushAll(v, xs), x)
    decreases |xs|
  {
    if xs == [] {
      assert xs + [x] == [x];
    } else {
      assert (xs + [x])[1..] == xs[1..] + [x];
      PushAllSnoc(PushBack(v, xs[0]), xs[1..], x);
    }
  }

  /** Appends that fit in the spare capacity never reallocate. */
  lemma {:induction false} PushAllWithinCapacity<T>(v: Layout<T>, xs: seq<T>)
    requires Valid(v) && |v.elems| + |xs| <= v.capacity
    ensures PushAll(v, xs) == Layout(v.elems + xs, v.capacity)
    decreases |xs|
  {
    if xs != [] {
      var w := PushBack(v, xs[0]);
      assert w == Layout(v.elems + [xs[0]], v.capacity);
      PushAllWithinCapacity(w, xs[1..]);
      assert [xs[0]] + xs[1..] == xs;
    }
  }

  /** A layout reachable by appends from the empty vector: capacity below twice the size. */
  predicate Tight<T>(v: Layout<T>)
  {
    Valid(v) && (if |v.elems| == 0 then v.capacity == 0 else v.capacity < 2 * |v.elems|)
  }

  lemma {:induction false} PushAllKeepsTight<T>(v: Layout<T>, xs: seq<T>)
    requires Tight(v)
    ensures Tight(PushAll(v, xs))
    decreases |xs|
  {
    if xs != [] {
      PushAllKeepsTight(PushBack(v, xs[0]), xs[1..]);
    }
  }

  /**
   * Appending n elements to a default-constructed vector: size n, the elements in
   * call order, and a capacity of at least n and less than 2n (no capacity at all
   * for n == 0).
   */
  lemma PushAllFromEmpty<T>(xs: seq<T>)
    ensures PushAll(Layout([], 0), xs).elems == xs
    ensures xs == [] ==> PushAll(Layout([], 0), xs).capacity == 0
    ensures xs != [] ==> |xs| <= PushAll(Layout([], 0), xs).capacity < 2 * |xs|
  {
    PushAllAppends(Layout([], 0), xs);
    PushAllKeepsTight(Layout([], 0), xs);
  }

  /** reserve(n) followed by appends up to n elements in all never reallocates. */
  lemma ReserveThenAppendKeepsCapacity<T>(v: Layout<T>, n: nat, xs: seq<T>)
    requires Valid(v) && |v.elems| + |xs| <= n
    ensures PushAll(Reserve(v, n), xs) == Layout(v.elems + xs, Max(n, v.capacity))
  {
    PushAllWithinCapacity(Reserve(v, n), xs);
  }

  /** clear() then appends that fit in the old capacity reuse the existing buffer. */
  lemma ClearThenAppendReusesCapacity<T>(v: Layout<T>, xs: seq<T>)
    requires Valid(v) && |xs| <= v.capacity
    ensures PushAll(Clear(v), xs) == Layout(xs, v.capacity)
  {
    PushAllWithinCapacity(Clear(v), xs);
  }

  /**
   * Filling a vector of capacity C >= 1 up to C elements keeps C; the next append
   * is the first to reallocate, and it doubles the capacity.
   */
  lemma FirstReallocationDoubles<T>(v: Layout<T>, xs: seq<T>, x: T)
    requires Valid(v) && v.capacity >= 1 && |v.elems| + |xs| == v.capacity
    ensures PushAll(v, xs).capacity == v.capacity
    ensures PushBack(PushAll(v, xs), x).capacity == 2 * v.capacity
    ensures PushBack(PushAll(v, xs), x).elems == v.elems + xs + [x]
  {
    PushAllWithinCapacity(v, xs);
  }

  /** pop_back() undoes push_back(x) on the elements, and on the capacity when there was room. */
  lemma PopBackUndoesPushBack<T>(v: Layout<T>, x: T)
    requires Valid(v)
    ensures PopBack(PushBack(v, x)).elems == v.elems
    ensures |v.elems| < v.capacity ==> PopBack(PushBack(v, x)) == v
  {
    var w := PushBack(v, x);
    assert w.elems[..|w.elems| - 1] == v.elems;
  }

  /** The intended resize grows and shrinks back without losing the original elements. */
  lemma ResizeGrowThenShrinkRestores<T>(v: Layout<T>, count: nat, value: T)
    requires Valid(v) && count >= |v.elems|
    ensures Resize(Resize(v, count, value), |v.elems|, value).elems == v.elems
  {
    var w := Resize(v, count, value);
    assert w.elems[..|v.elems|] == v.elems;
  }

  /**
   * As written, growing with resize keeps the old size although the intended
   * behaviour reaches count elements: e.g. resize(3, x) on [a] with capacity 1.
   */
  lemma ResizeGrowKeepsOldSize<T>(v: Layout<T>, count: nat, value: T)
    requires Valid(v) && count > |v.elems|
    ensures ResizeAsWritten(v, count, value) == Some(Layout(v.elems, count))
    ensures |Resize(v, count, value).elems| == count != |ResizeAsWritten(v, count, value).value.elems|
  {
  }

  /** As written, resize(size()) on a non-empty vector drops every element. */
  lemma ResizeToSizeClears<T>(v: Layout<T>, value: T)
    requires Valid(v) && |v.elems| > 0
    ensures ResizeAsWritten(v, |v.elems|, value).value.elems == []
    ensures Resize(v, |v.elems|, value) == v
  {
    assert v.elems[..|v.elems|] == v.elems;
  }
}
