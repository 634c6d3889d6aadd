/** Model of the growable-array macros of source/monkey/vector.h. A vector is its `size` stored
    elements (`data`) together with the number of slots allocated. */
module Vectors {
  datatype Vector<T> = Vector(data: seq<T>, capacity: nat) {
    function Size(): nat { |data| }

    /** The allocation always holds every stored element. */
    predicate Valid() { |data| <= capacity }
  }

  /** VECTOR_INIT: no storage, no elements. */
  function Init<T>(): (v: Vector<T>)
    ensures v.Valid() && v.Size() == 0 && v.capacity == 0
    ensures Grown(v)
  {
    Vector([], 0)
  }

  /** The capacity a full vector grows to: 1 from empty, otherwise twice as much. */
  function Grow(capacity: nat): (r: nat)
    ensures r > capacity
    ensures capacity == 0 ==> r == 1
    ensures capacity > 0 ==> r == 2 * capacity
  {
    if capacity == 0 then 1 else capacity * 2
  }

  /** VECTOR_PUSH: when full, grow the allocation; then store `value` at index `size` and increment it. */
  function Push<T>(v: Vector<T>, value: T): (r: Vector<T>)
    requires v.Valid()
    ensures r.Valid()
    ensures r.Size() == v.Size() + 1 && r.data[v.Size()] == value
    ensures r.data[..v.Size()] == v.data
    ensures v.Size() < v.capacity ==> r.capacity == v.capacity
    ensures v.Size() == v.capacity ==> r.capacity == Grow(v.capacity)
  {
    var capacity := if v.Size() == v.capacity then Grow(v.capacity) else v.capacity;
    Vector(v.data + [value], capacity)
  }

  /** VECTOR_FREE: the storage is released and the vector is empty again. */
  function Free<T>(v: Vector<T>): (r: Vector<T>)
    ensures r == Init<T>()
  {
    Vector([], 0)
  }

  /** The vector after pushing every element of `values` in order (the reference definition). */
  function PushAll<T>(v: Vector<T>, values: seq<T>): (r: Vector<T>)
    requires v.Valid()
    ensures r.Valid()
    decreases |values|
  {
    if values == [] then v else PushAll(Push(v, values[0]), values[1..])
  }

  lemma {:induction false} PushAllAppends<T>(v: Vector<T>, values: seq<T>)
    requires v.Valid()
    ensures PushAll(v, values).data == v.data + values
    decreases |values|
  {
    if values != [] {
      var p := Push(v, values[0]);
      assert p.data == v.data + [values[0]];
      PushAllAppends(p, values[1..]);
      assert v.data + [values[0]] + values[1..] == v.data + values;
    }
  }

  predicate PowerOfTwo(c: nat) {
    c == 1 || (c > 1 && c % 2 == 0 && PowerOfTwo(c / 2))
  }

  /** The capacity of a vector grown only by pushes: zero or a power of two, and less than twice the size. */
  predicate Grown<T>(v: Vector<T>) {
    v.Valid() && (v.capacity == 0 || (PowerOfTwo(v.capacity) && v.capacity < 2 * v.Size()))
  }

  lemma PushKeepsGrown<T>(v: Vector<T>, value: T)
    requires Grown(v)
    ensures Grown(Push(v, value))
  {
    if v.Size() == v.capacity && v.capacity > 0 {
      assert (v.capacity * 2) / 2 == v.capacity;
    }
  }

  lemma {:induction false} PushAllKeepsGrown<T>(v: Vector<T>, values: seq<T>)
    requires Grown(v)
    ensures Grown(PushAll(v, values))
    decreases |values|
  {
    if values != [] {
      PushKeepsGrown(v, values[0]);
      PushAllKeepsGrown(Push(v, values[0]), values[1..]);
    }
  }

  /** Every vector built from VECTOR_INIT by pushes holds exactly the pushed values and is `Grown`. */
  lemma PushAllFromInit<T>(values: seq<T>)
    ensures PushAll(Init<T>(), values).data == values
    ensures Grown(PushAll(Init<T>(), values))
  {
    PushAllAppends(Init<T>(), values);
    PushAllKeepsGrown(Init<T>(), values);
  }

  /** Pushes every element of `values` with a loop, as the parser does when collecting nodes. */
  method PushEach<T>(v: Vector<T>, values: seq<T>) returns (r: Vector<T>)
    requires v.Valid()
    ensures r.Valid() && r.data == v.data + values
    ensures r == PushAll(v, values)
  {
    r := v;
    var i := 0;
    while i < |values|
      invariant i <= |values| && r.Valid()
      invariant r.data == v.data + values[..i]
      invariant PushAll(r, values[i..]) == PushAll(v, values)
    {
      assert values[i..][1..] == values[i + 1..];
      r := Push(r, values[i]);
      assert values[..i + 1] == values[..i] + [values[i]];
      i := i + 1;
    }
    assert values[..i] == values;
  }
}
