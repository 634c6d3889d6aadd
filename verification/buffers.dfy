/** Model of the growable-array macros of source/buffer.h and the span view of source/span.h.
    A buffer is its `length` stored elements (`data`) together with the number of slots allocated. */
module Buffers {
  datatype Buffer<T> = Buffer(data: seq<T>, capacity: nat) {
    function Length(): nat { |data| }

    /** The allocation always holds every stored element. */
    predicate Valid() { |data| <= capacity }
  }

  /** A span: a view of `length` consecutive elements starting at `begin`. */
  datatype Span<T> = Span(elements: seq<T>, length: nat)

  /** BUFFER_INIT: no storage, no elements. */
  function Init<T>(): (b: Buffer<T>)
    ensures b.Valid() && b.Length() == 0 && b.capacity == 0
    ensures Grown(b)
  {
    Buffer([], 0)
  }

  /** BUFFER_EXPAND: when full, grow the allocation to twice its size plus one; otherwise leave it. */
  function Expand<T>(b: Buffer<T>): (r: Buffer<T>)
    requires b.Valid()
    ensures r.Valid() && r.data == b.data
    ensures r.Length() < r.capacity
    ensures b.Length() < b.capacity ==> r == b
    ensures b.Length() == b.capacity ==> r.capacity == 2 * b.capacity + 1
  {
    if b.Length() == b.capacity then Buffer(b.data, b.capacity * 2 + 1) else b
  }

  /** BUFFER_PUSH: make room, then store `value` at index `length` and increment the length. */
  function Push<T>(b: Buffer<T>, value: T): (r: Buffer<T>)
    requires b.Valid()
    ensures r.Valid()
    ensures r.Length() == b.Length() + 1 && r.data[b.Length()] == value
    ensures r.data[..b.Length()] == b.data
    ensures r.capacity == Expand(b).capacity
  {
    var e := Expand(b);
    Buffer(e.data + [value], e.capacity)
  }

  /** BUFFER_AS_SPAN: the span over the first `length` elements. */
  function AsSpan<T>(b: Buffer<T>): (s: Span<T>)
    ensures s.length == b.Length() == |s.elements|
    ensures forall i | 0 <= i < s.length :: s.elements[i] == b.data[i]
  {
    Span(b.data, |b.data|)
  }

  /** The buffer after pushing every element of `values` in order (the reference definition). */
  function PushAll<T>(b: Buffer<T>, values: seq<T>): (r: Buffer<T>)
    requires b.Valid()
    ensures r.Valid()
    decreases |values|
  {
    if values == [] then b else PushAll(Push(b, values[0]), values[1..])
  }

  /** Pushing a sequence appends it: nothing already stored changes and the order is kept. */
  lemma {:induction false} PushAllAppends<T>(b: Buffer<T>, values: seq<T>)
    requires b.Valid()
    ensures PushAll(b, values).data == b.data + values
    decreases |values|
  {
    if values != [] {
      var p := Push(b, values[0]);
      assert p.data == b.data + [values[0]];
      PushAllAppends(p, values[1..]);
      assert b.data + [values[0]] + values[1..] == b.data + values;
    }
  }

  /** A capacity reachable from zero by `c := 2 * c + 1`, i.e. one less than a power of two. */
  predicate AllOnes(c: nat) {
    c == 0 || (c % 2 == 1 && AllOnes(c / 2))
  }

  /** The capacity of a buffer grown only by pushes: one less than a power of two, and less than
      twice the length, so at most half of it is ever unused. */
  predicate Grown<T>(b: Buffer<T>) {
    b.Valid() && AllOnes(b.capacity) && (b.capacity == 0 || b.capacity < 2 * b.Length())
  }

  lemma PushKeepsGrown<T>(b: Buffer<T>, value: T)
    requires Grown(b)
    ensures Grown(Push(b, value))
  {
    if b.Length() == b.capacity {
      assert (b.capacity * 2 + 1) / 2 == b.capacity;
    }
  }

  /** Every buffer built from BUFFER_INIT by pushes holds exactly the pushed values and is `Grown`. */
  lemma {:induction false} PushAllFromInit<T>(values: seq<T>)
    ensures PushAll(Init<T>(), values).data == values
    ensures Grown(PushAll(Init<T>(), values))
  {
    PushAllAppends(Init<T>(), values);
    PushAllKeepsGrown(Init<T>(), values);
  }

  lemma {:induction false} PushAllKeepsGrown<T>(b: Buffer<T>, values: seq<T>)
    requires Grown(b)
    ensures Grown(PushAll(b, values))
    decreases |values|
  {
    if values != [] {
      PushKeepsGrown(b, values[0]);
      PushAllKeepsGrown(Push(b, values[0]), values[1..]);
    }
  }

  /** Pushes every element of `values` with a loop, as callers of BUFFER_PUSH do. */
  method PushEach<T>(b: Buffer<T>, values: seq<T>) returns (r: Buffer<T>)
    requires b.Valid()
    ensures r.Valid() && r.data == b.data + values
    ensures r == PushAll(b, values)
  {
    r := b;
    var i := 0;
    while i < |values|
      invariant i <= |values| && r.Valid()
      invariant r.data == b.data + values[..i]
      invariant PushAll(r, values[i..]) == PushAll(b, values)
    {
      assert values[i..][1..] == values[i + 1..];
      r := Push(r, values[i]);
      assert values[..i + 1] == values[..i] + [values[i]];
      i := i + 1;
    }
    assert values[..i] == values;
  }
}
