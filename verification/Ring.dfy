/** The bounded ring buffer as one thread sees it. */
module Rings {
  import opened Common

  /** The fields guarded by the ring's mutex. */
  datatype Core<T> = Core(buf: seq<T>, head: nat, tail: nat, size: int)

  /** The locked part of `push_back`. */
  function Put<T>(c: Core<T>, e: T): Core<T>
    requires c.tail < |c.buf|
  {
    Core(c.buf[c.tail := e], c.head, (c.tail + 1) % |c.buf|, c.size + 1)
  }

  /** The locked part of `pop`. */
  function Take<T>(c: Core<T>): Core<T>
    requires c.head < |c.buf|
  {
    c.(size := c.size - 1, head := (c.head + 1) % |c.buf|)
  }

  /** The slot of the element that has `i` elements before it. */
  function Slot<T>(c: Core<T>, i: nat): nat
    requires |c.buf| > 0
  {
    (c.head + i) % |c.buf|
  }

  /** The ring holds exactly the elements of `queue`, from the head on. */
  ghost predicate Holds<T>(c: Core<T>, queue: seq<T>) {
    && 0 < |c.buf| && c.size == |queue| <= |c.buf|
    && c.head < |c.buf| && c.tail == Slot(c, |queue|)
    && forall i :: 0 <= i < |queue| ==> c.buf[Slot(c, i)] == queue[i]
  }

  lemma ModApart(j: nat, k: nat, n: nat)
    requires 0 < k - j < n
    ensures j % n != k % n
  {
    var q := k / n - j / n;
    assert k - j == n * q + (k % n - j % n);
    assert q <= 0 || n * q >= n;
  }

  lemma ModAdd(a: nat, b: nat, n: nat)
    requires n > 0
    ensures (a % n + b) % n == (a + b) % n
  {
    var x := a % n + b;
    assert a + b == n * (a / n) + x;
    assert x == n * (x / n) + x % n;
    assert n * (a / n) + n * (x / n) == n * (a / n + x / n);
    DivModUnique(a + b, n, a / n + x / n, x % n);
  }

  /** A put appends at the back and overwrites nothing that is still queued. */
  lemma PutAppends<T>(c: Core<T>, queue: seq<T>, e: T)
    requires Holds(c, queue) && |queue| < |c.buf|
    ensures Holds(Put(c, e), queue + [e])
    ensures Put(c, e).buf[c.tail] == e
  {
    var n := |c.buf|;
    ModAdd(c.head + |queue|, 1, n);
    forall i | 0 <= i < |queue| ensures Slot(c, i) != c.tail {
      ModApart(c.head + i, c.head + |queue|, n);
    }
  }

  /** A take removes the front. */
  lemma TakeRemoves<T>(c: Core<T>, queue: seq<T>)
    requires Holds(c, queue) && queue != []
    ensures c.buf[c.head] == queue[0]
    ensures Holds(Take(c), queue[1..])
  {
    var n := |c.buf|;
    assert c.buf[Slot(c, 0)] == queue[0];
    assert Slot(c, 0) == c.head by { DivModUnique(c.head, n, 0, c.head); }
    ModAdd(c.head + 1, |queue| - 1, n);
    forall i | 0 <= i < |queue| - 1 ensures Take(c).buf[Slot(Take(c), i)] == queue[1..][i] {
      ModAdd(c.head + 1, i, n);
      assert c.buf[Slot(c, i + 1)] == queue[i + 1];
    }
  }

  /** `CircularBuffer<T, N>`, with its two semaphores as counters. */
  class CircularBuffer<T(0)> {
    var buffer: array<T>
    var headIdx: nat
    var tailIdx: nat
    var size: nat
    var openSlots: nat
    var fullSlots: nat
    ghost var Contents: seq<T>

    ghost function Fields(): Core<T>
      reads this, buffer
    {
      Core(buffer[..], headIdx, tailIdx, size)
    }

    /** With no operation in progress the tokens mirror the size. */
    ghost predicate Valid()
      reads this, buffer
    {
      Holds(Fields(), Contents) && openSlots == buffer.Length - size && fullSlots == size
    }

    constructor (n: nat)
      requires n > 0
      ensures Valid() && fresh(buffer) && buffer.Length == n && Contents == []
    {
      buffer := new T[n];
      headIdx, tailIdx, size, openSlots, fullSlots := 0, 0, 0, n, 0;
      Contents := [];
      new;
      DivModUnique(0, n, 0, 0);
    }

    method IsEmpty() returns (r: bool)
      requires Valid()
      ensures r <==> Contents == []
    {
      r := size == 0;
    }

    method IsFull() returns (r: bool)
      requires Valid()
      ensures r <==> |Contents| == buffer.Length
    {
      r := size == buffer.Length;
    }

    /** Appends and returns the slot, or returns -1 when the ring is full. */
    method PushBack(elem: T) returns (ret: int)
      requires Valid()
      modifies this, buffer
      ensures Valid() && buffer == old(buffer) && headIdx == old(headIdx)
      ensures ret == -1 <==> |old(Contents)| == buffer.Length
      ensures Contents == if ret == -1 then old(Contents) else old(Contents) + [elem]
      ensures ret != -1 ==> 0 <= ret < buffer.Length && ret == old(tailIdx) && buffer[ret] == elem
    {
      var full := IsFull();
      if full {
        return -1;
      }
      PutAppends(Fields(), Contents, elem);
      openSlots := openSlots - 1;
      ret := tailIdx;
      buffer[tailIdx] := elem;
      size := size + 1;
      tailIdx := (tailIdx + 1) % buffer.Length;
      fullSlots := fullSlots + 1;
      Contents := Contents + [elem];
    }

    /** Removes the front and returns it with its slot, or returns nothing when empty. */
    method Pop() returns (r: Option<(T, nat)>)
      requires Valid()
      modifies this
      ensures Valid() && buffer == old(buffer) && tailIdx == old(tailIdx)
      ensures r == None <==> old(Contents) == []
      ensures r.Some? ==> r.value == (old(Contents)[0], old(headIdx)) && Contents == old(Contents)[1..]
      ensures r == None ==> Contents == old(Contents)
    {
      var empty := IsEmpty();
      if empty {
        return None;
      }
      TakeRemoves(Fields(), Contents);
      fullSlots := fullSlots - 1;
      r := Some((buffer[headIdx], headIdx));
      size := size - 1;
      headIdx := (headIdx + 1) % buffer.Length;
      openSlots := openSlots + 1;
      Contents := Contents[1..];
    }
  }
}
