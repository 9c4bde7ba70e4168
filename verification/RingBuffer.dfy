/** ring_buffer.c as one thread sees it: the operations on a quiet ring. */
module RingBuffer {
  import opened GuestMemory
  import opened RingSlots
  import Modular

  /** The `n` elements from slot `head` on, wrapping at the capacity. */
  function Window(buf: seq<byte>, cap: nat, size: nat, head: nat, n: nat): (es: seq<seq<byte>>)
    requires Fits(|buf|, cap, size) && head < cap
    ensures |es| == n
    decreases n
  {
    if n == 0 then []
    else [Slot(buf, cap, size, head)] + Window(buf, cap, size, if head + 1 == cap then 0 else head + 1, n - 1)
  }

  /** Elements between two wrapping indices. */
  function Distance(head: nat, tail: nat, cap: nat): (n: nat)
    requires head < cap && tail < cap
    ensures n < cap
    ensures tail == if head + n < cap then head + n else head + n - cap
  {
    if tail >= head then tail - head else cap - head + tail
  }

  function Next(i: nat, cap: nat): (j: nat)
    requires i < cap
    ensures j < cap && j == if i + 1 == cap then 0 else i + 1
  {
    if i + 1 == cap then Modular.Remainder(cap, 1, 0, cap); (i + 1) % cap
    else Modular.Remainder(i + 1, 0, i + 1, cap); (i + 1) % cap
  }

  /** Filling the free slot behind a window lengthens the window by that slot. */
  lemma {:induction false} Filled(b: seq<byte>, b': seq<byte>, cap: nat, size: nat, head: nat, n: nat)
    requires |b| == |b'| && Fits(|b|, cap, size) && head < cap && n < cap
    requires var t := if head + n < cap then head + n else head + n - cap;
      forall x :: 0 <= x < |b| && !(Offset(t, size) <= x < Offset(t, size) + size) ==> b'[x] == b[x]
    ensures var t := if head + n < cap then head + n else head + n - cap;
      Window(b', cap, size, head, n + 1) == Window(b, cap, size, head, n) + [Slot(b', cap, size, t)]
    decreases n
  {
    var t := if head + n < cap then head + n else head + n - cap;
    if n > 0 {
      var next := if head + 1 == cap then 0 else head + 1;
      Filled(b, b', cap, size, next, n - 1);
      OtherSlot(b, b', cap, size, t, head);
    }
  }

  lemma TwoSlots(bufSize: nat, elementSize: nat)
    requires elementSize > 0
    ensures Capacity(bufSize, elementSize) >= 2 <==> bufSize >= HEADER + 2 * elementSize
  {
    if bufSize > HEADER {
      var n := bufSize - HEADER;
      assert n == (n / elementSize) * elementSize + n % elementSize;
      if n / elementSize >= 2 {
        Modular.AtLeast(n / elementSize - 1, elementSize);
        assert (n / elementSize) * elementSize == (n / elementSize - 1) * elementSize + elementSize;
      } else if n / elementSize == 1 {
        assert n < 2 * elementSize;
      }
    }
  }

  /** Moving the head on drops the first element of the window. */
  lemma FirstOut(b: seq<byte>, cap: nat, size: nat, head: nat, tail: nat)
    requires Fits(|b|, cap, size) && head < cap && tail < cap && head != tail
    ensures var w := Window(b, cap, size, head, Distance(head, tail, cap));
      && w[0] == Slot(b, cap, size, head)
      && w[1..] == Window(b, cap, size, Next(head, cap), Distance(Next(head, cap), tail, cap))
  {
  }

  class SharedRing {
    const buf: array<byte>
    const capacity: nat
    const elementSize: nat
    var head: nat
    var tail: nat

    ghost predicate Valid()
      reads this
    {
      capacity >= 2 && Fits(buf.Length, capacity, elementSize) && head < capacity && tail < capacity
    }

    ghost function Contents(): (es: seq<seq<byte>>)
      requires Valid()
      reads this, buf
      ensures |es| < capacity
    {
      Window(buf[..], capacity, elementSize, head, Distance(head, tail, capacity))
    }

    constructor (buf: array<byte>, elementSize: nat)
      requires elementSize > 0 && Capacity(buf.Length, elementSize) >= 2
      ensures Valid() && this.buf == buf && this.elementSize == elementSize
      ensures capacity == Capacity(buf.Length, elementSize) && Contents() == []
    {
      this.buf := buf;
      this.elementSize := elementSize;
      capacity := Capacity(buf.Length, elementSize);
      head, tail := 0, 0;
      CapacityFits(buf.Length, elementSize);
    }

    /** ring_buf_init: a ring needs a non-empty element and room for two slots. */
    static method Init(buf: array<byte>, elementSize: nat) returns (rc: int, rb: SharedRing?)
      ensures rc == (if elementSize > 0 && buf.Length >= 16 + 2 * elementSize then 0 else -1)
      ensures rc == 0 ==> rb != null && fresh(rb) && rb.Valid() && rb.Contents() == [] && rb.buf == buf
      ensures rc != 0 ==> rb == null
    {
      rc, rb := -1, null;
      if elementSize == 0 { return; }
      TwoSlots(buf.Length, elementSize);
      if Capacity(buf.Length, elementSize) < 2 { return; }
      rc := 0;
      rb := new SharedRing(buf, elementSize);
    }

    /** ring_buf_enqueue: false stands for -1. */
    method Enqueue(element: array<byte>) returns (ok: bool)
      requires Valid() && element.Length == elementSize && element != buf
      modifies this`tail, buf
      ensures Valid()
      ensures ok == (|old(Contents())| < capacity - 1)
      ensures Contents() == if ok then old(Contents()) + [element[..]] else old(Contents())
      ensures forall x :: 0 <= x < 16 && x < buf.Length ==> buf[x] == old(buf[x])
    {
      var t := tail;
      var nextTail := Next(t, capacity);
      if nextTail == head { return false; }
      ghost var before := buf[..];
      var base := Offset(t, elementSize);
      SlotInside(buf.Length, capacity, elementSize, t, 0);
      forall k | 0 <= k < elementSize {
        buf[base + k] := element[k];
      }
      tail := nextTail;
      Filled(before, buf[..], capacity, elementSize, head, Distance(head, t, capacity));
      assert Slot(buf[..], capacity, elementSize, t) == element[..];
      return true;
    }

    /** ring_buf_dequeue */
    method Dequeue(element: array<byte>) returns (ok: bool)
      requires Valid() && element.Length == elementSize && element != buf
      modifies this`head, element
      ensures Valid()
      ensures ok == (old(Contents()) != [])
      ensures ok ==> element[..] == old(Contents())[0] && Contents() == old(Contents())[1..]
      ensures !ok ==> element[..] == old(element[..]) && Contents() == old(Contents())
    {
      var h := head;
      if h == tail { return false; }
      ghost var before := buf[..];
      var base := Offset(h, elementSize);
      SlotInside(buf.Length, capacity, elementSize, h, 0);
      forall k | 0 <= k < elementSize {
        element[k] := buf[base + k];
      }
      assert buf[..] == before;
      assert element[..] == Slot(before, capacity, elementSize, h);
      head := Next(h, capacity);
      FirstOut(before, capacity, elementSize, h, tail);
      return true;
    }

    /** ring_buf_count, ring_buf_is_empty, ring_buf_is_full and ring_buf_capacity. */
    method Query() returns (count: nat, empty: bool, full: bool, usable: nat)
      requires Valid()
      ensures count == |Contents()|
      ensures empty <==> Contents() == []
      ensures full <==> |Contents()| == usable
      ensures usable == capacity - 1
    {
      count := if tail >= head then tail - head else capacity - head + tail;
      empty := head == tail;
      full := Next(tail, capacity) == head;
      usable := capacity - 1;
    }
  }
}
