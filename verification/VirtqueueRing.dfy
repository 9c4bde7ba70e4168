/** The available and used rings of a split virtqueue (VIRTIO 1.1, sections 2.6.6 and 2.6.8) as
    shared by a driver and the device: which buffers are on their way, and in which slots. */
module VirtqueueRing {
  import opened GuestMemory
  import Modular

  /** Ring indices are 16 bits wide and never reduced by the queue size. */
  const WRAP: nat := 0x1_0000

  datatype Geometry = Geometry(desc: nat, avail: nat, used: nat, size: nat)

  /** An element of the used ring: the head of the chain and the bytes written to it. */
  datatype Elem = Elem(id: nat, len: nat)

  function Word(m: Memory, a: nat): (v: nat)
    ensures v < WRAP
  {
    LeBound(Load(m, a, 2));
    Le(Load(m, a, 2))
  }

  function ElemAt(m: Memory, a: nat): Elem {
    Elem(Le(Load(m, a, 4)), Le(Load(m, a + 4, 4)))
  }

  predicate Encodable(e: Elem) { e.id < 0x1_0000_0000 && e.len < 0x1_0000_0000 }

  function ElemBytes(e: Elem): (bs: seq<byte>)
    ensures |bs| == 8
  {
    LeBytes(e.id, 4) + LeBytes(e.len, 4)
  }

  function AvailIdxAddr(g: Geometry): nat { g.avail + 2 }
  function UsedIdxAddr(g: Geometry): nat { g.used + 2 }

  /** Where ring[index % size] lies. */
  function AvailSlot(g: Geometry, index: nat): (a: nat)
    requires g.size > 0
    ensures g.avail + 4 <= a && a + 2 <= g.avail + 4 + 2 * g.size
  {
    g.avail + 4 + 2 * (index % g.size)
  }

  function UsedSlot(g: Geometry, index: nat): (a: nat)
    requires g.size > 0
    ensures g.used + 4 <= a && a + 8 <= g.used + 4 + 8 * g.size
  {
    g.used + 4 + 8 * (index % g.size)
  }

  predicate InTable(g: Geometry, x: nat) { g.desc <= x < g.desc + 16 * g.size }
  predicate InAvail(g: Geometry, x: nat) { g.avail <= x < g.avail + 4 + 2 * g.size }
  predicate InUsed(g: Geometry, x: nat) { g.used <= x < g.used + 4 + 8 * g.size }

  /** The queue size divides 65536 and the three areas do not meet. */
  ghost predicate Layout(g: Geometry) {
    && 0 < g.size < WRAP && WRAP % g.size == 0
    && forall x: nat :: !(InTable(g, x) && InAvail(g, x)) && !(InTable(g, x) && InUsed(g, x)) && !(InAvail(g, x) && InUsed(g, x))
  }

  /** A queue over its whole life: every head the driver made available, every element the
      device returned, how many of those the device has published and the driver consumed. */
  datatype Queue = Queue(posted: seq<nat>, returned: seq<Elem>, published: nat, consumed: nat)

  /** What the rings hold.  The driver keeps at most `size` buffers in flight. */
  ghost predicate RingInv(g: Geometry, m: Memory, q: Queue) {
    && g.size > 0
    && q.consumed <= q.published <= |q.returned| <= |q.posted| <= q.consumed + g.size
    && (forall i :: 0 <= i < |q.returned| ==> q.returned[i].id == q.posted[i])
    && Word(m, AvailIdxAddr(g)) == |q.posted| % WRAP
    && Word(m, UsedIdxAddr(g)) == q.published % WRAP
    && Waiting(g, m, q.posted, |q.returned|) && Back(g, m, q.returned, q.consumed)
  }

  ghost predicate Waiting(g: Geometry, m: Memory, posted: seq<nat>, from: nat)
    requires g.size > 0
  {
    forall i {:trigger AvailSlot(g, i)} :: from <= i < |posted| ==> Word(m, AvailSlot(g, i)) == posted[i]
  }

  ghost predicate Back(g: Geometry, m: Memory, returned: seq<Elem>, from: nat)
    requires g.size > 0
  {
    forall i {:trigger UsedSlot(g, i)} :: from <= i < |returned| ==> ElemAt(m, UsedSlot(g, i)) == returned[i]
  }

  /** Reducing a free-running 16-bit index by the queue size names the slot of the unbounded
      count, at every count, exactly when the size divides 65536. */
  lemma SlotsCoherent(size: nat)
    requires 0 < size < WRAP
    ensures WRAP % size == 0 <==> forall x: nat :: (x % WRAP) % size == x % size
  {
    if WRAP % size == 0 {
      var k := WRAP / size;
      assert WRAP == k * size;
      forall x: nat ensures (x % WRAP) % size == x % size { Modular.WrapThenMod(x, size, k); }
    } else {
      Modular.Remainder(0, 0, 0, size);
      assert (WRAP % WRAP) % size != WRAP % size;
    }
  }

  lemma SlotOfIndex(g: Geometry, count: nat)
    requires Layout(g)
    ensures AvailSlot(g, count % WRAP) == AvailSlot(g, count)
    ensures UsedSlot(g, count % WRAP) == UsedSlot(g, count)
  {
    SlotsCoherent(g.size);
    assert (count % WRAP) % g.size == count % g.size;
  }

  /** The distance between two 16-bit indices less than 65536 steps apart. */
  function Behind(from: nat, to: nat): (n: nat)
    requires from < WRAP && to < WRAP
    ensures n < WRAP && (n == 0 <==> from == to)
  {
    if to >= from then to - from else to + WRAP - from
  }

  lemma BehindIs(x: nat, y: nat)
    requires x <= y < x + WRAP
    ensures Behind(x % WRAP, y % WRAP) == y - x
  {
    var d := Behind(x % WRAP, y % WRAP);
    var q := x / WRAP;
    if x % WRAP + (y - x) < WRAP {
      Modular.Remainder(y, q, x % WRAP + (y - x), WRAP);
    } else {
      Modular.Remainder(y, q + 1, x % WRAP + (y - x) - WRAP, WRAP);
    }
  }

  /** Different slots of the used ring do not overlap. */
  lemma UsedSlotsApart(g: Geometry, i: nat, j: nat)
    requires g.size > 0 && i < j < i + g.size
    ensures UsedSlot(g, i) + 8 <= UsedSlot(g, j) || UsedSlot(g, j) + 8 <= UsedSlot(g, i)
  {
    Modular.Distinct(i, j, g.size);
  }

  lemma AvailSlotsApart(g: Geometry, i: nat, j: nat)
    requires g.size > 0 && i < j < i + g.size
    ensures AvailSlot(g, i) + 2 <= AvailSlot(g, j) || AvailSlot(g, j) + 2 <= AvailSlot(g, i)
  {
    Modular.Distinct(i, j, g.size);
  }

  lemma ElemStored(m: Memory, a: nat, e: Elem)
    requires Encodable(e)
    ensures ElemAt(Store(m, a, ElemBytes(e)), a) == e
  {
    var m' := Store(m, a, ElemBytes(e));
    LeRound(e.id, 4);
    LeRound(e.len, 4);
    assert Load(m', a, 4) == LeBytes(e.id, 4);
    assert Load(m', a + 4, 4) == LeBytes(e.len, 4);
  }

  lemma WordStored(m: Memory, a: nat, v: nat)
    requires v < WRAP
    ensures Word(Store(m, a, LeBytes(v, 2)), a) == v
  {
    LoadAfterStore(m, a, LeBytes(v, 2));
    LeRound(v, 2);
  }

  lemma WordKept(m: Memory, m': Memory, a: nat)
    requires forall x: nat :: a <= x < a + 2 ==> At(m', x) == At(m, x)
    ensures Word(m', a) == Word(m, a)
  {
    LoadAgrees(m, m', a, 2);
  }

  lemma ElemKept(m: Memory, m': Memory, a: nat)
    requires forall x: nat :: a <= x < a + 8 ==> At(m', x) == At(m, x)
    ensures ElemAt(m', a) == ElemAt(m, a)
  {
    LoadAgrees(m, m', a, 4);
    LoadAgrees(m, m', a + 4, 4);
  }

  lemma WaitingKept(g: Geometry, m: Memory, m': Memory, posted: seq<nat>, from: nat)
    requires g.size > 0 && Waiting(g, m, posted, from)
    requires forall x: nat :: InAvail(g, x) ==> At(m', x) == At(m, x)
    ensures Waiting(g, m', posted, from) && Word(m', AvailIdxAddr(g)) == Word(m, AvailIdxAddr(g))
  {
    forall i | from <= i < |posted| ensures Word(m', AvailSlot(g, i)) == posted[i] {
      WordKept(m, m', AvailSlot(g, i));
    }
    WordKept(m, m', AvailIdxAddr(g));
  }

  /** Writing element `count` into its slot disturbs no element still to be consumed. */
  lemma BackKept(g: Geometry, m: Memory, m': Memory, returned: seq<Elem>, from: nat, count: nat)
    requires g.size > 0 && Back(g, m, returned, from) && |returned| <= count < from + g.size
    requires forall x: nat :: InUsed(g, x) && !(UsedSlot(g, count) <= x < UsedSlot(g, count) + 8) ==> At(m', x) == At(m, x)
    ensures Back(g, m', returned, from) && Word(m', UsedIdxAddr(g)) == Word(m, UsedIdxAddr(g))
  {
    forall i | from <= i < |returned| ensures ElemAt(m', UsedSlot(g, i)) == returned[i] {
      UsedSlotsApart(g, i, count);
      ElemKept(m, m', UsedSlot(g, i));
    }
    WordKept(m, m', UsedIdxAddr(g));
  }

  lemma BackSame(g: Geometry, m: Memory, m': Memory, returned: seq<Elem>, from: nat)
    requires g.size > 0 && Back(g, m, returned, from)
    requires forall x: nat :: g.used + 4 <= x < g.used + 4 + 8 * g.size ==> At(m', x) == At(m, x)
    ensures Back(g, m', returned, from)
  {
    forall i | from <= i < |returned| ensures ElemAt(m', UsedSlot(g, i)) == returned[i] {
      ElemKept(m, m', UsedSlot(g, i));
    }
  }

  function WithReturned(q: Queue, e: Elem): Queue { q.(returned := q.returned + [e]) }
  function AllPublished(q: Queue): Queue { q.(published := |q.returned|) }

  /** Memory after the used entry for the next head is written. */
  function Returned(g: Geometry, m: Memory, count: nat, e: Elem): Memory
    requires g.size > 0
  {
    Store(m, UsedSlot(g, count), ElemBytes(e))
  }

  function Published(g: Geometry, m: Memory, index: nat): Memory
    requires index < WRAP
  {
    Store(m, UsedIdxAddr(g), LeBytes(index, 2))
  }

  lemma EntryFrame(g: Geometry, m: Memory, count: nat, e: Elem)
    requires g.size > 0 && Encodable(e)
    ensures forall x: nat :: !(UsedSlot(g, count) <= x < UsedSlot(g, count) + 8) ==> At(Returned(g, m, count, e), x) == At(m, x)
    ensures ElemAt(Returned(g, m, count, e), UsedSlot(g, count)) == e
  {
    ElemStored(m, UsedSlot(g, count), e);
  }

  /** A write into the next used slot keeps the rings in order. */
  lemma SlotWriteKeeps(g: Geometry, m: Memory, m': Memory, q: Queue)
    requires Layout(g) && RingInv(g, m, q) && |q.returned| < |q.posted|
    requires var a := UsedSlot(g, |q.returned|);
      forall x: nat :: !(a <= x < a + 8) ==> At(m', x) == At(m, x)
    ensures RingInv(g, m', q)
  {
    WaitingKept(g, m, m', q.posted, |q.returned|);
    BackKept(g, m, m', q.returned, q.consumed, |q.returned|);
  }

  lemma BackGrows(g: Geometry, m: Memory, returned: seq<Elem>, from: nat, e: Elem)
    requires g.size > 0 && Back(g, m, returned, from) && ElemAt(m, UsedSlot(g, |returned|)) == e
    ensures Back(g, m, returned + [e], from)
  {
    var r := returned + [e];
    forall i | from <= i < |r| ensures ElemAt(m, UsedSlot(g, i)) == r[i] {
      if i < |returned| { assert r[i] == returned[i]; }
    }
  }

  lemma {:induction false} CountKeeps(g: Geometry, m: Memory, q: Queue, e: Elem)
    requires RingInv(g, m, q) && |q.returned| < |q.posted|
    requires e.id == q.posted[|q.returned|] && ElemAt(m, UsedSlot(g, |q.returned|)) == e
    ensures RingInv(g, m, WithReturned(q, e))
  {
    BackGrows(g, m, q.returned, q.consumed, e);
    assert WithReturned(q, e).returned == q.returned + [e];
  }

  /** Returning the next head keeps the rings in order, whether or not it is then counted as
      returned: an entry whose write was reported as failed does no harm. */
  lemma ReturnKeeps(g: Geometry, m: Memory, q: Queue, e: Elem)
    requires Layout(g) && RingInv(g, m, q) && |q.returned| < |q.posted|
    requires e.id == q.posted[|q.returned|] && Encodable(e)
    ensures var m' := Returned(g, m, |q.returned|, e);
      RingInv(g, m', q) && RingInv(g, m', WithReturned(q, e))
  {
    EntryFrame(g, m, |q.returned|, e);
    SlotWriteKeeps(g, m, Returned(g, m, |q.returned|, e), q);
    CountKeeps(g, Returned(g, m, |q.returned|, e), q, e);
  }

  /** Publishing covers exactly the entries written so far. */
  lemma PublishKeeps(g: Geometry, m: Memory, q: Queue)
    requires Layout(g) && RingInv(g, m, q)
    ensures RingInv(g, Published(g, m, |q.returned| % WRAP), AllPublished(q))
  {
    var m' := Published(g, m, |q.returned| % WRAP);
    WaitingKept(g, m, m', q.posted, |q.returned|);
    BackSame(g, m, m', q.returned, q.consumed);
    WordStored(m, UsedIdxAddr(g), |q.returned| % WRAP);
  }

  /** Memory outside the two rings is none of their business. */
  lemma OthersKeep(g: Geometry, m: Memory, m': Memory, q: Queue)
    requires RingInv(g, m, q)
    requires forall x: nat :: InAvail(g, x) || InUsed(g, x) ==> At(m', x) == At(m, x)
    ensures RingInv(g, m', q)
  {
    WaitingKept(g, m, m', q.posted, |q.returned|);
    BackSame(g, m, m', q.returned, q.consumed);
    WordKept(m, m', UsedIdxAddr(g));
  }

  /** The driver makes the next head available: slot first, then index. */
  function Posted(g: Geometry, m: Memory, count: nat, head: nat): Memory
    requires g.size > 0 && head < WRAP
  {
    Store(Store(m, AvailSlot(g, count), LeBytes(head, 2)), AvailIdxAddr(g), LeBytes((count + 1) % WRAP, 2))
  }

  lemma PostFrame(g: Geometry, m: Memory, count: nat, head: nat)
    requires g.size > 0 && head < WRAP
    ensures var m', a := Posted(g, m, count, head), AvailSlot(g, count);
      && Word(m', a) == head && Word(m', AvailIdxAddr(g)) == (count + 1) % WRAP
      && forall x: nat :: !(a <= x < a + 2) && !(AvailIdxAddr(g) <= x < AvailIdxAddr(g) + 2) ==> At(m', x) == At(m, x)
  {
    var m1 := Store(m, AvailSlot(g, count), LeBytes(head, 2));
    WordStored(m, AvailSlot(g, count), head);
    WordStored(m1, AvailIdxAddr(g), (count + 1) % WRAP);
    WordKept(m1, Posted(g, m, count, head), AvailSlot(g, count));
  }

  lemma WaitingGrows(g: Geometry, m: Memory, m': Memory, posted: seq<nat>, from: nat, head: nat)
    requires g.size > 0 && Waiting(g, m, posted, from) && from <= |posted| < from + g.size
    requires Word(m', AvailSlot(g, |posted|)) == head
    requires var a := AvailSlot(g, |posted|); forall x: nat :: InAvail(g, x) && x >= g.avail + 4 && !(a <= x < a + 2) ==> At(m', x) == At(m, x)
    ensures Waiting(g, m', posted + [head], from)
  {
    var p := posted + [head];
    forall i | from <= i < |p| ensures Word(m', AvailSlot(g, i)) == p[i] {
      if i < |posted| {
        AvailSlotsApart(g, i, |posted|);
        WordKept(m, m', AvailSlot(g, i));
      }
    }
  }

  lemma UsedUntouched(g: Geometry, m: Memory, m': Memory)
    requires Layout(g) && forall x: nat :: !InAvail(g, x) ==> At(m', x) == At(m, x)
    ensures forall x: nat :: g.used <= x < g.used + 4 + 8 * g.size ==> At(m', x) == At(m, x)
  {
    forall x: nat | g.used <= x < g.used + 4 + 8 * g.size ensures At(m', x) == At(m, x) {
      assert InUsed(g, x) && !InAvail(g, x);
    }
  }

  lemma SlotPostKeeps(g: Geometry, m: Memory, m': Memory, q: Queue, head: nat)
    requires Layout(g) && RingInv(g, m, q) && |q.posted| < q.consumed + g.size
    requires var a := AvailSlot(g, |q.posted|);
      && Word(m', a) == head && Word(m', AvailIdxAddr(g)) == (|q.posted| + 1) % WRAP
      && forall x: nat :: !(a <= x < a + 2) && !(AvailIdxAddr(g) <= x < AvailIdxAddr(g) + 2) ==> At(m', x) == At(m, x)
    ensures RingInv(g, m', q.(posted := q.posted + [head]))
  {
    WaitingGrows(g, m, m', q.posted, |q.returned|, head);
    UsedUntouched(g, m, m');
    BackSame(g, m, m', q.returned, q.consumed);
    WordKept(m, m', UsedIdxAddr(g));
    var q' := q.(posted := q.posted + [head]);
    assert forall i :: 0 <= i < |q.returned| ==> q'.posted[i] == q.posted[i];
  }

  lemma PostKeeps(g: Geometry, m: Memory, q: Queue, head: nat)
    requires Layout(g) && RingInv(g, m, q) && head < g.size && |q.posted| < q.consumed + g.size
    ensures RingInv(g, Posted(g, m, |q.posted|, head), q.(posted := q.posted + [head]))
  {
    PostFrame(g, m, |q.posted|, head);
    SlotPostKeeps(g, m, Posted(g, m, |q.posted|, head), q, head);
  }

  /** What a driver sees that compares its own count with the published index: a difference
      exactly when something new is there, and then the oldest head it has not yet got back. */
  lemma DriverSees(g: Geometry, m: Memory, q: Queue)
    requires Layout(g) && RingInv(g, m, q)
    ensures Behind(q.consumed % WRAP, Word(m, UsedIdxAddr(g))) == q.published - q.consumed
    ensures q.consumed < q.published ==>
      ElemAt(m, UsedSlot(g, q.consumed)) == q.returned[q.consumed] && q.returned[q.consumed].id == q.posted[q.consumed]
  {
    BehindIs(q.consumed, q.published);
  }

  /** What the device sees that compares its own count with the available index. */
  lemma DeviceSees(g: Geometry, m: Memory, q: Queue)
    requires Layout(g) && RingInv(g, m, q)
    ensures Behind(|q.returned| % WRAP, Word(m, AvailIdxAddr(g))) == |q.posted| - |q.returned|
    ensures |q.returned| < |q.posted| ==>
      Word(m, AvailSlot(g, |q.returned| % WRAP)) == q.posted[|q.returned|]
  {
    BehindIs(|q.returned|, |q.posted|);
    SlotOfIndex(g, |q.returned|);
  }

  lemma EmptyRings(g: Geometry)
    requires Layout(g)
    ensures RingInv(g, map[], Queue([], [], 0, 0))
  {
    LeZero(Load(map[], AvailIdxAddr(g), 2));
    LeZero(Load(map[], UsedIdxAddr(g), 2));
  }

  lemma {:induction false} LeZero(bs: seq<byte>)
    requires forall i :: 0 <= i < |bs| ==> bs[i] == 0
    ensures Le(bs) == 0
  {
    if bs != [] { LeZero(bs[1..]); }
  }
}
