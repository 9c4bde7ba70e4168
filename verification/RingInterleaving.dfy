/** One producer and one consumer on a shared ring (ring_buffer.c; eth_shm.c names the two
    indices the other way round), one memory access at a time, in any order.  The ring is a
    bounded FIFO all the same. */
module RingInterleaving {
  import opened GuestMemory
  import opened RingSlots
  import opened Subsequences
  import Modular

  type Element = seq<byte>

  /** Where ring_buf_enqueue stands. */
  datatype Producer =
    | PIdle
    | PLoaded(e: Element, tail: nat)          // own index loaded
    | PCopy(e: Element, tail: nat, k: nat)    // not full; k bytes copied

  /** Where ring_buf_dequeue stands. */
  datatype Consumer =
    | CIdle
    | CLoaded(head: nat)
    | CCopy(head: nat, out: seq<byte>)        // not empty; |out| bytes copied

  /** `enq` and `deq` are the elements accepted and returned so far (history). */
  datatype Ring = Ring(
    cap: nat, size: nat, buf: seq<byte>, head: nat, tail: nat,
    p: Producer, c: Consumer,
    enq: seq<Element>, deq: seq<Element>)

  datatype Act =
    | LoadTail(e: Element) | CheckFull | CopyIn | StoreTail
    | LoadHead | CheckEmpty | CopyOut | StoreHead

  predicate Enabled(r: Ring, a: Act) {
    && r.cap >= 2 && Fits(|r.buf|, r.cap, r.size)
    && match a
       case LoadTail(e) => r.p.PIdle? && |e| == r.size
       case CheckFull => r.p.PLoaded?
       case CopyIn => r.p.PCopy? && r.p.k < r.size && r.p.tail < r.cap && |r.p.e| == r.size
       case StoreTail => r.p.PCopy? && r.p.k == r.size
       case LoadHead => r.c.CIdle?
       case CheckEmpty => r.c.CLoaded?
       case CopyOut => r.c.CCopy? && |r.c.out| < r.size && r.c.head < r.cap
       case StoreHead => r.c.CCopy? && |r.c.out| == r.size
  }

  function Do(r: Ring, a: Act): (r': Ring)
    requires Enabled(r, a)
    ensures r'.cap == r.cap && r'.size == r.size && |r'.buf| == |r.buf|
  {
    match a
    case LoadTail(e) => r.(p := PLoaded(e, r.tail))
    case CheckFull =>
      r.(p := if (r.p.tail + 1) % r.cap == r.head then PIdle else PCopy(r.p.e, r.p.tail, 0))
    case CopyIn =>
      SlotInside(|r.buf|, r.cap, r.size, r.p.tail, r.p.k);
      r.(buf := r.buf[Offset(r.p.tail, r.size) + r.p.k := r.p.e[r.p.k]], p := r.p.(k := r.p.k + 1))
    case StoreTail => r.(tail := (r.p.tail + 1) % r.cap, p := PIdle, enq := r.enq + [r.p.e])
    case LoadHead => r.(c := CLoaded(r.head))
    case CheckEmpty => r.(c := if r.c.head == r.tail then CIdle else CCopy(r.c.head, []))
    case CopyOut =>
      SlotInside(|r.buf|, r.cap, r.size, r.c.head, |r.c.out|);
      r.(c := r.c.(out := r.c.out + [r.buf[Offset(r.c.head, r.size) + |r.c.out|]]))
    case StoreHead => r.(head := (r.c.head + 1) % r.cap, c := CIdle, deq := r.deq + [r.c.out])
  }

  // ---------- the invariant ----------

  predicate Shape(r: Ring) {
    && r.cap >= 2 && Fits(|r.buf|, r.cap, r.size)
    && |r.deq| <= |r.enq| < |r.deq| + r.cap
    && r.head == |r.deq| % r.cap && r.tail == |r.enq| % r.cap
    && (forall i :: 0 <= i < |r.enq| ==> |r.enq[i]| == r.size)
  }

  predicate ProducerInv(r: Ring)
    requires Shape(r)
  {
    match r.p
    case PIdle => true
    case PLoaded(e, tail) => tail == r.tail && |e| == r.size
    case PCopy(e, tail, k) =>
      && tail == r.tail && |e| == r.size && k <= r.size && |r.enq| + 1 < |r.deq| + r.cap
      && Slot(r.buf, r.cap, r.size, tail)[..k] == e[..k]
  }

  predicate ConsumerInv(r: Ring)
    requires Shape(r)
  {
    match r.c
    case CIdle => true
    case CLoaded(head) => head == r.head
    case CCopy(head, out) =>
      head == r.head && |r.deq| < |r.enq| && |out| <= r.size && out == r.enq[|r.deq|][..|out|]
  }

  ghost predicate Inv(r: Ring) {
    && Shape(r) && ProducerInv(r) && ConsumerInv(r)
    && r.deq == r.enq[..|r.deq|]
    && forall i :: |r.deq| <= i < |r.enq| ==> Slot(r.buf, r.cap, r.size, i % r.cap) == r.enq[i]
  }

  /** The FIFO the ring stands for. */
  function Queue(r: Ring): seq<Element>
    requires |r.deq| <= |r.enq|
  {
    r.enq[|r.deq|..]
  }

  /** ring_buf_init */
  function Init(buf: seq<byte>, size: nat): Ring
    requires size > 0 && Capacity(|buf|, size) >= 2
  {
    Ring(Capacity(|buf|, size), size, buf, 0, 0, PIdle, CIdle, [], [])
  }

  lemma InitInv(buf: seq<byte>, size: nat)
    requires size > 0 && Capacity(|buf|, size) >= 2
    ensures Inv(Init(buf, size))
  {
    CapacityFits(|buf|, size);
  }

  // ---------- preservation ----------

  /** The full test, for counters instead of indices. */
  lemma FullTest(enq: nat, deq: nat, cap: nat)
    requires cap >= 2 && deq <= enq < deq + cap
    ensures (enq % cap + 1) % cap == deq % cap <==> enq - deq == cap - 1
  {
    Modular.Successor(enq, cap);
    if enq - deq == cap - 1 {
      Modular.SameRemainder(deq, enq + 1, cap);
      Modular.Remainder(cap, 1, 0, cap);
    } else {
      Modular.Distinct(deq, enq + 1, cap);
    }
  }

  lemma EmptyTest(enq: nat, deq: nat, cap: nat)
    requires cap >= 2 && deq <= enq < deq + cap
    ensures deq % cap == enq % cap <==> enq == deq
  {
    if deq < enq { Modular.Distinct(deq, enq, cap); }
  }

  lemma CopyInKeeps(r: Ring)
    requires Inv(r) && Enabled(r, CopyIn)
    ensures Inv(Do(r, CopyIn))
  {
    var r' := Do(r, CopyIn);
    var t, k := r.tail, r.p.k;
    SlotInside(|r.buf|, r.cap, r.size, t, k);
    var s, s' := Slot(r.buf, r.cap, r.size, t), Slot(r'.buf, r.cap, r.size, t);
    assert s' == s[k := r.p.e[k]];
    assert s'[..k + 1] == s[..k] + [r.p.e[k]];
    assert r.p.e[..k + 1] == r.p.e[..k] + [r.p.e[k]];
    forall i | |r.deq| <= i < |r.enq| ensures Slot(r'.buf, r.cap, r.size, i % r.cap) == r.enq[i] {
      Modular.Distinct(i, |r.enq|, r.cap);
      OtherSlot(r.buf, r'.buf, r.cap, r.size, t, i % r.cap);
    }
  }

  lemma CopyOutKeeps(r: Ring)
    requires Inv(r) && Enabled(r, CopyOut)
    ensures Inv(Do(r, CopyOut))
  {
    var k, e := |r.c.out|, r.enq[|r.deq|];
    SlotInside(|r.buf|, r.cap, r.size, r.c.head, k);
    assert Slot(r.buf, r.cap, r.size, r.head) == e;
    assert r.buf[Offset(r.head, r.size) + k] == Slot(r.buf, r.cap, r.size, r.head)[k];
    assert e[..k + 1] == e[..k] + [e[k]];
  }

  lemma StoreTailKeeps(r: Ring)
    requires Inv(r) && Enabled(r, StoreTail)
    ensures Inv(Do(r, StoreTail))
  {
    var r' := Do(r, StoreTail);
    Modular.Successor(|r.enq|, r.cap);
    assert r.p.e[..r.size] == r.p.e && Slot(r.buf, r.cap, r.size, r.tail)[..r.size] == Slot(r.buf, r.cap, r.size, r.tail);
    assert r'.enq[..|r.deq|] == r.enq[..|r.deq|];
  }

  lemma StoreHeadKeeps(r: Ring)
    requires Inv(r) && Enabled(r, StoreHead)
    ensures Inv(Do(r, StoreHead))
  {
    Modular.Successor(|r.deq|, r.cap);
    var e := r.enq[|r.deq|];
    assert e[..r.size] == e;
    assert r.enq[..|r.deq| + 1] == r.enq[..|r.deq|] + [e];
  }

  lemma Step(r: Ring, a: Act)
    requires Inv(r) && Enabled(r, a)
    ensures Inv(Do(r, a))
  {
    match a {
      case CopyIn => CopyInKeeps(r);
      case CopyOut => CopyOutKeeps(r);
      case StoreTail => StoreTailKeeps(r);
      case StoreHead => StoreHeadKeeps(r);
      case CheckFull => FullTest(|r.enq|, |r.deq|, r.cap);
      case CheckEmpty => EmptyTest(|r.enq|, |r.deq|, r.cap);
      case _ =>
    }
  }

  // ---------- runs ----------

  ghost predicate Legal(r: Ring, run: seq<Act>)
    decreases |run|
  {
    run == [] || (Enabled(r, run[0]) && Legal(Do(r, run[0]), run[1..]))
  }

  ghost function Exec(r: Ring, run: seq<Act>): Ring
    requires Legal(r, run)
    decreases |run|
  {
    if run == [] then r else Exec(Do(r, run[0]), run[1..])
  }

  lemma {:induction false} RunKeeps(r: Ring, run: seq<Act>)
    requires Inv(r) && Legal(r, run)
    ensures Inv(Exec(r, run)) && Exec(r, run).cap == r.cap && |Exec(r, run).buf| == |r.buf| && Exec(r, run).size == r.size
    decreases |run|
  {
    if run != [] {
      Step(r, run[0]);
      RunKeeps(Do(r, run[0]), run[1..]);
    }
  }

  /** After any interleaving: what came out is what went in, in order, whole, each once, and
      never more than capacity - 1 elements are inside. */
  lemma EveryInterleaving(buf: seq<byte>, size: nat, run: seq<Act>)
    requires size > 0 && Capacity(|buf|, size) >= 2 && Legal(Init(buf, size), run)
    ensures var r := Exec(Init(buf, size), run);
      && |r.deq| <= |r.enq| && r.deq + Queue(r) == r.enq
      && |Queue(r)| <= Capacity(|buf|, size) - 1
  {
    InitInv(buf, size);
    RunKeeps(Init(buf, size), run);
  }

  // ---------- refinement ----------

  /** Every access is either invisible or one step of a FIFO that holds cap - 1 elements:
      "full" and "empty" are answered exactly when it is, StoreTail appends the caller's
      element, StoreHead removes and returns the first. */
  lemma Refines(r: Ring, a: Act)
    requires Inv(r) && Enabled(r, a)
    ensures Inv(Do(r, a))
    ensures var q, q' := Queue(r), Queue(Do(r, a));
      match a
      case StoreTail => |q| < r.cap - 1 && q' == q + [r.p.e]
      case StoreHead => q != [] && r.c.out == q[0] && q' == q[1..]
      case CheckFull => q' == q && (Do(r, a).p.PIdle? <==> |q| == r.cap - 1)
      case CheckEmpty => q' == q && (Do(r, a).c.CIdle? <==> q == [])
      case _ => q' == q
  {
    Step(r, a);
    match a {
      case StoreHead => assert r.enq[|r.deq|][..r.size] == r.enq[|r.deq|];
      case CheckFull => FullTest(|r.enq|, |r.deq|, r.cap);
      case CheckEmpty => EmptyTest(|r.enq|, |r.deq|, r.cap);
      case _ =>
    }
  }

  /** No torn element: while the consumer copies, what it has is a prefix of the first element
      of the FIFO, whatever the producer does meanwhile. */
  lemma NoTornRead(r: Ring, a: Act)
    requires Inv(r) && r.c.CCopy? && Enabled(r, a) && !a.StoreHead?
    ensures var r' := Do(r, a);
      r'.c.CCopy? && |r'.deq| < |r'.enq| && r.c.out <= r'.c.out <= Queue(r')[0]
      && (Queue(r')[0] == Queue(r)[0])
  {
    Step(r, a);
    var r' := Do(r, a);
    assert Queue(r')[0] == r'.enq[|r'.deq|];
    assert Queue(r)[0] == r.enq[|r.deq|];
  }

  // ---------- what comes in ----------

  /** The elements ring_buf_enqueue was called with, in order. */
  function Offered(run: seq<Act>): seq<Element> {
    if run == [] then [] else HandedOver(run[0]) + Offered(run[1..])
  }

  function HandedOver(a: Act): seq<Element> { if a.LoadTail? then [a.e] else [] }

  lemma OfferedNext(offered: seq<Element>, run: seq<Act>)
    requires run != []
    ensures offered + Offered(run) == (offered + HandedOver(run[0])) + Offered(run[1..])
  {
  }

  /** The element the producer is working on. */
  function Entering(p: Producer): seq<Element> {
    if p.PIdle? then [] else [p.e]
  }

  /** How many calls found the FIFO full. */
  ghost function Refused(r: Ring, run: seq<Act>): nat
    requires Inv(r) && Legal(r, run)
    decreases |run|
  {
    if run == [] then 0
    else
      Step(r, run[0]);
      FoundFull(r, run[0]) + Refused(Do(r, run[0]), run[1..])
  }

  function FoundFull(r: Ring, a: Act): nat
    requires |r.deq| <= |r.enq|
  {
    if a.CheckFull? && |Queue(r)| + 1 == r.cap then 1 else 0
  }

  ghost predicate Accounted(r: Ring, offered: seq<Element>, refused: nat) {
    && IsSubseq(r.enq + Entering(r.p), offered)
    && |r.enq| + |Entering(r.p)| + refused == |offered|
  }

  lemma AccountedStep(r: Ring, a: Act, offered: seq<Element>, refused: nat)
    requires Inv(r) && Enabled(r, a) && Accounted(r, offered, refused)
    ensures Accounted(Do(r, a), offered + HandedOver(a), refused + FoundFull(r, a))
  {
    assert r.enq + [] == r.enq && offered + [] == offered;
    match a {
      case LoadTail(e) => AppendBoth(r.enq, offered, e);
      case CheckFull =>
        FullTest(|r.enq|, |r.deq|, r.cap);
        Prefix(r.enq, r.enq + [r.p.e], offered);
      case StoreTail => assert (r.enq + [r.p.e]) + [] == r.enq + [r.p.e];
      case _ =>
    }
  }

  lemma {:induction false} RunAccounted(r: Ring, run: seq<Act>, offered: seq<Element>, refused: nat)
    requires Inv(r) && Legal(r, run) && Accounted(r, offered, refused)
    ensures Accounted(Exec(r, run), offered + Offered(run), refused + Refused(r, run))
    decreases |run|
  {
    if run == [] {
      assert offered + Offered(run) == offered;
    } else {
      Step(r, run[0]);
      AccountedStep(r, run[0], offered, refused);
      RunAccounted(Do(r, run[0]), run[1..], offered + HandedOver(run[0]), refused + FoundFull(r, run[0]));
      OfferedNext(offered, run);
    }
  }

  /** The elements accepted are those the producer's calls were given, in order and unchanged, less
      those for which the FIFO was full. */
  lemma EveryCallCounts(buf: seq<byte>, size: nat, run: seq<Act>)
    requires size > 0 && Capacity(|buf|, size) >= 2 && Legal(Init(buf, size), run)
    ensures Inv(Init(buf, size))
    ensures var r := Exec(Init(buf, size), run);
      && IsSubseq(r.enq + Entering(r.p), Offered(run))
      && |r.enq| + |Entering(r.p)| + Refused(Init(buf, size), run) == |Offered(run)|
  {
    var r := Init(buf, size);
    InitInv(buf, size);
    assert [] + Offered(run) == Offered(run);
    Reflexive(r.enq + Entering(r.p));
    RunAccounted(r, run, [], 0);
  }
}
