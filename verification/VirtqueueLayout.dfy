/** The split virtqueue byte by byte, as a driver lays it out in guest memory (VIRTIO 1.1, sections
    2.6.5, 2.6.6 and 2.6.8), and what the device makes of those bytes. */
module VirtqueueLayout {
  import opened GuestMemory
  import opened VirtqueueChain
  import opened VirtqueueRing
  import opened Virtqueues
  import opened VirtqueueScatter
  import Rx = VirtqueueRx

  // ---------- descriptors ----------

  /** What a driver puts into a descriptor: a buffer, whether the chain goes on and where, whether
      the device may write, and whatever it does with the flags the device does not look at. */
  datatype Entry = Entry(addr: nat, len: nat, goesOn: bool, deviceWrites: bool, otherFlags: nat, next: nat)

  /** The flags field: NEXT is bit 0, WRITE is bit 1. */
  function Flags(e: Entry): nat {
    (if e.goesOn then 1 else 0) + (if e.deviceWrites then 2 else 0) + 4 * e.otherFlags
  }

  /** The field of `n` bytes at address `a` holds `v`, the byte at the lowest address counting least. */
  ghost predicate FieldAt(m: Memory, a: nat, n: nat, v: nat)
    decreases n, v
  {
    if n == 0 then v == 0 else At(m, a) == v % 256 && FieldAt(m, a + 1, n - 1, v / 256)
  }

  /** The sixteen bytes of a descriptor. */
  ghost predicate Stored(m: Memory, a: nat, e: Entry) {
    FieldAt(m, a, 8, e.addr) && FieldAt(m, a + 8, 4, e.len) && FieldAt(m, a + 12, 2, Flags(e)) && FieldAt(m, a + 14, 2, e.next)
  }

  lemma {:induction false} FieldIs(m: Memory, a: nat, n: nat, v: nat)
    ensures FieldAt(m, a, n, v) <==> v < Power256(n) && Load(m, a, n) == LeBytes(v, n)
    decreases n
  {
    if n > 0 {
      var bs, cs := Load(m, a, n), LeBytes(v, n);
      FieldIs(m, a + 1, n - 1, v / 256);
      assert Load(m, a + 1, n - 1) == bs[1..] && LeBytes(v / 256, n - 1) == cs[1..];
      assert bs == [bs[0]] + bs[1..] && cs == [cs[0]] + cs[1..];
    }
  }

  lemma FieldReads(m: Memory, a: nat, n: nat, v: nat)
    requires FieldAt(m, a, n, v)
    ensures Le(Load(m, a, n)) == v
  {
    FieldIs(m, a, n, v);
    LeRound(v, n);
  }

  lemma LoadPart(m: Memory, a: nat, n: nat, lo: nat, hi: nat)
    requires lo <= hi <= n
    ensures Load(m, a, n)[lo..hi] == Load(m, a + lo, hi - lo)
  {
  }

  lemma FieldsRead(m: Memory, a: nat, e: Entry)
    requires Stored(m, a, e)
    ensures Le(Load(m, a, 8)) == e.addr && Le(Load(m, a + 8, 4)) == e.len
    ensures Le(Load(m, a + 12, 2)) == Flags(e) && Le(Load(m, a + 14, 2)) == e.next
  {
    FieldReads(m, a, 8, e.addr);
    FieldReads(m, a + 8, 4, e.len);
    FieldReads(m, a + 12, 2, Flags(e));
    FieldReads(m, a + 14, 2, e.next);
  }

  lemma FieldsDecode(m: Memory, a: nat, e: Entry)
    requires Le(Load(m, a, 8)) == e.addr && Le(Load(m, a + 8, 4)) == e.len
    requires Le(Load(m, a + 12, 2)) == Flags(e) && Le(Load(m, a + 14, 2)) == e.next
    ensures Decode(Load(m, a, 16)) == DescOf(e)
  {
    var bs := Load(m, a, 16);
    LoadPart(m, a, 16, 0, 8);
    LoadPart(m, a, 16, 8, 12);
    LoadPart(m, a, 16, 12, 14);
    LoadPart(m, a, 16, 14, 16);
    assert bs[..8] == bs[0..8] && bs[14..] == bs[14..16];
    FlagBits(e);
  }

  lemma FlagBits(e: Entry)
    ensures (Flags(e) % 2 == 1 <==> e.goesOn) && (Flags(e) / 2 % 2 == 1 <==> e.deviceWrites)
  {
    var bit0, rest := if e.goesOn then 1 else 0, (if e.deviceWrites then 1 else 0) + 2 * e.otherFlags;
    assert Flags(e) == 2 * rest + bit0;
    assert rest % 2 == if e.deviceWrites then 1 else 0;
  }

  /** What the driver put there, as the device takes it in. */
  function DescOf(e: Entry): Desc {
    Desc(e.addr, e.len, e.goesOn, e.deviceWrites, e.next)
  }

  /** The device reads from the bytes of a descriptor what the driver put there: its address,
      length and successor, NEXT from bit 0 of the flags and WRITE from bit 1. */
  lemma DescriptorRead(m: Memory, table: nat, i: nat, e: Entry)
    requires Stored(m, table + 16 * i, e)
    ensures DescAt(table, m, i) == DescOf(e)
  {
    FieldsRead(m, table + 16 * i, e);
    FieldsDecode(m, table + 16 * i, e);
  }

  // ---------- chains ----------

  /** A chain as a driver lays it out: entry `k` in place `at[k]` of the table, each one naming the
      place of the next, and only the last one without NEXT. */
  ghost predicate ChainStored(m: Memory, table: nat, at: seq<nat>, es: seq<Entry>) {
    && |at| == |es| > 0
    && forall k {:trigger es[k]} {:trigger at[k]} :: 0 <= k < |es| ==>
         && Stored(m, table + 16 * at[k], es[k]) && (es[k].goesOn <==> k + 1 < |es|)
         && (k + 1 < |es| ==> es[k].next == at[k + 1])
  }

  function DescsOf(es: seq<Entry>): (ch: seq<Desc>)
    ensures |ch| == |es| && forall k :: 0 <= k < |es| ==> ch[k] == DescOf(es[k])
  {
    seq(|es|, k requires 0 <= k < |es| => DescOf(es[k]))
  }

  /** The descriptors `ds` in places `at` of a table, each one naming the next. */
  ghost predicate Linked(t: Table, at: seq<nat>, ds: seq<Desc>) {
    && |at| == |ds| > 0
    && forall k {:trigger ds[k]} {:trigger at[k]} :: 0 <= k < |ds| ==>
         t(at[k]) == ds[k] && (ds[k].hasNext <==> k + 1 < |ds|) && (k + 1 < |ds| ==> ds[k].next == at[k + 1])
  }

  lemma StoredIsLinked(m: Memory, table: nat, at: seq<nat>, es: seq<Entry>)
    requires ChainStored(m, table, at, es)
    ensures Linked(TableAt(table, m), at, DescsOf(es))
  {
    var ds := DescsOf(es);
    forall k | 0 <= k < |ds|
      ensures TableAt(table, m)(at[k]) == ds[k] && (ds[k].hasNext <==> k + 1 < |ds|) && (k + 1 < |ds| ==> ds[k].next == at[k + 1])
    {
      DescriptorRead(m, table, at[k], es[k]);
      assert ds[k] == DescOf(es[k]);
    }
  }

  /** The walk meets the linked descriptors in order, until it is cut off or meets the last one. */
  lemma {:induction false} WalkLinked(t: Table, at: seq<nat>, ds: seq<Desc>, k: nat, n: nat)
    requires Linked(t, at, ds) && k < |ds|
    ensures Chain(t, at[k], n) == ds[k..Least(k + n, |ds|)]
    decreases n
  {
    if n > 0 {
      assert t(at[k]) == ds[k];
      FirstAndRest(ds, k, Least(k + n, |ds|));
      if k + 1 < |ds| { WalkLinked(t, at, ds, k + 1, n - 1); }
    }
  }

  lemma FirstAndRest(ds: seq<Desc>, from: nat, to: nat)
    requires from < to <= |ds|
    ensures ds[from..to] == [ds[from]] + ds[from + 1..to]
  {
  }

  /** The device looks at sixteen descriptors of a chain at most. */
  function Seen(es: seq<Entry>): seq<Entry> { es[..Least(16, |es|)] }

  /** It sees their buffers in the driver's order. */
  lemma ChainRead(m: Memory, table: nat, at: seq<nat>, es: seq<Entry>)
    requires ChainStored(m, table, at, es)
    ensures Chain(TableAt(table, m), at[0], MAX_CHAIN) == DescsOf(Seen(es))
  {
    StoredIsLinked(m, table, at, es);
    WalkLinked(TableAt(table, m), at, DescsOf(es), 0, MAX_CHAIN);
    assert DescsOf(es)[..Least(16, |es|)] == DescsOf(Seen(es));
  }

  // ---------- transmit: the packet ----------

  /** How many bytes the first `k` buffers hold. */
  function Before(es: seq<Entry>, k: nat): nat
    requires k <= |es|
  {
    if k == 0 then 0 else Before(es, k - 1) + es[k - 1].len
  }

  lemma {:induction false} SpanOf(es: seq<Entry>, ch: seq<Desc>, k: nat)
    requires |ch| == |es| >= k && forall i :: 0 <= i < |es| ==> ch[i] == DescOf(es[i])
    ensures Span(ch[..k]) == Before(es, k)
  {
    if k > 0 {
      SpanOf(es, ch, k - 1);
      assert ch[..k][..k - 1] == ch[..k - 1];
    }
  }

  /** The bytes of buffer `k` come after those of the buffers before it. */
  lemma {:induction false} GatheredAt(m: Memory, ch: seq<Desc>, k: nat, j: nat)
    requires k < |ch| && j < ch[k].len
    ensures Span(ch[..k]) + j < Span(ch) && Gathered(m, ch)[Span(ch[..k]) + j] == At(m, ch[k].addr + j)
  {
    var front := ch[..|ch| - 1];
    if k < |front| {
      GatheredAt(m, front, k, j);
      assert front[..k] == ch[..k];
    } else {
      assert ch[..k] == front;
    }
  }

  /** The packet of a stored chain: what its buffers hold, one after the other, without the first
      twelve bytes and up to 9216 bytes. */
  lemma PacketOfStored(m: Memory, table: nat, at: seq<nat>, es: seq<Entry>)
    requires ChainStored(m, table, at, es)
    ensures var p, bs, all := Packet(m, Chain(TableAt(table, m), at[0], MAX_CHAIN)), Seen(es), Before(Seen(es), |Seen(es)|);
      && |p| == Least(all - Least(12, all), 9216)
      && forall k: nat, j: nat {:trigger PacketByte(m, bs, p, k, j)} :: PacketByte(m, bs, p, k, j)
  {
    var bs := Seen(es);
    var ch := DescsOf(bs);
    ChainRead(m, table, at, es);
    assert ch[..|bs|] == ch;
    SpanOf(bs, ch, |bs|);
    TrimLength(Gathered(m, ch));
    forall k: nat, j: nat ensures PacketByte(m, bs, Packet(m, ch), k, j) {
      if k < |bs| && j < bs[k].len { PacketByteOf(m, bs, k, j); }
    }
  }

  /** Byte `j` of buffer `k` is where it belongs in the packet, if it belongs there. */
  ghost predicate PacketByte(m: Memory, es: seq<Entry>, p: seq<byte>, k: nat, j: nat) {
    k < |es| && j < es[k].len && 12 <= Before(es, k) + j < 12 + 9216 ==>
      Before(es, k) + j - 12 < |p| && p[Before(es, k) + j - 12] == At(m, es[k].addr + j)
  }

  lemma PacketByteOf(m: Memory, es: seq<Entry>, k: nat, j: nat)
    requires k < |es| && j < es[k].len
    ensures PacketByte(m, es, Packet(m, DescsOf(es)), k, j)
  {
    var ch := DescsOf(es);
    SpanOf(es, ch, k);
    GatheredAt(m, ch, k, j);
    TrimAt(Gathered(m, ch), Before(es, k) + j);
  }

  lemma TrimLength(bs: seq<byte>)
    ensures |Trim(bs)| == Least(|bs| - Least(12, |bs|), 9216)
  {
  }

  lemma TrimAt(bs: seq<byte>, pos: nat)
    requires pos < |bs|
    ensures 12 <= pos < 12 + 9216 ==> pos - 12 < |Trim(bs)| && Trim(bs)[pos - 12] == bs[pos]
  {
  }

  // ---------- receive: what is written, and where ----------

  /** The device may write byte `x`: it lies in a buffer stored with the WRITE bit. */
  ghost predicate Writable(es: seq<Entry>, x: nat) {
    exists k {:trigger es[k]} :: 0 <= k < |es| && es[k].deviceWrites && es[k].addr <= x < es[k].addr + es[k].len
  }

  lemma {:induction false} InWritableMeans(ch: seq<Desc>, x: nat)
    ensures InWritable(ch, x) <==> exists k {:trigger ch[k]} :: 0 <= k < |ch| && ch[k].writable && ch[k].addr <= x < ch[k].addr + ch[k].len
  {
    if ch != [] {
      var front := ch[..|ch| - 1];
      InWritableMeans(front, x);
      assert forall k :: 0 <= k < |front| ==> front[k] == ch[k];
    }
  }

  /** Injecting a frame into a stored chain changes no byte outside the buffers stored with the
      WRITE bit, and those are what the device takes for writable. */
  lemma OnlyStoredWritable(m: Memory, table: nat, at: seq<nat>, es: seq<Entry>, m': Memory)
    requires ChainStored(m, table, at, es)
    ensures var ch := Chain(TableAt(table, m), at[0], MAX_CHAIN);
      && (forall x: nat :: InWritable(ch, x) <==> Writable(Seen(es), x))
      && (OnlyWritable(ch, m, m') <==> forall x: nat :: !Writable(Seen(es), x) ==> At(m', x) == At(m, x))
  {
    var ch := DescsOf(Seen(es));
    ChainRead(m, table, at, es);
    forall x: nat ensures InWritable(ch, x) <==> Writable(Seen(es), x) {
      WritableIs(ch, Seen(es), x);
    }
  }

  lemma WritableIs(ch: seq<Desc>, es: seq<Entry>, x: nat)
    requires ch == DescsOf(es)
    ensures InWritable(ch, x) <==> Writable(es, x)
  {
    InWritableMeans(ch, x);
    assert forall k :: 0 <= k < |es| ==> ch[k] == DescOf(es[k]);
  }

  /** How much room the first `k` buffers have for the device. */
  function RoomBefore(es: seq<Entry>, k: nat): nat
    requires k <= |es|
  {
    if k == 0 then 0 else RoomBefore(es, k - 1) + if es[k - 1].deviceWrites then es[k - 1].len else 0
  }

  lemma {:induction false} SpaceOf(es: seq<Entry>, ch: seq<Desc>, k: nat)
    requires |ch| == |es| >= k && forall i :: 0 <= i < |es| ==> ch[i] == DescOf(es[i])
    ensures Space(ch[..k]) == RoomBefore(es, k)
  {
    if k > 0 {
      SpaceOf(es, ch, k - 1);
      assert ch[..k][..k - 1] == ch[..k - 1];
    }
  }

  lemma {:induction false} LandedAt(m: Memory, ch: seq<Desc>, k: nat, j: nat)
    requires k < |ch| && ch[k].writable && j < ch[k].len
    ensures Space(ch[..k]) + j < Space(ch) && Landed(m, ch)[Space(ch[..k]) + j] == At(m, ch[k].addr + j)
  {
    var front := ch[..|ch| - 1];
    if k < |front| {
      LandedAt(m, front, k, j);
      assert front[..k] == ch[..k];
    } else {
      assert ch[..k] == front;
    }
  }

  lemma {:induction false} FirstLenIs(ch: seq<Desc>, first: nat)
    requires first < |ch| && ch[first].writable && forall i :: 0 <= i < first ==> !ch[i].writable
    ensures Started(ch) && FirstLen(ch) == ch[first].len
  {
    var front := ch[..|ch| - 1];
    if first < |front| { FirstLenIs(front, first); } else { NoneStarted(front); }
  }

  lemma {:induction false} NoneStarted(ch: seq<Desc>)
    requires forall i :: 0 <= i < |ch| ==> !ch[i].writable
    ensures !Started(ch)
  {
    if ch != [] { NoneStarted(ch[..|ch| - 1]); }
  }

  ghost predicate FirstWritable(es: seq<Entry>, first: nat) {
    first < |es| && es[first].deviceWrites && forall i :: 0 <= i < first ==> !es[i].deviceWrites
  }

  /** `len` bytes have gone into the writable buffers, of which the first has `room` bytes: byte `j`
      of buffer `k` belongs to the header while fewer than twelve bytes come before it (fewer than
      `room`, if that is less), of which only the low byte of num_buffers is not zero, and to the
      frame after that. */
  ghost predicate LiesAt(m: Memory, es: seq<Entry>, room: nat, frame: seq<byte>, len: nat, k: nat, j: nat)
    requires k < |es|
  {
    var h, pos := Least(room, 12), RoomBefore(es, k) + j;
    && len == Least(RoomBefore(es, |es|), h + |frame|)
    && (es[k].deviceWrites && j < es[k].len && pos < len ==>
        At(m, es[k].addr + j) == if pos >= h then frame[pos - h] else if pos == 10 then 1 else 0)
  }

  /** Where a frame lies that went into a stored chain. */
  lemma FrameLies(m: Memory, table: nat, at: seq<nat>, es: seq<Entry>, m': Memory, frame: seq<byte>, len: nat,
                  first: nat, k: nat, j: nat)
    requires ChainStored(m, table, at, es) && Rx.FrameAt(m', Chain(TableAt(table, m), at[0], MAX_CHAIN), frame, len)
    requires FirstWritable(Seen(es), first) && k < |Seen(es)|
    ensures LiesAt(m', Seen(es), Seen(es)[first].len, frame, len, k, j)
  {
    var bs := Seen(es);
    ChainRead(m, table, at, es);
    FirstLenIs(DescsOf(bs), first);
    LiesIn(bs, DescsOf(bs), m', frame, len, k, j);
  }

  lemma LiesIn(es: seq<Entry>, ch: seq<Desc>, m: Memory, frame: seq<byte>, len: nat, k: nat, j: nat)
    requires ch == DescsOf(es) && Rx.FrameAt(m, ch, frame, len) && k < |es|
    ensures LiesAt(m, es, FirstLen(ch), frame, len, k, j)
  {
    assert ch[..|es|] == ch;
    SpaceOf(es, ch, |es|);
    FrameLength(m, ch, frame, len);
    if es[k].deviceWrites && j < es[k].len && RoomBefore(es, k) + j < len {
      SpaceOf(es, ch, k);
      LandedAt(m, ch, k, j);
      FrameByte(m, ch, frame, len, RoomBefore(es, k) + j);
    }
  }

  lemma FrameLength(m: Memory, ch: seq<Desc>, frame: seq<byte>, len: nat)
    requires Rx.FrameAt(m, ch, frame, len)
    ensures len == Least(Space(ch), Least(FirstLen(ch), 12) + |frame|)
  {
  }

  lemma FrameByte(m: Memory, ch: seq<Desc>, frame: seq<byte>, len: nat, i: nat)
    requires Rx.FrameAt(m, ch, frame, len) && i < len
    ensures var h := Least(FirstLen(ch), 12);
      && len == Least(Space(ch), h + |frame|)
      && Landed(m, ch)[i] == if i >= h then frame[i - h] else if i == 10 then 1 else 0
  {
  }

  // ---------- the rings ----------

  /** Memory changes nowhere but in the `n` bytes from address `a` on. */
  ghost predicate Overwrites(m: Memory, m': Memory, a: nat, n: nat) {
    forall x: nat :: !(a <= x < a + n) ==> At(m', x) == At(m, x)
  }

  lemma StoreField(m: Memory, a: nat, n: nat, v: nat)
    requires v < Power256(n)
    ensures FieldAt(Store(m, a, LeBytes(v, n)), a, n, v) && Overwrites(m, Store(m, a, LeBytes(v, n)), a, n)
  {
    LoadAfterStore(m, a, LeBytes(v, n));
    FieldIs(Store(m, a, LeBytes(v, n)), a, n, v);
  }

  lemma FieldKept(m: Memory, m': Memory, a: nat, n: nat, v: nat)
    requires FieldAt(m, a, n, v) && forall x: nat :: a <= x < a + n ==> At(m', x) == At(m, x)
    ensures FieldAt(m', a, n, v)
  {
    LoadAgrees(m', m, a, n);
    FieldIs(m, a, n, v);
    FieldIs(m', a, n, v);
  }

  lemma TwoFields(m: Memory, a: nat, n: nat, v: nat, w: nat)
    requires v < Power256(n) && w < Power256(n)
    ensures var m' := Store(m, a, LeBytes(v, n) + LeBytes(w, n));
      FieldAt(m', a, n, v) && FieldAt(m', a + n, n, w) && Overwrites(m, m', a, 2 * n)
  {
    var m1 := Store(m, a, LeBytes(v, n));
    StoreField(m, a, n, v);
    StoreField(m1, a + n, n, w);
    StoreAppend(m, a, LeBytes(v, n), LeBytes(w, n));
    FieldKept(m1, Store(m, a, LeBytes(v, n) + LeBytes(w, n)), a, n, v);
  }

  /** A used element: the head in the first four bytes of its slot, the length in the next four. */
  lemma UsedElementBytes(g: Geometry, m: Memory, count: nat, e: Elem)
    requires g.size > 0 && Encodable(e)
    ensures var a, m' := g.used + 4 + 8 * (count % g.size), Returned(g, m, count, e);
      FieldAt(m', a, 4, e.id) && FieldAt(m', a + 4, 4, e.len) && Overwrites(m, m', a, 8)
  {
    TwoFields(m, g.used + 4 + 8 * (count % g.size), 4, e.id, e.len);
  }

  /** The used index: bytes 2 and 3 of the used ring. */
  lemma UsedIndexBytes(g: Geometry, m: Memory, index: nat)
    requires index < WRAP
    ensures FieldAt(Published(g, m, index), g.used + 2, 2, index) && Overwrites(m, Published(g, m, index), g.used + 2, 2)
  {
    StoreField(m, g.used + 2, 2, index);
  }

  /** What the device takes for the index and the entries of the available ring: its bytes 2 and 3,
      and two bytes for each entry from byte 4 on. */
  lemma AvailRead(g: Geometry, m: Memory, at: nat, index: nat, head: nat)
    requires g.size > 0 && FieldAt(m, g.avail + 2, 2, index) && FieldAt(m, g.avail + 4 + 2 * (at % g.size), 2, head)
    ensures Word(m, AvailIdxAddr(g)) == index && HeadAt(g, m, at) == head
  {
    FieldReads(m, g.avail + 2, 2, index);
    FieldReads(m, g.avail + 4 + 2 * (at % g.size), 2, head);
  }

  /** And a driver that makes a head available writes just that: the entry, then the index. */
  lemma PostedBytes(g: Geometry, m: Memory, count: nat, head: nat)
    requires g.size > 0 && head < WRAP
    ensures var a, m' := g.avail + 4 + 2 * (count % g.size), Posted(g, m, count, head);
      && FieldAt(m', a, 2, head) && FieldAt(m', g.avail + 2, 2, (count + 1) % 0x1_0000)
      && forall x: nat :: !(a <= x < a + 2) && !(g.avail + 2 <= x < g.avail + 4) ==> At(m', x) == At(m, x)
  {
    var a := g.avail + 4 + 2 * (count % g.size);
    var m1 := Store(m, a, LeBytes(head, 2));
    StoreField(m, a, 2, head);
    StoreField(m1, g.avail + 2, 2, (count + 1) % WRAP);
    FieldKept(m1, Posted(g, m, count, head), a, 2, head);
  }

  /** What a driver reads from the used ring. */
  lemma UsedRead(g: Geometry, m: Memory, at: nat, index: nat, e: Elem)
    requires g.size > 0 && FieldAt(m, g.used + 2, 2, index)
    requires var a := g.used + 4 + 8 * (at % g.size); FieldAt(m, a, 4, e.id) && FieldAt(m, a + 4, 4, e.len)
    ensures Word(m, UsedIdxAddr(g)) == index && ElemAt(m, UsedSlot(g, at)) == e
  {
    var a := g.used + 4 + 8 * (at % g.size);
    FieldReads(m, g.used + 2, 2, index);
    FieldReads(m, a, 4, e.id);
    FieldReads(m, a + 4, 4, e.len);
  }
}
