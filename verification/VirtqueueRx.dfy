/** Receive processing of virtqueue_dma.c: every frame from the MAC goes into the buffers of the
    next available chain, which goes back to the driver at once. */
module VirtqueueRx {
  import opened GuestMemory
  import opened DmaPort
  import opened MacPort
  import opened VirtqueueChain
  import opened VirtqueueRing
  import opened Virtqueues
  import opened VirtqueueScatter
  import Modular

  /** A receive queue over its life: besides the rings, the chain behind every head the driver
      posted and the frame behind every element the device returned. */
  datatype Rx = Rx(q: Queue, chains: seq<seq<Desc>>, got: seq<seq<byte>>)

  predicate InRings(g: Geometry, x: nat) { InTable(g, x) || InAvail(g, x) || InUsed(g, x) }

  /** Memory still holds the chains, as far as they are in flight. */
  ghost predicate Mapped(g: Geometry, m: Memory, posted: seq<nat>, chains: seq<seq<Desc>>, from: nat)
    requires |chains| == |posted|
  {
    forall i {:trigger chains[i]} :: from <= i < |chains| ==> MappedAt(g, TableAt(g.desc, m), posted[i], chains[i])
  }

  ghost predicate MappedAt(g: Geometry, t: Table, head: nat, ch: seq<Desc>) {
    Inside(t, head, MAX_CHAIN, g.size) && Chain(t, head, MAX_CHAIN) == ch
  }

  /** Writable buffers stay clear of the rings and of each other. */
  ghost predicate Sound(g: Geometry, chains: seq<seq<Desc>>, from: nat) {
    && (forall i {:trigger chains[i]} :: from <= i < |chains| ==> SoundAt(g, chains[i]))
    && (forall i, j :: from <= i < j < |chains| ==> NoOverlap(chains[i], chains[j]))
  }

  ghost predicate SoundAt(g: Geometry, ch: seq<Desc>) {
    Apart(ch) && OffRings(g, ch)
  }

  ghost predicate OffRings(g: Geometry, ch: seq<Desc>) {
    forall x: nat {:trigger InWritable(ch, x)} :: InWritable(ch, x) ==> !InRings(g, x)
  }

  ghost predicate NoOverlap(a: seq<Desc>, b: seq<Desc>) {
    forall x: nat {:trigger InWritable(a, x)} {:trigger InWritable(b, x)} :: !(InWritable(a, x) && InWritable(b, x))
  }

  /** The buffers of a returned chain hold the header and the frame, as far as there is room. */
  ghost predicate Holds(m: Memory, ch: seq<Desc>, frame: seq<byte>, len: nat) {
    var s := StreamFor(ch, frame);
    len == Least(Space(ch), |s|) && Arrived(m, ch, s)
  }

  ghost predicate Delivered(m: Memory, chains: seq<seq<Desc>>, returned: seq<Elem>, got: seq<seq<byte>>, from: nat)
    requires |got| == |returned| <= |chains|
  {
    forall i {:trigger got[i]} :: from <= i < |got| ==> Holds(m, chains[i], got[i], returned[i].len)
  }

  ghost predicate RxInv(g: Geometry, m: Memory, r: Rx) {
    && Layout(g) && RingInv(g, m, r.q)
    && |r.chains| == |r.q.posted| && |r.got| == |r.q.returned|
    && Mapped(g, m, r.q.posted, r.chains, r.q.consumed) && Sound(g, r.chains, r.q.consumed)
    && Delivered(m, r.chains, r.q.returned, r.got, r.q.consumed)
  }

  lemma MappedKept(g: Geometry, m: Memory, m': Memory, posted: seq<nat>, chains: seq<seq<Desc>>, from: nat)
    requires |chains| == |posted| && Mapped(g, m, posted, chains, from)
    requires forall x: nat :: InTable(g, x) ==> At(m', x) == At(m, x)
    ensures Mapped(g, m', posted, chains, from)
  {
    forall x: nat | g.desc <= x < g.desc + 16 * g.size ensures At(m', x) == At(m, x) {
      assert InTable(g, x);
    }
    TableKept(g.desc, m, m', g.size);
    forall i | from <= i < |chains| ensures MappedAt(g, TableAt(g.desc, m'), posted[i], chains[i]) {
      assert MappedAt(g, TableAt(g.desc, m), posted[i], chains[i]);
      ChainKept(TableAt(g.desc, m), TableAt(g.desc, m'), posted[i], MAX_CHAIN, g.size);
    }
  }

  lemma HoldsKept(m: Memory, m': Memory, ch: seq<Desc>, frame: seq<byte>, len: nat)
    requires Holds(m, ch, frame, len)
    requires forall x: nat {:trigger InWritable(ch, x)} :: InWritable(ch, x) ==> At(m', x) == At(m, x)
    ensures Holds(m', ch, frame, len)
  {
    LandedKept(m, m', ch);
  }

  /** Filling buffers of a waiting chain disturbs nothing. */
  lemma FillKeeps(g: Geometry, m: Memory, m': Memory, r: Rx)
    requires RxInv(g, m, r) && |r.q.returned| < |r.q.posted|
    requires OnlyWritable(r.chains[|r.q.returned|], m, m')
    ensures RxInv(g, m', r)
  {
    var ch := r.chains[|r.q.returned|];
    assert SoundAt(g, ch);
    forall x: nat | InRings(g, x) ensures At(m', x) == At(m, x) {
      assert !InWritable(ch, x);
    }
    OthersKeep(g, m, m', r.q);
    MappedKept(g, m, m', r.q.posted, r.chains, r.q.consumed);
    forall i | r.q.consumed <= i < |r.got| ensures Holds(m', r.chains[i], r.got[i], r.q.returned[i].len) {
      assert NoOverlap(r.chains[i], ch);
      HoldsKept(m, m', r.chains[i], r.got[i], r.q.returned[i].len);
    }
  }

  /** Writing the used ring disturbs no chain and no delivered frame. */
  lemma RingWriteKeeps(g: Geometry, m: Memory, m': Memory, r: Rx, q': Queue)
    requires RxInv(g, m, r) && (forall x: nat :: !InUsed(g, x) ==> At(m', x) == At(m, x))
    requires RingInv(g, m', q') && q'.posted == r.q.posted && q'.returned == r.q.returned && q'.consumed == r.q.consumed
    ensures RxInv(g, m', r.(q := q'))
  {
    MappedKept(g, m, m', r.q.posted, r.chains, r.q.consumed);
    forall i | r.q.consumed <= i < |r.got| ensures Holds(m', r.chains[i], r.got[i], r.q.returned[i].len) {
      assert SoundAt(g, r.chains[i]);
      HoldsKept(m, m', r.chains[i], r.got[i], r.q.returned[i].len);
    }
  }

  /** A chain that holds its frame and went back counts as delivered. */
  lemma CountDelivered(g: Geometry, m: Memory, r: Rx, e: Elem, frame: seq<byte>)
    requires RxInv(g, m, r) && |r.q.returned| < |r.q.posted| && RingInv(g, m, WithReturned(r.q, e))
    requires Holds(m, r.chains[|r.q.returned|], frame, e.len)
    ensures RxInv(g, m, Rx(WithReturned(r.q, e), r.chains, r.got + [frame]))
  {
    var got, returned := r.got + [frame], r.q.returned + [e];
    forall i | r.q.consumed <= i < |got| ensures Holds(m, r.chains[i], got[i], returned[i].len) {
      if i < |r.got| { assert got[i] == r.got[i] && returned[i] == r.q.returned[i]; }
    }
  }

  /** The invariant, taken apart only where RxInv itself is mentioned. */
  ghost predicate Kept(g: Geometry, m: Memory, r: Rx) {
    forall h {:trigger RxInv(h, m, r)} :: h == g ==> RxInv(h, m, r)
  }

  /** The device stands where the queue says. */
  ghost predicate Ready(vq: Virtqueue, dma: Dma, r: Rx)
    reads vq, dma
  {
    && vq.Valid() && vq.lastAvail == |r.q.returned| % WRAP && vq.size > 0
    && |r.got| == |r.q.returned| <= |r.q.posted| == |r.chains|
    && Kept(vq.Shape(), dma.mem, r)
  }

  function WithFrame(r: Rx, frame: seq<byte>, len: nat): Rx
    requires |r.q.returned| < |r.q.posted|
  {
    Rx(WithReturned(r.q, Elem(r.q.posted[|r.q.returned|], len)), r.chains, r.got + [frame])
  }

  /** What the next chain needs to take in a frame. */
  ghost predicate Takes(r: Rx, frame: seq<byte>)
    requires |r.q.returned| < |r.chains|
  {
    var ch := r.chains[|r.q.returned|];
    Pourable(ch, |StreamFor(ch, frame)|)
  }

  function TakenLen(r: Rx, frame: seq<byte>): nat
    requires |r.q.returned| < |r.chains|
  {
    var ch := r.chains[|r.q.returned|];
    Least(Space(ch), |StreamFor(ch, frame)|)
  }

  lemma NextChain(g: Geometry, m: Memory, r: Rx)
    requires RxInv(g, m, r) && |r.q.returned| < |r.q.posted|
    ensures var count := |r.q.returned|;
      && HeadAt(g, m, count % WRAP) == r.q.posted[count]
      && MappedAt(g, TableAt(g.desc, m), r.q.posted[count], r.chains[count])
      && OffTable(r.chains[count], g.desc, g.size) && Apart(r.chains[count])
  {
    DeviceSees(g, m, r.q);
    var ch := r.chains[|r.q.returned|];
    assert SoundAt(g, ch);
    forall x: nat | g.desc <= x < g.desc + 16 * g.size ensures !InWritable(ch, x) {
      assert InTable(g, x);
    }
  }

  /** Find the next chain and scatter the frame over it. */
  method Receive(vq: Virtqueue, dma: Dma, frame: seq<byte>, ghost r: Rx) returns (ok: bool, head: nat, written: nat)
    requires Ready(vq, dma, r) && |r.q.returned| < |r.q.posted| && frame != []
    modifies dma
    ensures Ready(vq, dma, r)
    ensures ok ==> head == r.q.posted[|r.q.returned|] && written == TakenLen(r, frame) && Takes(r, frame)
    ensures ok ==> Holds(dma.mem, r.chains[|r.q.returned|], frame, written) && dma.faults == old(dma.faults)
    ensures !ok ==> dma.faults > old(dma.faults) || !Takes(r, frame)
  {
    ghost var g, m, ch := vq.Shape(), dma.mem, r.chains[|r.q.returned|];
    assert RxInv(g, m, r);
    NextChain(g, m, r);
    written := 0;
    ok, head := FetchHead(vq, dma);
    if !ok { return; }
    ok, written := InjectOne(vq, dma, head, frame, ch, TableAt(vq.desc, m));
    FillKeeps(g, m, dma.mem, r);
    assert g == vq.Shape();
    if ok { Scattered(m, ch, StreamFor(ch, frame)); }
  }

  function Shown(r: Rx): Rx { r.(q := AllPublished(r.q)) }

  /** Writing the used entry: nothing is lost if it is not counted, and one frame more is
      delivered if it is. */
  lemma EntryKeeps(g: Geometry, m: Memory, r: Rx, frame: seq<byte>)
    requires RxInv(g, m, r) && |r.q.returned| < |r.q.posted| && |frame| <= PACKET_BUFFER
    requires Holds(m, r.chains[|r.q.returned|], frame, TakenLen(r, frame))
    ensures var count := |r.q.returned|;
      var m' := Returned(g, m, count % WRAP, Elem(r.q.posted[count], TakenLen(r, frame)));
      RxInv(g, m', r) && RxInv(g, m', WithFrame(r, frame, TakenLen(r, frame)))
  {
    var count := |r.q.returned|;
    var e := Elem(r.q.posted[count], TakenLen(r, frame));
    var m' := Returned(g, m, count, e);
    NextChain(g, m, r);
    SlotOfIndex(g, count);
    ReturnKeeps(g, m, r.q, e);
    EntryFrame(g, m, count, e);
    RingWriteKeeps(g, m, m', r, r.q);
    assert SoundAt(g, r.chains[count]);
    HoldsKept(m, m', r.chains[count], frame, e.len);
    CountDelivered(g, m', r, e, frame);
  }

  lemma EntryKept(g: Geometry, m: Memory, r: Rx, frame: seq<byte>, at: nat, e: Elem)
    requires Kept(g, m, r) && |r.q.returned| < |r.q.posted| == |r.chains| && |frame| <= PACKET_BUFFER
    requires Holds(m, r.chains[|r.q.returned|], frame, TakenLen(r, frame)) && g.size > 0
    requires at == |r.q.returned| % WRAP && e == Elem(r.q.posted[|r.q.returned|], TakenLen(r, frame))
    ensures var m' := Returned(g, m, at, e); Kept(g, m', r) && Kept(g, m', WithFrame(r, frame, e.len))
  {
    assert RxInv(g, m, r);
    EntryKeeps(g, m, r, frame);
  }

  lemma ShowKept(g: Geometry, m: Memory, r: Rx)
    requires Kept(g, m, r)
    ensures Kept(g, Published(g, m, |r.q.returned| % WRAP), Shown(r))
  {
    assert RxInv(g, m, r);
    ShowKeeps(g, m, r);
  }

  lemma ShowKeeps(g: Geometry, m: Memory, r: Rx)
    requires RxInv(g, m, r)
    ensures RxInv(g, Published(g, m, |r.q.returned| % WRAP), Shown(r))
  {
    PublishKeeps(g, m, r.q);
    RingWriteKeeps(g, m, Published(g, m, |r.q.returned| % WRAP), r, AllPublished(r.q));
  }

  /** Write the used entry and step both positions. */
  method GiveBack(vq: Virtqueue, dma: Dma, head: nat, written: nat, ghost frame: seq<byte>, ghost r: Rx) returns (ok: bool)
    requires Ready(vq, dma, r) && |r.q.returned| < |r.q.posted| && |frame| <= PACKET_BUFFER
    requires head == r.q.posted[|r.q.returned|] && written == TakenLen(r, frame)
    requires Holds(dma.mem, r.chains[|r.q.returned|], frame, written)
    modifies vq`lastAvail, vq`lastUsed, dma
    ensures ok ==> Ready(vq, dma, WithFrame(r, frame, written)) && dma.faults == old(dma.faults)
    ensures !ok ==> Ready(vq, dma, r) && dma.faults > old(dma.faults)
  {
    EntryKept(vq.Shape(), dma.mem, r, frame, vq.lastUsed, Elem(head, written));
    ok := WriteUsed(vq, dma, Elem(head, written));
    if !ok { return; }
    Modular.Successor(|r.q.returned|, WRAP);
    vq.lastAvail := (vq.lastAvail + 1) % WRAP;
    vq.lastUsed := (vq.lastUsed + 1) % WRAP;
  }

  /** Publish what has been returned; a publication reported as failed may have happened. */
  method Show(vq: Virtqueue, dma: Dma, ghost r: Rx) returns (ok: bool, ghost r': Rx)
    requires Ready(vq, dma, r)
    modifies dma
    ensures Ready(vq, dma, r')
    ensures if ok then r' == Shown(r) && dma.faults == old(dma.faults)
            else dma.faults > old(dma.faults) && (r' == r || r' == Shown(r))
  {
    ShowKept(vq.Shape(), dma.mem, r);
    ghost var m := dma.mem;
    ok := WriteUsedIdx(vq, dma);
    r' := if ok || dma.mem != m then Shown(r) else r;
  }

  function AfterFrame(r: Rx, frame: seq<byte>): Rx
    requires |r.q.returned| < |r.q.posted| && |r.chains| == |r.q.posted|
  {
    WithFrame(r, frame, TakenLen(r, frame))
  }

  /** The next frame can be delivered. */
  ghost predicate CanTake(r: Rx, pending: seq<seq<byte>>) {
    && pending != [] && pending[0] != [] && |r.q.returned| < |r.q.posted| == |r.chains|
    && Takes(r, pending[0])
  }

  predicate BufferWaiting(r: Rx) { |r.q.returned| < |r.q.posted| == |r.chains| }

  /** How a turn that stopped the loop left the queue and the frames.  Without a failed DMA call,
      a frame is taken and not delivered only if a buffer was waiting for it and the frame is
      empty or does not fit the chain. */
  ghost predicate StoppedAt(r: Rx, pending: seq<seq<byte>>, r': Rx, pending': seq<seq<byte>>, faulty: bool) {
    || (r' == r && pending' == pending && (faulty || !BufferWaiting(r) || pending == []))
    || (BufferWaiting(r) && pending != [] && pending' == pending[1..] && r' == r && (faulty || !CanTake(r, pending)))
    || (BufferWaiting(r) && pending != [] && pending' == pending[1..] && faulty
        && (r' == AfterFrame(r, pending[0]) || r' == Shown(AfterFrame(r, pending[0]))))
  }

  /** Deliver one frame that has been taken from the MAC. */
  method Deliver(vq: Virtqueue, dma: Dma, frame: seq<byte>, ghost r: Rx) returns (ok: bool, ghost r': Rx)
    requires Ready(vq, dma, r) && |r.q.returned| < |r.q.posted| && 0 < |frame| <= PACKET_BUFFER
    modifies vq`lastAvail, vq`lastUsed, dma
    ensures Ready(vq, dma, r')
    ensures ok ==> r' == Shown(AfterFrame(r, frame)) && Takes(r, frame) && dma.faults == old(dma.faults)
    ensures !ok ==> r' == r || (dma.faults > old(dma.faults) && (r' == AfterFrame(r, frame) || r' == Shown(AfterFrame(r, frame))))
    ensures !ok ==> dma.faults > old(dma.faults) || !Takes(r, frame)
  {
    r' := r;
    var head, written;
    ok, head, written := Receive(vq, dma, frame, r);
    if !ok { return; }
    ok := GiveBack(vq, dma, head, written, frame, r);
    if !ok { return; }
    ok, r' := Show(vq, dma, AfterFrame(r, frame));
  }

  /** One turn of the loop of vcs_vq_process_rx.  A frame is only taken from the MAC when a buffer
      is waiting. */
  method RxTurn(vq: Virtqueue, dma: Dma, mac: Mac, ghost r: Rx) returns (ok: bool, ghost r': Rx)
    requires Ready(vq, dma, r) && forall f :: f in mac.pending ==> |f| <= PACKET_BUFFER
    modifies vq`lastAvail, vq`lastUsed, dma, mac`pending
    ensures Ready(vq, dma, r')
    ensures ok ==> CanTake(r, old(mac.pending)) && dma.faults == old(dma.faults)
    ensures ok ==> r' == Shown(AfterFrame(r, old(mac.pending)[0])) && mac.pending == old(mac.pending)[1..]
    ensures !ok ==> StoppedAt(r, old(mac.pending), r', mac.pending, dma.faults > old(dma.faults))
    ensures !ok ==> dma.faults > old(dma.faults) || !CanTake(r, old(mac.pending))
  {
    r' := r;
    assert RxInv(vq.Shape(), dma.mem, r);
    DeviceSees(vq.Shape(), dma.mem, r.q);
    var availIdx;
    ok, availIdx := FetchAvailIdx(vq, dma);
    if !ok { return; }
    if vq.lastAvail == availIdx { return false, r; }
    var len, frame := mac.RecvRaw(PACKET_BUFFER);
    if len == 0 { return false, r; }
    assert frame == old(mac.pending)[0];
    ok, r' := Deliver(vq, dma, frame, r);
  }

  /** The queue after the first `k` frames were delivered and published one by one. */
  function Deliveries(r: Rx, pending: seq<seq<byte>>, k: nat): (r': Rx)
    requires k <= |pending| && |r.q.returned| + k <= |r.q.posted| == |r.chains|
    ensures r'.got == r.got + pending[..k] && r'.chains == r.chains && r'.q.posted == r.q.posted && r'.q.consumed == r.q.consumed
    ensures |r'.q.returned| == |r.q.returned| + k && r.q.returned <= r'.q.returned
    ensures k > 0 ==> r'.q.published == |r'.q.returned|
  {
    if k == 0 then r else Shown(AfterFrame(Deliveries(r, pending, k - 1), pending[k - 1]))
  }

  /** Each of the first `k` frames could be delivered in turn. */
  ghost predicate AllTaken(r: Rx, pending: seq<seq<byte>>, k: nat)
    requires k <= |pending| && |r.q.returned| + k <= |r.q.posted| == |r.chains|
  {
    k == 0 || (AllTaken(r, pending, k - 1) && CanTake(Deliveries(r, pending, k - 1), pending[k - 1..]))
  }

  /** What one call of vcs_vq_process_rx does: it delivers frames in order until none is left, no
      buffer is waiting, a frame cannot be delivered, or a DMA call fails.  At most one frame is
      taken and not counted, and never one that no buffer was waiting for. */
  ghost predicate RxCalled(r: Rx, pending: seq<seq<byte>>, injected: nat, r': Rx, pending': seq<seq<byte>>, faulty: bool) {
    && injected <= |pending| && |r.q.returned| + injected <= |r.q.posted| == |r.chains|
    && AllTaken(r, pending, injected)
    && var last := Deliveries(r, pending, injected);
      StoppedAt(last, pending[injected..], r', pending', faulty) && (faulty || !CanTake(last, pending[injected..]))
  }

  lemma CallEnds(r: Rx, pending: seq<seq<byte>>, injected: nat, last: Rx, r': Rx, pending': seq<seq<byte>>, faulty: bool)
    requires injected <= |pending| && |r.q.returned| + injected <= |r.q.posted| == |r.chains|
    requires AllTaken(r, pending, injected) && last == Deliveries(r, pending, injected)
    requires StoppedAt(last, pending[injected..], r', pending', faulty) && (faulty || !CanTake(last, pending[injected..]))
    ensures RxCalled(r, pending, injected, r', pending', faulty)
  {
  }

  lemma OneMoreTaken(r: Rx, pending: seq<seq<byte>>, injected: nat, last: Rx)
    requires injected <= |pending| && |r.q.returned| + injected <= |r.q.posted| == |r.chains|
    requires AllTaken(r, pending, injected) && last == Deliveries(r, pending, injected) && CanTake(last, pending[injected..])
    ensures injected < |pending| && |r.q.returned| + injected < |r.q.posted|
    ensures AllTaken(r, pending, injected + 1) && pending[injected..][1..] == pending[injected + 1..]
    ensures Deliveries(r, pending, injected + 1) == Shown(AfterFrame(last, pending[injected..][0]))
  {
  }

  /** vcs_vq_process_rx */
  method ProcessRx(vq: Virtqueue, dma: Dma, mac: Mac, ghost r: Rx) returns (injected: nat, ghost r': Rx)
    requires Ready(vq, dma, r) && forall f :: f in mac.pending ==> |f| <= PACKET_BUFFER
    modifies vq`lastAvail, vq`lastUsed, dma, mac`pending
    ensures Ready(vq, dma, r')
    ensures !vq.configured ==> injected == 0 && r' == r && dma.mem == old(dma.mem) && mac.pending == old(mac.pending)
    ensures vq.configured ==> RxCalled(r, old(mac.pending), injected, r', mac.pending, dma.faults > old(dma.faults))
  {
    injected, r' := 0, r;
    if vq.configured {
      Counts(vq, dma, r);
      injected, r' := DeliverAll(vq, dma, mac, r);
    }
  }

  lemma Counts(vq: Virtqueue, dma: Dma, r: Rx)
    requires Ready(vq, dma, r)
    ensures |r.q.returned| <= |r.q.posted| == |r.chains|
  {
    assert RxInv(vq.Shape(), dma.mem, r);
  }

  /** Its loop. */
  method DeliverAll(vq: Virtqueue, dma: Dma, mac: Mac, ghost r: Rx) returns (injected: nat, ghost r': Rx)
    requires Ready(vq, dma, r) && forall f :: f in mac.pending ==> |f| <= PACKET_BUFFER
    requires |r.q.returned| <= |r.q.posted| == |r.chains|
    modifies vq`lastAvail, vq`lastUsed, dma, mac`pending
    ensures Ready(vq, dma, r') && RxCalled(r, old(mac.pending), injected, r', mac.pending, dma.faults > old(dma.faults))
  {
    injected, r' := 0, r;
    ghost var pending := mac.pending;
    while true
      invariant Ready(vq, dma, r') && dma.faults == old(dma.faults)
      invariant injected <= |pending| && mac.pending == pending[injected..]
      invariant |r.q.returned| + injected <= |r.q.posted| == |r.chains| && AllTaken(r, pending, injected)
      invariant r' == Deliveries(r, pending, injected)
      decreases |pending| - injected
    {
      ghost var last := r';
      var ok;
      ok, r' := RxTurn(vq, dma, mac, last);
      if !ok {
        CallEnds(r, pending, injected, last, r', mac.pending, dma.faults > old(dma.faults));
        return;
      }
      OneMoreTaken(r, pending, injected, last);
      injected := injected + 1;
    }
  }

  /** Enough for a chain to take any frame: no empty writable buffer. */
  predicate NoEmptyBuffer(ch: seq<Desc>) {
    ch == [] || (NoEmptyBuffer(ch[..|ch| - 1]) && (ch[|ch| - 1].writable ==> ch[|ch| - 1].len > 0))
  }

  lemma {:induction false} NoEmptyBufferPours(ch: seq<Desc>, n: nat)
    requires NoEmptyBuffer(ch)
    ensures Pourable(ch, n)
  {
    if ch != [] { NoEmptyBufferPours(ch[..|ch| - 1], n); }
  }

  /** The first `len` bytes the buffers of a chain hold are a virtio-net header of twelve bytes, cut
      to the first writable buffer if that is shorter, and then the frame.  Of the header all is
      zero but num_buffers, the field at bytes 10 and 11, which is one: the frame is in one chain. */
  ghost predicate FrameAt(m: Memory, ch: seq<Desc>, frame: seq<byte>, len: nat) {
    var h, bs := Least(FirstLen(ch), 12), Landed(m, ch);
    && len == Least(Space(ch), h + |frame|) <= |bs|
    && forall i {:trigger bs[i]} :: 0 <= i < len ==> bs[i] == if i >= h then frame[i - h] else if i == 10 then 1 else 0
  }

  /** What a returned chain holds: the header, and then the longest prefix of the frame that fits. */
  lemma FrameInBuffers(m: Memory, ch: seq<Desc>, frame: seq<byte>, len: nat)
    requires Holds(m, ch, frame, len)
    ensures FrameAt(m, ch, frame, len)
  {
    var bs, s := Landed(m, ch), StreamFor(ch, frame);
    forall i | 0 <= i < len ensures bs[i] == s[i] {
      assert bs[..len][i] == s[..len][i];
    }
  }

  /** In particular, if the first writable buffer has room for the header: ten zero bytes,
      num_buffers = 1, and from byte 12 on the frame. */
  lemma HeaderThenFrame(m: Memory, ch: seq<Desc>, frame: seq<byte>, len: nat)
    requires FrameAt(m, ch, frame, len) && FirstLen(ch) >= 12 && len >= 12
    ensures var bs := Landed(m, ch);
      && |bs| >= len && (forall i :: 0 <= i < 10 ==> bs[i] == 0) && Le(bs[10..12]) == 1
      && len - 12 <= |frame| && bs[12..len] == frame[..len - 12]
  {
    var bs := Landed(m, ch);
    assert bs[10..12] == [1, 0];
    LittleEndian2(1, 0);
  }

  /** Without a failed DMA call, and with frames and buffers that are not empty, a call delivers
      as many frames as there are buffers, or all of them, and takes no others. */
  lemma AllDelivered(r: Rx, pending: seq<seq<byte>>, injected: nat, r': Rx, pending': seq<seq<byte>>)
    requires RxCalled(r, pending, injected, r', pending', false)
    requires forall f :: f in pending ==> f != []
    requires forall ch :: ch in r.chains[|r.q.returned|..] ==> NoEmptyBuffer(ch)
    ensures injected == Least(|pending|, |r.q.posted| - |r.q.returned|)
    ensures pending' == pending[injected..] && r' == Deliveries(r, pending, injected)
  {
    var last := Deliveries(r, pending, injected);
    if injected < |pending| && |last.q.returned| < |last.q.posted| {
      var ch, frame := r.chains[|last.q.returned|], pending[injected];
      assert ch == r.chains[|r.q.returned|..][injected] && frame in pending;
      NoEmptyBufferPours(ch, |StreamFor(ch, frame)|);
    }
  }

  /** What a driver finds that sees a new used element: the head it posted longest ago, and in
      the buffers of that chain as many bytes of header and frame as the element says. */
  lemma DriverFinds(g: Geometry, m: Memory, r: Rx)
    requires RxInv(g, m, r) && r.q.consumed < r.q.published
    ensures var i := r.q.consumed;
      && ElemAt(m, UsedSlot(g, i)) == r.q.returned[i] && r.q.returned[i].id == r.q.posted[i]
      && Chain(TableAt(g.desc, m), r.q.posted[i], MAX_CHAIN) == r.chains[i]
      && Holds(m, r.chains[i], r.got[i], r.q.returned[i].len)
  {
    DriverSees(g, m, r.q);
    assert MappedAt(g, TableAt(g.desc, m), r.q.posted[r.q.consumed], r.chains[r.q.consumed]);
    assert r.got[r.q.consumed] == r.got[r.q.consumed];
  }

  /** Consuming it keeps the queue in order. */
  lemma ConsumeKeeps(g: Geometry, m: Memory, r: Rx)
    requires RxInv(g, m, r) && r.q.consumed < r.q.published
    ensures RxInv(g, m, r.(q := r.q.(consumed := r.q.consumed + 1)))
  {
  }

  /** A driver that prepares a chain of writable buffers away from everything in flight, and then
      makes it available, keeps the queue in order: `m'` is memory with the chain prepared, the
      rings and all buffers in flight still as they were. */
  lemma DriverPosts(g: Geometry, m: Memory, m': Memory, r: Rx, head: nat, ch: seq<Desc>)
    requires RxInv(g, m, r) && head < g.size && |r.q.posted| < r.q.consumed + g.size
    requires forall x: nat :: InAvail(g, x) || InUsed(g, x) ==> At(m', x) == At(m, x)
    requires Mapped(g, m', r.q.posted, r.chains, r.q.consumed)
    requires Delivered(m', r.chains, r.q.returned, r.got, r.q.consumed)
    requires MappedAt(g, TableAt(g.desc, m'), head, ch) && SoundAt(g, ch)
    requires forall i {:trigger r.chains[i]} :: r.q.consumed <= i < |r.chains| ==> NoOverlap(r.chains[i], ch)
    ensures RxInv(g, Posted(g, m', |r.q.posted|, head), Rx(r.q.(posted := r.q.posted + [head]), r.chains + [ch], r.got))
  {
    var count := |r.q.posted|;
    var m'' := Posted(g, m', count, head);
    OthersKeep(g, m, m', r.q);
    PostKeeps(g, m', r.q, head);
    forall x: nat | !InAvail(g, x) ensures At(m'', x) == At(m', x) { }
    PreparedKept(g, m', m'', r, head, ch);
  }

  lemma PreparedKept(g: Geometry, m: Memory, m': Memory, r: Rx, head: nat, ch: seq<Desc>)
    requires Layout(g) && |r.chains| == |r.q.posted| && |r.got| == |r.q.returned| <= |r.chains| && r.q.consumed <= |r.got|
    requires forall x: nat :: !InAvail(g, x) ==> At(m', x) == At(m, x)
    requires Mapped(g, m, r.q.posted, r.chains, r.q.consumed) && Sound(g, r.chains, r.q.consumed)
    requires Delivered(m, r.chains, r.q.returned, r.got, r.q.consumed)
    requires MappedAt(g, TableAt(g.desc, m), head, ch) && SoundAt(g, ch)
    requires forall i {:trigger r.chains[i]} :: r.q.consumed <= i < |r.chains| ==> NoOverlap(r.chains[i], ch)
    ensures var posted, chains := r.q.posted + [head], r.chains + [ch];
      && Mapped(g, m', posted, chains, r.q.consumed) && Sound(g, chains, r.q.consumed)
      && Delivered(m', chains, r.q.returned, r.got, r.q.consumed)
  {
    var posted, chains := r.q.posted + [head], r.chains + [ch];
    forall i | r.q.consumed <= i < |chains| ensures MappedAt(g, TableAt(g.desc, m), posted[i], chains[i]) && SoundAt(g, chains[i]) {
      if i < |r.chains| { assert chains[i] == r.chains[i] && posted[i] == r.q.posted[i]; }
    }
    MappedKept(g, m, m', posted, chains, r.q.consumed);
    forall i, j | r.q.consumed <= i < j < |chains| ensures NoOverlap(chains[i], chains[j]) {
      assert chains[i] == r.chains[i];
      if j < |r.chains| { assert chains[j] == r.chains[j]; }
    }
    forall i | r.q.consumed <= i < |r.got| ensures Holds(m', chains[i], r.got[i], r.q.returned[i].len) {
      assert chains[i] == r.chains[i] && SoundAt(g, r.chains[i]) && Holds(m, r.chains[i], r.got[i], r.q.returned[i].len);
      HoldsKept(m, m', r.chains[i], r.got[i], r.q.returned[i].len);
    }
  }
}
