/** The per-queue state of virtqueue_dma.c and its configuration. */
module Virtqueues {
  import opened GuestMemory
  import opened DmaPort
  import opened VirtqueueChain
  import opened VirtqueueRing

  class Virtqueue {
    var desc: nat
    var avail: nat
    var used: nat
    var size: nat
    var lastAvail: nat
    var lastUsed: nat
    var configured: bool

    /** The two positions only ever move together. */
    ghost predicate Valid()
      reads this
    {
      lastAvail == lastUsed < WRAP && size < WRAP
    }

    function Shape(): Geometry
      reads this
    {
      Geometry(desc, avail, used, size)
    }

    constructor ()
      ensures Valid() && !configured
    {
      desc, avail, used, size := 0, 0, 0, 0;
      lastAvail, lastUsed := 0, 0;
      configured := false;
    }

    /** vcs_vq_configure for one queue.  Repeating a configuration, as every doorbell does,
        leaves the positions alone; any change starts the queue over. */
    method Configure(desc: nat, avail: nat, used: nat, size: int)
      requires Valid()
      modifies this
      ensures Valid() && configured && Shape() == Geometry(desc, avail, used, size % WRAP)
      ensures lastAvail == if old(configured) && old(Shape()) == Shape() then old(lastAvail) else 0
    {
      var size16 := size % WRAP;
      if configured && this.desc == desc && this.avail == avail && this.used == used && this.size == size16 {
        return;
      }
      this.desc, this.avail, this.used, this.size := desc, avail, used, size16;
      lastAvail, lastUsed := 0, 0;
      configured := true;
    }
  }

  /** Read one descriptor. */
  method FetchDesc(vq: Virtqueue, dma: Dma, i: nat, ghost t: Table) returns (ok: bool, d: Desc)
    requires ShowsAt(t, vq.desc, dma.mem, i)
    modifies dma`faults
    ensures ok ==> d == t(i) && dma.faults == old(dma.faults)
    ensures !ok ==> dma.faults > old(dma.faults)
  {
    var bs: seq<byte>;
    ok, bs := dma.Read(vq.desc + 16 * i, 16);
    if !ok { return false, Desc(0, 0, false, false, 0); }
    d := Decode(bs);
    assert t(i) == DescAt(vq.desc, dma.mem, i);
  }

  function HeadAt(g: Geometry, m: Memory, at: nat): (h: nat)
    requires g.size > 0
    ensures h < WRAP
  {
    Word(m, AvailSlot(g, at))
  }

  /** The whole chain behind a head, as far as the device follows it. */
  function ChainAt(g: Geometry, m: Memory, head: nat): seq<Desc> {
    Chain(TableAt(g.desc, m), head, MAX_CHAIN)
  }

  /** Read the index of the available ring. */
  method FetchAvailIdx(vq: Virtqueue, dma: Dma) returns (ok: bool, idx: nat)
    modifies dma`faults
    ensures ok ==> idx == Word(dma.mem, AvailIdxAddr(vq.Shape())) && idx < WRAP && dma.faults == old(dma.faults)
    ensures !ok ==> dma.faults > old(dma.faults)
    ensures dma.lost && !dma.recovers ==> !ok
  {
    var hdr: seq<byte>;
    ok, hdr := dma.Read(vq.avail, 4);
    if !ok { return false, 0; }
    assert hdr[2..] == Load(dma.mem, AvailIdxAddr(vq.Shape()), 2);
    LeBound(hdr[2..]);
    idx := Le(hdr[2..]);
  }

  /** Read the next entry of the available ring. */
  method FetchHead(vq: Virtqueue, dma: Dma) returns (ok: bool, head: nat)
    requires vq.size > 0
    modifies dma`faults
    ensures ok ==> head == HeadAt(vq.Shape(), dma.mem, vq.lastAvail) && dma.faults == old(dma.faults)
    ensures !ok ==> dma.faults > old(dma.faults)
  {
    var entry: seq<byte>;
    ok, entry := dma.Read(vq.avail + 4 + 2 * (vq.lastAvail % vq.size), 2);
    head := if ok then Le(entry) else 0;
  }

  /** Write the next entry of the used ring. */
  method WriteUsed(vq: Virtqueue, dma: Dma, e: Elem) returns (ok: bool)
    requires vq.size > 0
    modifies dma
    ensures ok ==> dma.mem == Returned(vq.Shape(), old(dma.mem), vq.lastUsed, e) && dma.faults == old(dma.faults)
    ensures !ok ==> dma.mem == old(dma.mem) || dma.mem == Returned(vq.Shape(), old(dma.mem), vq.lastUsed, e)
    ensures !ok ==> dma.faults > old(dma.faults)
    ensures dma.lost == (old(dma.lost) || !ok)
  {
    ok := dma.Write(vq.used + 4 + 8 * (vq.lastUsed % vq.size), LeBytes(e.id, 4) + LeBytes(e.len, 4));
  }

  /** Publish the position in the used ring. */
  method WriteUsedIdx(vq: Virtqueue, dma: Dma) returns (ok: bool)
    requires vq.Valid()
    modifies dma
    ensures ok ==> dma.mem == Published(vq.Shape(), old(dma.mem), vq.lastUsed) && dma.faults == old(dma.faults)
    ensures !ok ==> dma.mem == old(dma.mem) || dma.mem == Published(vq.Shape(), old(dma.mem), vq.lastUsed)
    ensures !ok ==> dma.faults > old(dma.faults)
    ensures dma.lost == (old(dma.lost) || !ok)
  {
    ok := dma.Write(vq.used + 2, LeBytes(vq.lastUsed, 2));
  }
}
