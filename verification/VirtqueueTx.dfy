/** Transmit processing of virtqueue_dma.c: gather the packet of every available chain, hand it
    to the Ethernet MAC, return the chain through the used ring, publish once at the end. */
module VirtqueueTx {
  import opened GuestMemory
  import opened DmaPort
  import opened MacPort
  import opened VirtqueueChain
  import opened VirtqueueRing
  import opened Virtqueues

  /** What the guest and the wire see of the transmit queue: guest memory, the 16-bit position
      in both rings, the packets handed to the MAC, and the longest read DMA can do. */
  datatype Tx = Tx(mem: Memory, at: nat, offered: seq<seq<byte>>, limit: nat)

  function Offer(offered: seq<seq<byte>>, p: seq<byte>): seq<seq<byte>> {
    if p == [] then offered else offered + [p]
  }

  /** Serving the next available head. */
  function Serve(g: Geometry, s: Tx): Tx
    requires g.size > 0
  {
    var head := HeadAt(g, s.mem, s.at);
    Tx(Returned(g, s.mem, s.at, Elem(head, 0)), (s.at + 1) % WRAP,
       Offer(s.offered, Packet(s.mem, ChainAt(g, s.mem, head))), s.limit)
  }

  predicate Servable(g: Geometry, s: Tx)
    requires g.size > 0
  {
    Accepted(ChainAt(g, s.mem, HeadAt(g, s.mem, s.at)), s.limit)
  }

  /** Serving a head was given up: before its packet went out, or because the write of its used
      entry was reported as failed; then the packet is out, and the entry may be written. */
  ghost predicate GivenUp(s: Tx, full: Tx, s': Tx, entryFailed: bool) {
    if entryFailed then s' == s.(offered := full.offered) || s' == full.(at := s.at) else s' == s
  }

  /** The packet buffer has room, and one DMA can fill it. */
  predicate CanRead(d: Desc, hdrLeft: nat, pktLen: nat, limit: nat)
    requires pktLen <= PACKET_BUFFER
  {
    d.len > hdrLeft ==> pktLen < PACKET_BUFFER && Room(pktLen, d.len - hdrLeft) <= limit
  }

  /** One descriptor of the walk: skip what is left of the header, read the rest as far as the
      packet buffer has room. */
  method GatherOne(dma: Dma, d: Desc, hdrLeft: nat, pkt: array<byte>, pktLen: nat)
    returns (ok: bool, hdrLeft': nat, pktLen': nat)
    requires pkt.Length == PACKET_BUFFER && pktLen <= PACKET_BUFFER
    modifies dma`faults, pkt
    ensures ok ==> dma.faults == old(dma.faults) && pktLen' <= PACKET_BUFFER
    ensures ok ==> hdrLeft' == if d.len <= hdrLeft then hdrLeft - d.len else 0
    ensures ok ==> pkt[..pktLen'] == if d.len <= hdrLeft then old(pkt[..pktLen])
                                     else old(pkt[..pktLen]) + Load(dma.mem, d.addr + hdrLeft, Room(pktLen, d.len - hdrLeft))
    ensures !ok ==> dma.faults > old(dma.faults) || !CanRead(d, hdrLeft, pktLen, dma.limit)
    ensures ok ==> CanRead(d, hdrLeft, pktLen, dma.limit)
  {
    if d.len <= hdrLeft {
      return true, hdrLeft - d.len, pktLen;
    }
    var toRead := Room(pktLen, d.len - hdrLeft);
    ok := dma.ReadInto(d.addr + hdrLeft, pkt, pktLen, toRead);
    hdrLeft', pktLen' := 0, pktLen + toRead;
    assert pkt[..pktLen'] == pkt[..pktLen] + pkt[pktLen..pktLen'];
    assert pkt[..pktLen] == old(pkt[..pktLen]);
  }

  /** `pkt` holds the packet of the descriptors walked so far. */
  ghost predicate Holds(m: Memory, limit: nat, ch: seq<Desc>, pkt: seq<byte>, hdrLeft: nat) {
    Accepted(ch, limit) && pkt == Packet(m, ch) && hdrLeft == HeaderLeft(Span(ch))
  }

  lemma AcceptedNext(m: Memory, limit: nat, ch: seq<Desc>, d: Desc, pkt: seq<byte>, hdrLeft: nat)
    requires Holds(m, limit, ch, pkt, hdrLeft)
    ensures |pkt| <= PACKET_BUFFER
    ensures CanRead(d, hdrLeft, |pkt|, limit) <==> Accepted(ch + [d], limit)
  {
    AcceptedGrows(ch, d, limit);
    ReadsItsPart(m, ch, d);
  }

  lemma HoldsNext(m: Memory, limit: nat, ch: seq<Desc>, d: Desc, pkt: seq<byte>, hdrLeft: nat)
    requires Holds(m, limit, ch, pkt, hdrLeft)
    ensures |pkt| <= PACKET_BUFFER
    ensures CanRead(d, hdrLeft, |pkt|, limit) <==> Accepted(ch + [d], limit)
    ensures Accepted(ch + [d], limit) ==>
      if d.len <= hdrLeft then Holds(m, limit, ch + [d], pkt, hdrLeft - d.len)
      else Holds(m, limit, ch + [d], pkt + Load(m, d.addr + hdrLeft, Room(|pkt|, d.len - hdrLeft)), 0)
  {
    AcceptedNext(m, limit, ch, d, pkt, hdrLeft);
    if Accepted(ch + [d], limit) {
      if d.len <= hdrLeft { HoldsSkip(m, limit, ch, d, pkt, hdrLeft); } else { HoldsRead(m, limit, ch, d, pkt, hdrLeft); }
    }
  }

  lemma HoldsSkip(m: Memory, limit: nat, ch: seq<Desc>, d: Desc, pkt: seq<byte>, hdrLeft: nat)
    requires Holds(m, limit, ch, pkt, hdrLeft) && Accepted(ch + [d], limit) && d.len <= hdrLeft
    ensures Holds(m, limit, ch + [d], pkt, hdrLeft - d.len)
  {
    PacketGrows(m, ch, d);
    HeaderShrinks(Span(ch), d.len);
  }

  lemma HoldsRead(m: Memory, limit: nat, ch: seq<Desc>, d: Desc, pkt: seq<byte>, hdrLeft: nat)
    requires Holds(m, limit, ch, pkt, hdrLeft) && Accepted(ch + [d], limit) && d.len > hdrLeft && |pkt| <= PACKET_BUFFER
    ensures Holds(m, limit, ch + [d], pkt + Load(m, d.addr + hdrLeft, Room(|pkt|, d.len - hdrLeft)), 0)
  {
    var more := ReadMore(m, ch, d, pkt, hdrLeft);
    HeaderShrinks(Span(ch), d.len);
  }

  lemma ReadMore(m: Memory, ch: seq<Desc>, d: Desc, pkt: seq<byte>, hdrLeft: nat) returns (more: seq<byte>)
    requires pkt == Packet(m, ch) && hdrLeft == HeaderLeft(Span(ch)) && d.len > hdrLeft && |pkt| <= PACKET_BUFFER
    ensures more == Load(m, d.addr + hdrLeft, Room(|pkt|, d.len - hdrLeft))
    ensures Packet(m, ch + [d]) == pkt + more && Span(ch + [d]) == Span(ch) + d.len
  {
    PacketGrows(m, ch, d);
    more := Load(m, d.addr + hdrLeft, Room(|pkt|, d.len - hdrLeft));
  }

  lemma HeaderShrinks(before: nat, len: nat)
    ensures HeaderLeft(before + len) == if len <= HeaderLeft(before) then HeaderLeft(before) - len else 0
  {
  }

  /** `held` is Holds, taken apart only where Holds itself is mentioned. */
  ghost predicate Stands(m: Memory, limit: nat, held: (seq<Desc>, seq<byte>, nat) -> bool) {
    forall ch, p, h: nat {:trigger Holds(m, limit, ch, p, h)} :: held(ch, p, h) == Holds(m, limit, ch, p, h)
  }

  /** `fits` tells whether the whole chain is accepted. */
  ghost predicate Tells(fits: bool, limit: nat, whole: seq<Desc>) {
    forall c {:trigger Accepted(c, limit)} :: c == whole ==> fits == Accepted(c, limit)
  }

  /** Fetch one descriptor and its share of the packet. */
  method GatherNext(vq: Virtqueue, dma: Dma, cur: nat, hdrLeft: nat, pkt: array<byte>, pktLen: nat, ghost t: Table,
                    ghost ch: seq<Desc>, ghost whole: seq<Desc>, ghost left: nat,
                    ghost held: (seq<Desc>, seq<byte>, nat) -> bool, ghost walked: (seq<Desc>, bool, nat, nat) -> bool, ghost fits: bool)
    returns (ok: bool, d: Desc, hdrLeft': nat, pktLen': nat)
    requires pkt.Length == PACKET_BUFFER && pktLen <= PACKET_BUFFER
    requires Shows(t, vq.desc, dma.mem) && Stands(dma.mem, dma.limit, held) && held(ch, pkt[..pktLen], hdrLeft)
    requires left > 0 && Follows(t, whole, walked) && walked(ch, true, cur, left) && Tells(fits, dma.limit, whole)
    modifies dma`faults, pkt
    ensures ok ==> walked(ch + [d], d.hasNext, d.next, left - 1) && dma.faults == old(dma.faults)
    ensures ok ==> pktLen' <= PACKET_BUFFER && held(ch + [d], pkt[..pktLen'], hdrLeft')
    ensures !ok ==> dma.faults > old(dma.faults) || !fits
  {
    hdrLeft', pktLen' := 0, 0;
    assert Holds(dma.mem, dma.limit, ch, pkt[..pktLen], hdrLeft);
    WalkNext(t, whole, ch, cur, left);
    ok, d := FetchDesc(vq, dma, cur, t);
    if !ok { return; }
    HoldsNext(dma.mem, dma.limit, ch, d, pkt[..pktLen], hdrLeft);
    ok, hdrLeft', pktLen' := GatherOne(dma, d, hdrLeft, pkt, pktLen);
    if ok {
      assert Holds(dma.mem, dma.limit, ch + [d], pkt[..pktLen'], hdrLeft') && Walked(t, whole, ch + [d], d.hasNext, d.next, left - 1);
    } else if Accepted(whole, dma.limit) {
      AcceptedPrefix(ch + [d], whole, dma.limit);
    }
  }

  /** The descriptor walk of a transmit chain, cut off after `limit` descriptors. */
  method GatherChain(vq: Virtqueue, dma: Dma, head: nat, pkt: array<byte>, limit: nat, ghost t: Table, ghost whole: seq<Desc>,
                     ghost held: (seq<Desc>, seq<byte>, nat) -> bool, ghost walked: (seq<Desc>, bool, nat, nat) -> bool, ghost fits: bool)
    returns (ok: bool, hdrLeft: nat, pktLen: nat)
    requires pkt.Length == PACKET_BUFFER && Shows(t, vq.desc, dma.mem) && Follows(t, whole, walked) && walked([], true, head, limit)
    requires Stands(dma.mem, dma.limit, held) && held([], [], NET_HEADER) && Tells(fits, dma.limit, whole)
    modifies dma`faults, pkt
    ensures ok ==> dma.faults == old(dma.faults) && pktLen <= PACKET_BUFFER && held(whole, pkt[..pktLen], hdrLeft)
    ensures !ok ==> dma.faults > old(dma.faults) || !fits
  {
    ghost var ch := [];
    pktLen, hdrLeft := 0, NET_HEADER;
    var chainN, cur, hasNext := 0, head, true;
    assert pkt[..pktLen] == [];
    while hasNext && chainN < limit
      invariant chainN <= limit && pktLen <= PACKET_BUFFER
      invariant walked(ch, hasNext, cur, limit - chainN)
      invariant held(ch, pkt[..pktLen], hdrLeft) && dma.faults == old(dma.faults)
      decreases limit - chainN
    {
      var d: Desc;
      ok, d, hdrLeft, pktLen := GatherNext(vq, dma, cur, hdrLeft, pkt, pktLen, t, ch, whole, limit - chainN, held, walked, fits);
      if !ok { return false, 0, 0; }
      ch := ch + [d];
      hasNext, cur, chainN := d.hasNext, d.next, chainN + 1;
    }
    WalkOver(t, whole, walked, ch, hasNext, cur, limit - chainN);
    ok := true;
  }

  /** The packet of a chain ends up in `pkt`, unless a DMA call fails or the packet overfills it. */
  method Gather(vq: Virtqueue, dma: Dma, head: nat, pkt: array<byte>, limit: nat, ghost t: Table) returns (ok: bool, pktLen: nat)
    requires pkt.Length == PACKET_BUFFER && Shows(t, vq.desc, dma.mem)
    modifies dma`faults, pkt
    ensures ok ==> dma.faults == old(dma.faults) && pktLen <= PACKET_BUFFER
    ensures var ch := Chain(t, head, limit);
      if ok then Accepted(ch, dma.limit) && pkt[..pktLen] == Packet(dma.mem, ch)
      else dma.faults > old(dma.faults) || !Accepted(ch, dma.limit)
  {
    ghost var m, lim, whole := dma.mem, dma.limit, Chain(t, head, limit);
    ghost var held := (ch, p, h: nat) => Holds(m, lim, ch, p, h);
    ghost var walked := (ch, g, c: nat, l: nat) => Walked(t, whole, ch, g, c, l);
    assert Walked(t, whole, [], true, head, limit) && Holds(m, lim, [], [], NET_HEADER);
    var hdrLeft;
    ok, hdrLeft, pktLen := GatherChain(vq, dma, head, pkt, limit, t, whole, held, walked, Accepted(whole, lim));
    assert ok ==> Holds(m, lim, whole, pkt[..pktLen], hdrLeft);
  }

  /** `packet` and `fits` describe the chains of memory `m`. */
  ghost predicate Describes(g: Geometry, m: Memory, limit: nat, packet: nat -> seq<byte>, fits: nat -> bool) {
    forall h: nat {:trigger ChainAt(g, m, h)} ::
      packet(h) == Packet(m, ChainAt(g, m, h)) && fits(h) == Accepted(ChainAt(g, m, h), limit)
  }

  /** Gather the packet of a chain and hand it to the MAC unless it is empty. */
  method Forward(vq: Virtqueue, dma: Dma, mac: Mac, head: nat, pkt: array<byte>, ghost packet: nat -> seq<byte>, ghost fits: nat -> bool)
    returns (ok: bool)
    requires pkt.Length == PACKET_BUFFER && Describes(vq.Shape(), dma.mem, dma.limit, packet, fits)
    modifies dma`faults, mac`offered, pkt
    ensures ok ==> fits(head) && dma.faults == old(dma.faults) && mac.offered == Offer(old(mac.offered), packet(head))
    ensures !ok ==> mac.offered == old(mac.offered) && (dma.faults > old(dma.faults) || !fits(head))
  {
    ghost var ch := ChainAt(vq.Shape(), dma.mem, head);
    var pktLen;
    ok, pktLen := Gather(vq, dma, head, pkt, MAX_CHAIN, TableAt(vq.desc, dma.mem));
    if ok && pktLen > 0 { var rc := mac.SendRaw(pkt, pktLen); }
  }

  /** Return a head through the used ring and step both positions. */
  method ReturnHead(vq: Virtqueue, dma: Dma, head: nat) returns (ok: bool)
    requires vq.Valid() && vq.size > 0
    modifies vq`lastAvail, vq`lastUsed, dma
    ensures vq.Valid()
    ensures var m' := Returned(vq.Shape(), old(dma.mem), old(vq.lastAvail), Elem(head, 0));
      if ok then dma.mem == m' && dma.faults == old(dma.faults) && vq.lastAvail == (old(vq.lastAvail) + 1) % WRAP
      else (dma.mem == old(dma.mem) || dma.mem == m') && dma.faults > old(dma.faults) && vq.lastAvail == old(vq.lastAvail)
    ensures dma.lost == (old(dma.lost) || !ok)
  {
    ok := WriteUsed(vq, dma, Elem(head, 0));
    if !ok { return; }
    vq.lastAvail := (vq.lastAvail + 1) % WRAP;
    vq.lastUsed := (vq.lastUsed + 1) % WRAP;
  }

  lemma Sees(g: Geometry, s: Tx, next: Tx -> Tx, can: Tx -> bool) returns (packet: nat -> seq<byte>, fits: nat -> bool)
    requires g.size > 0 && Serves(g, next, can)
    ensures Describes(g, s.mem, s.limit, packet, fits)
    ensures var h := HeadAt(g, s.mem, s.at);
      && can(s) == fits(h)
      && next(s) == Tx(Returned(g, s.mem, s.at, Elem(h, 0)), (s.at + 1) % WRAP, Offer(s.offered, packet(h)), s.limit)
  {
    packet := (h: nat) => Packet(s.mem, ChainAt(g, s.mem, h));
    fits := (h: nat) => Accepted(ChainAt(g, s.mem, h), s.limit);
    assert next(s) == Serve(g, s);
  }

  /** One turn of the outer loop: fetch the head, gather and forward its packet, return it. */
  method ServeOne(vq: Virtqueue, dma: Dma, mac: Mac, pkt: array<byte>, ghost next: Tx -> Tx, ghost can: Tx -> bool)
    returns (ok: bool, ghost entryFailed: bool)
    requires vq.Valid() && vq.size > 0 && pkt.Length == PACKET_BUFFER && Serves(vq.Shape(), next, can)
    modifies vq`lastAvail, vq`lastUsed, dma, mac`offered, pkt
    ensures vq.Valid()
    ensures ok ==> can(old(TxOf(vq, dma, mac))) && TxOf(vq, dma, mac) == next(old(TxOf(vq, dma, mac)))
    ensures ok ==> dma.faults == old(dma.faults) && vq.lastAvail == (old(vq.lastAvail) + 1) % WRAP
    ensures !ok ==> GivenUp(old(TxOf(vq, dma, mac)), next(old(TxOf(vq, dma, mac))), TxOf(vq, dma, mac), entryFailed)
    ensures !ok ==> dma.faults > old(dma.faults) || !can(old(TxOf(vq, dma, mac)))
    ensures !ok && entryFailed ==> dma.faults > old(dma.faults) && can(old(TxOf(vq, dma, mac)))
    ensures dma.lost == (old(dma.lost) || entryFailed) && (ok ==> !entryFailed)
  {
    entryFailed := false;
    ghost var g, s := vq.Shape(), TxOf(vq, dma, mac);
    ghost var packet, fits := Sees(g, s, next, can);
    var head;
    ok, head := FetchHead(vq, dma);
    if !ok { return; }
    ok := Forward(vq, dma, mac, head, pkt, packet, fits);
    if !ok { return; }
    ok := ReturnHead(vq, dma, head);
    entryFailed := !ok;
  }

  /** `next` serves one head and `can` tells whether that is possible. */
  ghost predicate Serves(g: Geometry, next: Tx -> Tx, can: Tx -> bool)
    requires g.size > 0
  {
    forall s {:trigger Serve(g, s)} :: next(s) == Serve(g, s) && can(s) == Servable(g, s)
  }

  function NextOf(g: Geometry): Tx -> Tx
    requires g.size > 0
  {
    s => Serve(g, s)
  }

  function CanOf(g: Geometry): Tx -> bool
    requires g.size > 0
  {
    s => Servable(g, s)
  }

  /** `k` turns of `next`. */
  function Turns(next: Tx -> Tx, s: Tx, k: nat): Tx {
    if k == 0 then s else next(Turns(next, s, k - 1))
  }

  /** Each of those turns was possible. */
  ghost predicate AllCan(next: Tx -> Tx, can: Tx -> bool, s: Tx, k: nat) {
    k == 0 || (AllCan(next, can, s, k - 1) && can(Turns(next, s, k - 1)))
  }

  ghost predicate Served(next: Tx -> Tx, can: Tx -> bool, s: Tx, s': Tx, k: nat) {
    s' == Turns(next, s, k) && AllCan(next, can, s, k)
  }

  function TxOf(vq: Virtqueue, dma: Dma, mac: Mac): Tx
    reads vq, dma, mac
  {
    Tx(dma.mem, vq.lastAvail, mac.offered, dma.limit)
  }

  /** The outer loop: `served` counts the turns. */
  method ServeAll(vq: Virtqueue, dma: Dma, mac: Mac, availIdx: nat, ghost next: Tx -> Tx, ghost can: Tx -> bool)
    returns (ok: bool, served: nat, ghost last: Tx, ghost entryFailed: bool)
    requires vq.Valid() && vq.size > 0 && availIdx < WRAP && Serves(vq.Shape(), next, can)
    modifies vq`lastAvail, vq`lastUsed, dma, mac`offered
    ensures vq.Valid() && served <= Behind(old(vq.lastAvail), availIdx)
    ensures Served(next, can, old(TxOf(vq, dma, mac)), last, served)
    ensures ok ==> TxOf(vq, dma, mac) == last && dma.faults == old(dma.faults)
    ensures ok <==> served == Behind(old(vq.lastAvail), availIdx)
    ensures !ok ==> GivenUp(last, next(last), TxOf(vq, dma, mac), entryFailed)
    ensures !ok ==> dma.faults > old(dma.faults) || !can(last)
    ensures !ok && entryFailed ==> dma.faults > old(dma.faults) && can(last)
    ensures dma.lost == (old(dma.lost) || entryFailed) && (ok ==> !entryFailed)
  {
    ghost var s, n := TxOf(vq, dma, mac), Behind(vq.lastAvail, availIdx);
    entryFailed := false;
    var pkt := new byte[PACKET_BUFFER];
    served := 0;
    while vq.lastAvail != availIdx
      invariant vq.Valid() && served <= n && Served(next, can, s, TxOf(vq, dma, mac), served)
      invariant Behind(vq.lastAvail, availIdx) == n - served
      invariant dma.faults == old(dma.faults) && dma.lost == old(dma.lost) && !entryFailed
      decreases n - served
    {
      last := TxOf(vq, dma, mac);
      ok, entryFailed := ServeOne(vq, dma, mac, pkt, next, can);
      if !ok { return; }
      served := served + 1;
    }
    last := TxOf(vq, dma, mac);
    ok := true;
  }

  /** How one call and the failed writes of the port go together: `was` and `now` tell whether one
      has failed before and after it, and `n` is the number of heads available.  A failed write of a
      used entry or of the used index is one; and once there is one, a call does nothing and fails,
      on a port that does not recover. */
  ghost predicate Barred(recovers: bool, n: nat, was: bool, s: Tx, rc: int, served: nat, s': Tx, entryFailed: bool, now: bool) {
    && (was || entryFailed ==> now) && (rc < 0 && 0 < served == n ==> now) && (rc >= 0 ==> now == was)
    && (was && !recovers ==> rc == -1 && served == 0 && !entryFailed && s' == s)
  }

  /** vcs_vq_process_tx: -1, or the number of heads that were available.  `served` of them were
      served, and `entryFailed` tells that the write of the next one's used entry was reported
      as failed. */
  method ProcessTx(vq: Virtqueue, dma: Dma, mac: Mac) returns (rc: int, ghost served: nat, ghost last: Tx, ghost entryFailed: bool)
    requires vq.Valid() && (vq.configured ==> vq.size > 0)
    modifies vq`lastAvail, vq`lastUsed, dma, mac`offered
    ensures vq.Valid()
    ensures !vq.configured ==> rc == -1 && TxOf(vq, dma, mac) == old(TxOf(vq, dma, mac))
    ensures vq.configured ==>
      ProcessedTx(vq.Shape(), old(TxOf(vq, dma, mac)), last, served, TxOf(vq, dma, mac), rc, dma.faults > old(dma.faults), entryFailed)
    ensures Barred(dma.recovers, Behind(old(vq.lastAvail), Word(old(dma.mem), AvailIdxAddr(vq.Shape()))), old(dma.lost), old(TxOf(vq, dma, mac)), rc, served, TxOf(vq, dma, mac), entryFailed, dma.lost)
  {
    served, last, entryFailed := 0, TxOf(vq, dma, mac), false;
    if !vq.configured { return -1, 0, last, false; }
    ghost var g := vq.Shape();
    rc, served, last, entryFailed := ProcessAvailable(vq, dma, mac, NextOf(g), CanOf(g));
  }

  /** All available heads of a configured queue. */
  method ProcessAvailable(vq: Virtqueue, dma: Dma, mac: Mac, ghost next: Tx -> Tx, ghost can: Tx -> bool)
    returns (rc: int, ghost served: nat, ghost last: Tx, ghost entryFailed: bool)
    requires vq.Valid() && vq.size > 0 && Serves(vq.Shape(), next, can)
    modifies vq`lastAvail, vq`lastUsed, dma, mac`offered
    ensures vq.Valid()
    ensures Processed(vq.Shape(), next, can, Behind(old(vq.lastAvail), Word(old(dma.mem), AvailIdxAddr(vq.Shape()))),
                      old(TxOf(vq, dma, mac)), last, served, TxOf(vq, dma, mac), rc, dma.faults > old(dma.faults), entryFailed)
    ensures Barred(dma.recovers, Behind(old(vq.lastAvail), Word(old(dma.mem), AvailIdxAddr(vq.Shape()))), old(dma.lost), old(TxOf(vq, dma, mac)), rc, served, TxOf(vq, dma, mac), entryFailed, dma.lost)
  {
    served, last, entryFailed := 0, TxOf(vq, dma, mac), false;
    var ok, availIdx := FetchAvailIdx(vq, dma);
    if !ok { return -1, 0, last, false; }
    var processed;
    ok, processed, last, entryFailed := ServeAll(vq, dma, mac, availIdx, next, can);
    served := processed;
    if !ok { return -1, served, last, entryFailed; }
    if processed > 0 {
      ok := WriteUsedIdx(vq, dma);
      if !ok { return -1, served, last, false; }
    }
    return processed, served, last, false;
  }

  /** What one call does, whatever guest memory holds: it serves the available heads one after
      the other and then publishes; it stops early at a failed DMA call or at a chain whose
      packet overfills the buffer, and only then.  `last` is the state after the heads that
      were served. */
  ghost predicate ProcessedTx(g: Geometry, s: Tx, last: Tx, served: nat, s': Tx, rc: int, faulty: bool, entryFailed: bool)
    requires g.size > 0 && s.at < WRAP
  {
    Processed(g, NextOf(g), CanOf(g), Behind(s.at, Word(s.mem, AvailIdxAddr(g))), s, last, served, s', rc, faulty, entryFailed)
  }

  /** The same for `n` available heads, in terms of `next` and `can`. */
  ghost predicate Processed(g: Geometry, next: Tx -> Tx, can: Tx -> bool, n: nat, s: Tx, last: Tx, served: nat, s': Tx, rc: int, faulty: bool, entryFailed: bool) {
    && served <= n && Served(next, can, s, last, served)
    && (entryFailed ==> faulty && served < n && can(last))
    && (rc >= 0 ==> rc == served == n && !faulty && s' == if n > 0 then Publish(g, last) else last)
    && (rc < 0 ==> rc == -1 && (faulty || (served < n && !can(last))))
    && (rc < 0 ==> if served < n then GivenUp(last, next(last), s', entryFailed) else s' == last || s' == Publish(g, last))
  }

  function Publish(g: Geometry, s: Tx): Tx {
    if s.at < WRAP then s.(mem := Published(g, s.mem, s.at)) else s
  }
}
