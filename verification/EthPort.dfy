/** eth_shm.c and eth_port.c: the frame rings in shared memory and a node's handle on them. */
module EthPort {
  import opened GuestMemory
  import opened LinkModel
  import opened EthWire
  import opened SlotWindow
  import RingBuffer

  /** eth_frame_ring_t: `head` is the producer's index here, `tail` the consumer's. */
  class FrameRing {
    const slots: array<EthFrame>
    var head: nat
    var tail: nat
    ghost var contents: seq<EthFrame>

    ghost predicate Valid()
      reads this, slots
    {
      && slots.Length == RING_DEPTH && head < RING_DEPTH && tail < RING_DEPTH && |contents| < RING_DEPTH
      && Holds(slots[..], tail, RingBuffer.Distance(tail, head, RING_DEPTH), contents)
    }

    constructor ()
      ensures Valid() && contents == [] && fresh(slots)
    {
      slots := new EthFrame[RING_DEPTH](_ => EthFrame(0, 0, 0, 0, []));
      head, tail := 0, 0;
      contents := [];
    }

    /** eth_shm_enqueue: false stands for -1. */
    method Enqueue(f: EthFrame) returns (ok: bool)
      requires Valid()
      modifies this`head, this`contents, slots
      ensures Valid() && ok == (|old(contents)| < 255)
      ensures contents == if ok then old(contents) + [f] else old(contents)
    {
      ghost var n := RingBuffer.Distance(tail, head, RING_DEPTH);
      assert contents == Window(slots[..], tail, n);
      var next := RingBuffer.Next(head, RING_DEPTH);
      if next == tail { return false; }
      WindowGrows(slots[..], tail, n, head, f);
      ghost var before := slots[..];
      slots[head] := f;
      assert slots[..] == before[head := f];
      head := next;
      contents := contents + [f];
      return true;
    }

    /** eth_shm_dequeue */
    method Dequeue() returns (ok: bool, f: EthFrame)
      requires Valid()
      modifies this`tail, this`contents
      ensures Valid() && ok == (old(contents) != [])
      ensures ok ==> f == old(contents)[0] && contents == old(contents)[1..]
      ensures !ok ==> contents == old(contents)
    {
      assert contents == Window(slots[..], tail, RingBuffer.Distance(tail, head, RING_DEPTH));
      if tail == head { return false, EthFrame(0, 0, 0, 0, []); }
      f := slots[tail];
      tail := RingBuffer.Next(tail, RING_DEPTH);
      contents := contents[1..];
      ok := true;
    }
  }

  datatype Role = RoleA | RoleB

  /** The shared memory of one link. */
  class EthShm {
    const aToB: FrameRing
    const bToA: FrameRing
    var timeA: nat
    var timeB: nat

    ghost predicate Valid()
      reads this, aToB, bToA, aToB.slots, bToA.slots
    {
      aToB.Valid() && bToA.Valid() && aToB != bToA && aToB.slots != bToA.slots
    }

    constructor ()
      ensures Valid() && aToB.contents == [] && bToA.contents == [] && timeA == 0 && timeB == 0
      ensures fresh(aToB) && fresh(bToA) && fresh(aToB.slots) && fresh(bToA.slots)
    {
      aToB := new FrameRing();
      bToA := new FrameRing();
      timeA, timeB := 0, 0;
    }

    /** eth_shm_tx_ring and eth_shm_rx_ring: what one role sends is what the other receives. */
    function TxRing(role: Role): FrameRing { if role == RoleA then aToB else bToA }
    function RxRing(role: Role): FrameRing { if role == RoleA then bToA else aToB }

    function NodeTime(role: Role): nat
      reads this
    {
      if role == RoleA then timeA else timeB
    }

    /** eth_shm_advance_time */
    method AdvanceTime(role: Role, ns: nat)
      modifies this
      ensures NodeTime(role) == ns && NodeTime(if role == RoleA then RoleB else RoleA) == old(NodeTime(if role == RoleA then RoleB else RoleA))
    {
      if role == RoleA { timeA := ns; } else { timeB := ns; }
    }
  }

  class Port {
    const shm: EthShm
    const role: Role
    const link: Link
    var seqTx: nat

    ghost predicate Valid()
      reads this, link, shm, shm.aToB, shm.bToA, shm.aToB.slots, shm.bToA.slots
    {
      link.Valid() && shm.Valid() && seqTx < U32
    }

    /** The fields and the ring of this port are those of `w`. */
    ghost predicate Shows(w: Wire)
      requires Valid()
      reads this, link, shm, shm.aToB, shm.bToA, shm.aToB.slots, shm.bToA.slots
    {
      && w.dice == link.Die() && w.token == link.tokenBucketNs && w.outstanding == link.outstanding
      && w.seqTx == seqTx && w.time == shm.NodeTime(role) && w.ring == shm.TxRing(role).contents
    }

    /** eth_port_open, as far as it sets up the sending side. */
    constructor (shm: EthShm, role: Role, config: Config)
      requires shm.Valid() && config.burstDropLen < U16 && config.fcWindow < U32 && config.latencyNs < U64
      requires shm.TxRing(role).contents == [] && shm.NodeTime(role) == 0
      ensures Valid() && this.shm == shm && this.role == role && link.config == config && fresh(link)
      ensures Shows(Fresh(Dice(if role == RoleA then 0xA11CE else 0xB0B, 0)))
    {
      this.shm := shm;
      this.role := role;
      link := new Link(config, if role == RoleA then 0xA11CE else 0xB0B);
      seqTx := 0;
    }

    /** The sender's metadata. */
    method StampFrame(frame: EthFrame, now: nat) returns (f: EthFrame)
      requires Valid() && frame.len < U16 && now < U64
      modifies this`seqTx, link`tokenBucketNs, link`history
      ensures Valid() && seqTx == (old(seqTx) + 1) % U32
      ensures link.tokenBucketNs == NextToken(link.config, old(link.tokenBucketNs), Frame(frame.len, now))
      ensures f == frame.(seqNo := old(seqTx), timestampNs := Stamp(link.config, old(link.tokenBucketNs), Frame(frame.len, now)))
    {
      f := frame.(seqNo := seqTx);
      seqTx := (seqTx + 1) % U32;
      var ns := link.NextDeadline(f.len, now);
      f := f.(timestampNs := ns);
    }

    /** Put a stamped frame into the ring; only then does it count as outstanding. */
    method Push(f: EthFrame) returns (ok: bool)
      requires Valid()
      modifies link`outstanding, shm, shm.TxRing(role)`head, shm.TxRing(role)`contents, shm.TxRing(role).slots
      ensures Valid() && ok == (|old(shm.TxRing(role).contents)| < 255)
      ensures shm.TxRing(role).contents == if ok then old(shm.TxRing(role).contents) + [f] else old(shm.TxRing(role).contents)
      ensures link.outstanding == if ok then (old(link.outstanding) + 1) % U32 else old(link.outstanding)
      ensures shm.NodeTime(role) == if ok then f.timestampNs else old(shm.NodeTime(role))
      ensures shm.RxRing(role).contents == old(shm.RxRing(role).contents)
    {
      ok := shm.TxRing(role).Enqueue(f);
      if ok {
        link.IncOutstanding();
        shm.AdvanceTime(role, f.timestampNs);
      }
    }

    /** eth_port_send: 0, -1 for a full ring, -2 for a closed window, -3 for a dropped frame.  The
        frame comes back with the stamps it got. */
    method Send(frame: EthFrame, now: nat, ghost w: Wire) returns (rc: int, stamped: EthFrame, ghost w': Wire)
      requires Valid() && Shows(w) && frame.len < U16 && now < U64
      modifies this`seqTx, link, shm, shm.TxRing(role)`head, shm.TxRing(role)`contents, shm.TxRing(role).slots
      ensures Valid() && link.config == old(link.config)
      ensures w' == EthWire.Send(link.config, w, frame, now).1 && Shows(w')
      ensures rc == match EthWire.Send(link.config, w, frame, now).0
                    case Sent => 0 case Full => -1 case Blocked => -2 case Lost => -3
      ensures stamped == if rc == -2 || rc == -3 then frame else Stamped(link.config, w, frame, now)
      ensures shm.RxRing(role).contents == old(shm.RxRing(role).contents)
    {
      var ok;
      w', stamped := EthWire.Send(link.config, w, frame, now).1, frame;
      var can := link.FcCanSend();
      if !can { return -2, frame, w'; }
      var drop := link.ShouldDrop();
      if drop { return -3, frame, w'; }
      ghost var w1 := w.(dice := link.Die());
      ok, stamped := SendNow(frame, now, w1);
      rc := if ok then 0 else -1;
    }

    /** The part of eth_port_send behind the link model's decisions. */
    method SendNow(frame: EthFrame, now: nat, ghost w: Wire) returns (ok: bool, stamped: EthFrame)
      requires Valid() && Shows(w) && frame.len < U16 && now < U64
      modifies this`seqTx, link, shm, shm.TxRing(role)`head, shm.TxRing(role)`contents, shm.TxRing(role).slots
      ensures Valid() && link.config == old(link.config)
      ensures Shows(Transmit(link.config, w, frame, now).1)
      ensures ok == Transmit(link.config, w, frame, now).0.Sent?
      ensures stamped == Stamped(link.config, w, frame, now)
      ensures shm.RxRing(role).contents == old(shm.RxRing(role).contents)
    {
      stamped := StampFrame(frame, now);
      ok := Push(stamped);
    }

    /** eth_port_recv without waiting: one frame the peer sent, if there is one. */
    method Recv() returns (ok: bool, frame: EthFrame)
      requires Valid()
      modifies shm.RxRing(role)`tail, shm.RxRing(role)`contents
      ensures Valid() && ok == (old(shm.RxRing(role).contents) != [])
      ensures shm.RxRing(role).contents == if ok then old(shm.RxRing(role).contents)[1..] else old(shm.RxRing(role).contents)
      ensures ok ==> frame == old(shm.RxRing(role).contents)[0]
      ensures shm.TxRing(role).contents == old(shm.TxRing(role).contents)
    {
      ok, frame := shm.RxRing(role).Dequeue();
    }

    /** eth_port_tx_complete */
    method TxComplete(ghost w: Wire)
      requires Valid() && Shows(w)
      modifies link
      ensures Valid() && Shows(Do(link.config, w, Complete)) && link.config == old(link.config)
    {
      link.DecOutstanding();
    }

    /** vcs_eth_mac_recv_raw: taking a frame in also reports a completion, to this same port. */
    method RecvRaw(max: nat, ghost w: Wire) returns (len: nat, data: seq<byte>)
      requires Valid() && Shows(w)
      modifies link, shm.RxRing(role)`tail, shm.RxRing(role)`contents
      ensures Valid() && link.config == old(link.config)
      ensures var rx := old(shm.RxRing(role).contents);
        if rx == [] then len == 0 && shm.RxRing(role).contents == rx && Shows(w)
        else shm.RxRing(role).contents == rx[1..] && Shows(Do(link.config, w, Complete)) && data <= rx[0].data
             && len == |data| && (|rx[0].data| == rx[0].len <= max ==> data == rx[0].data)
    {
      len, data := 0, [];
      var ok, f := Recv();
      if !ok { return; }
      TxComplete(w);
      len := if f.len < max then f.len else max;
      len := if len < |f.data| then len else |f.data|;
      data := f.data[..len];
    }
  }
}
