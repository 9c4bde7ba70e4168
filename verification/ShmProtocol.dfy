/** The protocol over shared memory, as a transition system of the same three threads: rings for
    TLPs, completions, DMA requests, DMA completions and interrupts, and a socket whose messages
    only announce what the rings hold.  An action is one ring operation or one socket message. */
module ShmProtocol {
  import opened GuestMemory
  import Tcp = TcpProtocol

  const DRAIN_GUARD: nat := 256
  const DMA_WAIT_ROUNDS: nat := 1000

  /** Announcements on the socket towards VCS. */
  datatype Note = TlpReady | DmaDone | Other

  /** bridge_vcs_dma_read_sync, bridge_vcs_dma_write_sync, bridge_dma_read_bytes and
      bridge_dma_write_bytes; each keeps its own static tag counter. */
  datatype Kind = ReadSync | WriteSync | ReadBytes | WriteBytes

  function TagBase(k: Kind): nat {
    match k
    case ReadSync => 2000
    case WriteSync => 3000
    case ReadBytes => 5000
    case WriteBytes => 6000
  }

  /** The tag counters, counted from 0. */
  datatype Counters = Counters(readSync: nat, writeSync: nat, readBytes: nat, writeBytes: nat) {
    function Of(k: Kind): nat {
      match k
      case ReadSync => readSync
      case WriteSync => writeSync
      case ReadBytes => readBytes
      case WriteBytes => writeBytes
    }
    function Next(k: Kind): Counters {
      match k
      case ReadSync => this.(readSync := readSync + 1)
      case WriteSync => this.(writeSync := writeSync + 1)
      case ReadBytes => this.(readBytes := readBytes + 1)
      case WriteBytes => this.(writeBytes := writeBytes + 1)
    }
  }

  /** A DMA request, number `k` of its kind.  The data lies at `offset` in the shared DMA buffer,
      where a write has put `bytes`.  History: `n` numbers all requests, and `since` is the
      length of the memory log when it was started. */
  datatype Op = Op(kind: Kind, k: nat, addr: nat, len: nat, bytes: seq<byte>, offset: nat, n: nat, since: nat) {
    function Tag(): nat { (TagBase(kind) + k) % 0x1_0000_0000 }
    predicate IsWrite() { Writes(kind) }
  }

  predicate Writes(k: Kind) { k == WriteSync || k == WriteBytes }

  datatype VcpuPc = VcIdle | VcAnnounce(wait: bool, tag: nat) | VcWait(tag: nat, guard: nat) | VcTake(tag: nat, guard: nat) | VcFailed
  datatype PollerPc = PDma | PMsi | PServe(op: Op) | PComplete(op: Op) | PAnnounce
  datatype VcsPc = VIdle | VWait(op: Op, i: nat) | VTake(op: Op, i: nat) | VPollTake | VCplReady

  /** TLPs.  `pending` counts announcements a DMA wait consumed; `sent` and `delivered` are
      history, and so is `silent`, the TLPs whose announcement failed. */
  datatype TlpPath = TlpPath(ring: seq<int>, pending: nat, sent: seq<int>, delivered: seq<int>, silent: nat, resets: nat)
  /** Completions, of which the tag matters, and their announcements.  History: `missing` counts
      dequeues from an empty ring, `received` lists what was taken out. */
  datatype CplPath = CplPath(ring: seq<nat>, ready: nat, missing: nat, received: seq<nat>)
  /** DMA.  History: `owed`, the requests whose completion VCS has not taken out; `applied`,
      those the callback has carried out; `finished`, those whose call returned 0; `dropped`, the
      completions a full ring swallowed; `missing`, dequeues from an empty ring. */
  datatype DmaPath = DmaPath(requests: seq<Op>, completions: seq<Op>, owed: seq<Op>, applied: seq<Op>,
                             finished: seq<Op>, count: Counters, started: nat, dropped: nat, missing: nat)
  /** An interrupt, with the number of calls finished when it was raised (history). */
  datatype Interrupt = Interrupt(vector: nat, mark: nat)
  /** History: an interrupt handed to the callback, and how many requests were carried out by then. */
  datatype Delivery = Delivery(msi: Interrupt, applied: nat)
  /** Interrupts: the ring, and those delivered (history). */
  datatype MsiPath = MsiPath(ring: seq<Interrupt>, seen: seq<Delivery>)

  /** The DMA buffer and guest memory with its log; `at` is the length of the log when the last
      request was carried out (history). */
  datatype Memories = Memories(buf: Memory, ram: Tcp.Ram, at: nat)

  datatype State = State(vcpu: VcpuPc, poller: PollerPc, vcs: VcsPc, notes: seq<Note>, down: bool,
                         tlp: TlpPath, cpl: CplPath, dma: DmaPath, msi: MsiPath, data: Memories)

  /** Usable slots of the rings; each has at least one. */
  type Sizes = z: Slots | z.req > 0 && z.cpl > 0 && z.dmaReq > 0 && z.dmaCpl > 0 && z.msi > 0
    witness Slots(1, 1, 1, 1, 1)
  datatype Slots = Slots(req: nat, cpl: nat, dmaReq: nat, dmaCpl: nat, msi: nat)

  function Initial(): State {
    State(VcIdle, PDma, VIdle, [], false, TlpPath([], 0, [], [], 0, 0), CplPath([], 0, 0, []), DmaPath([], [], [], [], [], Counters(0, 0, 0, 0), 0, 0, 0), MsiPath([], []), Memories(map[], Tcp.Ram(map[], []), 0))
  }

  datatype Action =
    // vCPU thread
    | SendTlp(body: int, wait: bool, tag: nat) | AnnounceTlp(ok: bool) | RecvCplReady | TakeCpl | SendOther
    | GuestStore(to: nat, what: seq<byte>)
    // poller thread
    | TakeRequest | TakeMsi | NextPhase | Serve | Complete | AnnounceDma
    // VCS thread
    | StartDma(kind: Kind, addr: nat, len: nat, bytes: seq<byte>, offset: nat) | WaitRound | Timeout | TakeDmaCpl | GiveUp
    | PollPending | PollSocket | PollTake
    | RaiseMsi(vector: nat) | SendCpl(tag: nat) | AnnounceCpl
    // the socket fails, or QEMU announces its end: VCS receives nothing any more
    | LinkFails

  predicate Enabled(s: State, a: Action) {
    match a
    case SendTlp(_, _, _) => s.vcpu == VcIdle
    case AnnounceTlp(_) => s.vcpu.VcAnnounce?
    case RecvCplReady => s.vcpu.VcWait? && s.vcpu.guard > 0 && s.cpl.ready > 0
    case TakeCpl => s.vcpu.VcTake?
    case SendOther => s.vcpu == VcIdle
    case GuestStore(_, _) => true
    case TakeRequest => s.poller == PDma && s.dma.requests != []
    case TakeMsi => s.poller == PMsi && s.msi.ring != []
    case NextPhase => (s.poller == PDma && s.dma.requests == []) || (s.poller == PMsi && s.msi.ring == [])
    case Serve => s.poller.PServe?
    case Complete => s.poller.PComplete?
    case AnnounceDma => s.poller == PAnnounce
    // Length zero is refused at once; where in the buffer the data goes is up to the caller.
    case StartDma(kind, _, len, bytes, _) => s.vcs == VIdle && len > 0 && (Writes(kind) ==> |bytes| == len)
    // A round of the wait loop receives a message, or none within its time.
    case WaitRound => s.vcs.VWait? && s.vcs.i < DMA_WAIT_ROUNDS && s.notes != [] && !s.down
    case Timeout => s.vcs.VWait? && s.vcs.i < DMA_WAIT_ROUNDS && s.notes == [] && !s.down
    case TakeDmaCpl => s.vcs.VTake?
    // All rounds are used up, or nothing is received any more.
    case GiveUp => s.vcs.VWait? && (s.vcs.i >= DMA_WAIT_ROUNDS || s.down)
    case PollPending => s.vcs == VIdle && s.tlp.pending > 0
    case PollSocket => s.vcs == VIdle && s.tlp.pending == 0 && s.notes != [] && !s.down
    case PollTake => s.vcs == VPollTake
    case RaiseMsi(_) => s.vcs == VIdle
    case SendCpl(_) => s.vcs == VIdle
    case AnnounceCpl => s.vcs == VCplReady
    case LinkFails => !s.down
  }

  function DoVcpu(z: Sizes, s: State, a: Action): State
    requires Enabled(s, a)
  {
    match a
    // bridge_send_tlp: a full ring is reported at once.
    case SendTlp(body, wait, tag) =>
      if |s.tlp.ring| >= z.req then s
      else s.(tlp := s.tlp.(ring := s.tlp.ring + [body], sent := s.tlp.sent + [body]), vcpu := VcAnnounce(wait, tag))
    case AnnounceTlp(ok) =>
      if ok then s.(notes := s.notes + [TlpReady], vcpu := if s.vcpu.wait then VcWait(s.vcpu.tag, DRAIN_GUARD) else VcIdle)
      else s.(tlp := s.tlp.(silent := s.tlp.silent + 1), vcpu := VcIdle)
    case RecvCplReady => s.(cpl := s.cpl.(ready := s.cpl.ready - 1), vcpu := VcTake(s.vcpu.tag, s.vcpu.guard - 1))
    // A completion with another tag is stale; 256 of them are skipped.
    case TakeCpl =>
      if s.cpl.ring == [] then s.(cpl := s.cpl.(missing := s.cpl.missing + 1), vcpu := VcFailed)
      else s.(cpl := s.cpl.(ring := s.cpl.ring[1..], received := s.cpl.received + [s.cpl.ring[0]]), vcpu := if s.cpl.ring[0] == s.vcpu.tag || s.vcpu.guard == 0 then VcIdle else VcWait(s.vcpu.tag, s.vcpu.guard))
    case SendOther => s.(notes := s.notes + [Other])
    case GuestStore(to, what) => s.(data := s.data.(ram := Tcp.Write(s.data.ram, to, what)))
    case _ => s
  }

  function DoPoller(z: Sizes, s: State, a: Action): State
    requires Enabled(s, a)
  {
    match a
    case TakeRequest => s.(dma := s.dma.(requests := s.dma.requests[1..]), poller := PServe(s.dma.requests[0]))
    case TakeMsi => s.(msi := MsiPath(s.msi.ring[1..], s.msi.seen + [Delivery(s.msi.ring[0], |s.dma.applied|)]))
    case NextPhase => s.(poller := if s.poller == PDma then PMsi else PDma)
    // cosim_dma_cb: guest memory is accessed before the completion is sent.
    case Serve => s.(dma := s.dma.(applied := s.dma.applied + [s.poller.op]), poller := PComplete(s.poller.op),
                     data := CarryOut(s.data, s.poller.op))
    case Complete =>
      if |s.dma.completions| >= z.dmaCpl
      then s.(dma := s.dma.(owed := Without(s.dma.owed, |s.dma.completions|), dropped := s.dma.dropped + 1), poller := PDma)
      else s.(dma := s.dma.(completions := s.dma.completions + [s.poller.op]), poller := PAnnounce)
    case AnnounceDma => s.(notes := s.notes + [DmaDone], poller := PDma)
    case _ => s
  }

  /** cosim_dma_cb over shared memory: from the buffer to guest memory, or back. */
  function CarryOut(d: Memories, op: Op): Memories {
    if op.IsWrite()
    then d.(ram := Tcp.Write(d.ram, op.addr, Load(d.buf, op.offset, op.len)), at := |d.ram.log|)
    else d.(buf := Store(d.buf, op.offset, Load(d.ram.mem, op.addr, op.len)), at := |d.ram.log|)
  }

  function NewOp(s: State, a: Action): Op
    requires a.StartDma?
  {
    Op(a.kind, s.dma.count.Of(a.kind), a.addr, a.len, a.bytes, a.offset, s.dma.started, |s.data.ram.log|)
  }

  function Without<T>(xs: seq<T>, i: nat): seq<T> {
    if i < |xs| then xs[..i] + xs[i + 1..] else xs
  }

  function DoVcs(z: Sizes, s: State, a: Action): State
    requires Enabled(s, a)
  {
    match a
    // The data of a write is in the buffer before the request is.
    case StartDma(kind, _, _, bytes, offset) =>
      var op := NewOp(s, a);
      var s1 := if Writes(kind) then s.(data := s.data.(buf := Store(s.data.buf, offset, bytes))) else s;
      var d := s.dma.(count := s.dma.count.Next(kind), started := s.dma.started + 1);
      if |s.dma.requests| >= z.dmaReq then s1.(dma := d)
      else s1.(dma := d.(requests := s.dma.requests + [op], owed := s.dma.owed + [op]), vcs := VWait(op, 0))
    case WaitRound =>
      s.(notes := s.notes[1..],
         tlp := if s.notes[0] == TlpReady then s.tlp.(pending := s.tlp.pending + 1) else s.tlp,
         vcs := if s.notes[0] == DmaDone then VTake(s.vcs.op, s.vcs.i) else VWait(s.vcs.op, s.vcs.i + 1))
    case TakeDmaCpl =>
      if s.dma.completions == [] then s.(dma := s.dma.(missing := s.dma.missing + 1), vcs := VWait(s.vcs.op, s.vcs.i + 1))
      else s.(dma := s.dma.(completions := s.dma.completions[1..], owed := Without(s.dma.owed, 0),
                            finished := if Succeeds(s) then s.dma.finished + [s.vcs.op] else s.dma.finished),
              vcs := VIdle)
    case Timeout => s.(vcs := VWait(s.vcs.op, s.vcs.i + 1))
    case GiveUp => s.(vcs := VIdle)
    case PollPending =>
      if s.tlp.ring == [] then s.(tlp := s.tlp.(pending := 0, resets := s.tlp.resets + 1)) else s.(tlp := Deliver(s.tlp, s.tlp.pending - 1))
    case PollSocket => s.(notes := s.notes[1..], vcs := if s.notes[0] == TlpReady then VPollTake else VIdle)
    case PollTake => s.(tlp := if s.tlp.ring == [] then s.tlp.(resets := s.tlp.resets + 1) else Deliver(s.tlp, s.tlp.pending), vcs := VIdle)
    case RaiseMsi(vector) =>
      if |s.msi.ring| >= z.msi then s else s.(msi := s.msi.(ring := s.msi.ring + [Interrupt(vector, |s.dma.finished|)]))
    case SendCpl(tag) =>
      if |s.cpl.ring| >= z.cpl then s else s.(cpl := s.cpl.(ring := s.cpl.ring + [tag]), vcs := VCplReady)
    case LinkFails => s.(down := true)
    case AnnounceCpl => s.(cpl := s.cpl.(ready := s.cpl.ready + 1), vcs := VIdle)
    case _ => s
  }

  function Deliver(t: TlpPath, pending: nat): TlpPath
    requires t.ring != []
  {
    t.(ring := t.ring[1..], delivered := t.delivered + [t.ring[0]], pending := pending)
  }

  /** The completion at hand carries the tag waited for: the call returns 0. */
  predicate Succeeds(s: State)
    requires s.vcs.VTake? && s.dma.completions != []
  {
    s.dma.completions[0].Tag() == s.vcs.op.Tag()
  }

  function Do(z: Sizes, s: State, a: Action): State
    requires Enabled(s, a)
  {
    if a.SendTlp? || a.AnnounceTlp? || a.RecvCplReady? || a.TakeCpl? || a.SendOther? || a.GuestStore? then DoVcpu(z, s, a)
    else if a.TakeRequest? || a.TakeMsi? || a.NextPhase? || a.Serve? || a.Complete? || a.AnnounceDma? then DoPoller(z, s, a)
    else DoVcs(z, s, a)
  }

  ghost predicate Legal(z: Sizes, s: State, run: seq<Action>)
    decreases |run|
  {
    run == [] || (Enabled(s, run[0]) && Legal(z, Do(z, s, run[0]), run[1..]))
  }

  ghost function Exec(z: Sizes, s: State, run: seq<Action>): State
    requires Legal(z, s, run)
    decreases |run|
  {
    if run == [] then s else Exec(z, Do(z, s, run[0]), run[1..])
  }
}
