/** The co-simulation protocol over three TCP connections, as a transition system of
    three threads: the QEMU vCPU thread (bridge_qemu.c), the QEMU poller thread
    (irq_poller.c with the DMA callback of cosim_pcie_rc.c) and the VCS thread
    (bridge_vcs.c).  Every connection is two FIFO queues, one per direction; one
    action sends or receives one transport message.

    Fields called history are never read by any branch of the code; they only record what
    happened, so that properties of whole runs can be stated. */
module TcpProtocol {
  import opened GuestMemory

  const TLP_CACHE_SIZE: nat := 1024
  const DMA_WAIT_ROUNDS: nat := 1000
  const READ_BUFFER: nat := 4096
  const DRAIN_GUARD: nat := 256

  // ---------- operations and messages ----------

  /** bridge_dma_read_bytes, bridge_dma_write_bytes and bridge_vcs_dma_write_sync; each
      keeps its own static tag counter. */
  datatype Kind = ReadBytes | WriteBytes | WriteSync

  function TagBase(k: Kind): nat {
    match k
    case ReadBytes => 5000
    case WriteBytes => 6000
    case WriteSync => 3000
  }

  /** A DMA the VCS thread has started.  `n` numbers the operations of one kind and
      `since` is the length of the memory log when it was started (both history);
      `bytes` is what a write carries. */
  datatype Op = Op(kind: Kind, n: nat, addr: nat, len: nat, bytes: seq<byte>, since: nat) {
    /** The 32-bit counter value that travels as the tag. */
    function Tag(): nat { (TagBase(kind) + n) % 0x1_0000_0000 }
    predicate IsRead() { kind == ReadBytes }
  }

  /** The static tag counters, counted from 0. */
  datatype Counters = Counters(rd: nat, wr: nat, sync: nat) {
    function Of(k: Kind): nat {
      match k
      case ReadBytes => rd
      case WriteBytes => wr
      case WriteSync => sync
    }
    function Next(k: Kind): Counters {
      match k
      case ReadBytes => this.(rd := rd + 1)
      case WriteBytes => this.(wr := wr + 1)
      case WriteSync => this.(sync := sync + 1)
    }
  }

  datatype Ctrl = TlpReady | CplReady | DmaDone
  datatype Data = DataTlp(tag: nat, body: int) | DataCpl(tag: nat, body: int)
  /** VCS to QEMU on the aux connection.  Of `op`, only tag, direction, address and
      length travel in a DMA_REQ. */
  datatype Up = DmaReq(op: Op) | UpData(op: Op, bytes: seq<byte>) | Msi(vector: nat, mark: nat)
  /** QEMU to VCS on the aux connection.  Of `op`, only the tag travels. */
  datatype Down = DownData(op: Op, bytes: seq<byte>) | DownCpl(op: Op)

  // ---------- threads ----------

  datatype VcpuPc =
    | VcIdle
    | VcReady(wait: bool, tag: nat)        // TLP sent, TLP_READY not yet
    | VcWait(tag: nat, guard: nat)         // bridge_wait_completion, about to recv_sync
    | VcCpl(tag: nat, guard: nat)          // CPL_READY received, about to recv_cpl
    | VcBroken

  datatype PollerPc =
    | PIdle
    | PWrite(op: Op)                       // DMA_REQ taken, about to recv_dma_data
    | PData(op: Op, bytes: seq<byte>)      // guest memory read, about to send_dma_data
    | PCpl(op: Op)                         // about to send_dma_cpl
    | PSync(op: Op)                        // about to send SYNC_MSG_DMA_CPL
    | PBroken

  datatype VcsPc =
    | VIdle
    | VPutData(op: Op)                     // DMA_REQ of a write sent, data not yet
    | VWait(op: Op, i: nat)                // round i of the wait loop, about to recv_sync
    | VTlp(op: Op, i: nat)                 // TLP_READY received, about to recv_tlp
    | VData(op: Op, i: nat)                // a read got DMA_CPL, about to recv_dma_data
    | VCpl(op: Op, i: nat, got: seq<Down>) // about to recv_dma_cpl; a read holds its data
    | VDrain | VDrainTlp                   // poll phase 2
    | VTimed | VTimedTlp                   // poll phase 4
    | VCplSync                             // completion sent, CPL_READY not yet
    | VBroken

  /** History: a DMA served from guest memory when the log had length `at`. */
  datatype Answer = Answer(op: Op, at: nat, data: seq<byte>)
  /** History: what the VCS thread put on the aux connection, message groups kept whole. */
  datatype Item = OpItem(op: Op) | MsiItem(vector: nat, mark: nat)
  datatype MemEvent = MemEvent(addr: nat, bytes: seq<byte>)
  datatype Delivery = Delivery(vector: nat, mark: nat, applied: nat)

  // In each record below, the fields named wire, ctrl, data and cache are what the code
  // reads and writes; the others are history.

  /** TLPs: the data connection towards VCS, and the cache behind it. */
  datatype TlpPath = TlpPath(wire: seq<Data>, cache: seq<Data>, sent: seq<Data>, delivered: seq<Data>, drops: nat)
  /** Completions: the ctrl and data connections towards QEMU. */
  datatype CplPath = CplPath(ctrl: seq<Ctrl>, data: seq<Data>, received: seq<Data>)
  /** The aux connection towards QEMU.  `issued` and `applied` are the DMA writes started
      and those already in guest memory. */
  datatype UpPath = UpPath(wire: seq<Up>, queued: seq<Item>, issued: seq<Op>, applied: seq<Answer>,
                           interrupts: seq<Delivery>)
  /** The aux connection towards VCS.  `served` are the answers VCS has not consumed;
      `discarded` counts DMA notifications thrown away by a poll. */
  datatype DownPath = DownPath(wire: seq<Down>, served: seq<Answer>, discarded: nat)
  /** Guest memory and every store ever made to it. */
  datatype Ram = Ram(mem: Memory, log: seq<MemEvent>)

  /** `initialized` is g_initialized; once `broken`, VCS receives no notification any more, because
      the connection failed or QEMU announced its end. */
  datatype Link = Link(initialized: bool, broken: bool)

  datatype State = State(
    link: Link, count: Counters,
    vcpu: VcpuPc, poller: PollerPc, vcs: VcsPc,
    ctrl: seq<Ctrl>,                       // the ctrl connection towards VCS
    tlp: TlpPath, cpl: CplPath, up: UpPath, down: DownPath, ram: Ram
  )

  function Initial(initialized: bool): State {
    State(Link(initialized, false), Counters(0, 0, 0), VcIdle, PIdle, VIdle, [],
          TlpPath([], [], [], [], 0), CplPath([], [], []), UpPath([], [], [], [], []), DownPath([], [], 0),
          Ram(map[], []))
  }

  datatype VcpuAct =
    | SendTlp(wait: bool, tag: nat, body: int) | SendTlpReady | RecvCplReady | RecvCpl
    | GuestStore(addr: nat, bytes: seq<byte>)
  datatype PollerAct = Take | RecvUpData | SendDownData | SendDownCpl | SendDmaDone
  /** The DMA entry points of the VCS thread and their common wait loop. */
  datatype DmaAct =
    | StartDma(kind: Kind, addr: nat, len: nat, bytes: seq<byte>) | SendUpData
    | RecvSync | RecvTlp | RecvDownData | RecvDownCpl | Abandon
  /** poll_tlp_ctx. */
  datatype PollAct = PollStart | DrainSync | DrainTlp | DrainEnd | TimedSync | TimedTlp | Timeout | PollFails
  /** bridge_vcs_raise_msi and send_completion_ctx. */
  datatype NotifyAct = RaiseMsi(vector: nat) | SendCpl(tag: nat, body: int) | SendCplReady

  datatype Action =
    | Vcpu(v: VcpuAct) | Poller(p: PollerAct)
    | Dma(d: DmaAct) | Poll(q: PollAct) | Notify(t: NotifyAct)
    | LinkFails

  // ---------- what each action does ----------

  function Write(r: Ram, addr: nat, bytes: seq<byte>): Ram {
    Ram(Store(r.mem, addr, bytes), r.log + [MemEvent(addr, bytes)])
  }

  predicate VcpuEnabled(s: State, a: VcpuAct) {
    match a
    case SendTlp(_, _, _) => s.vcpu == VcIdle
    case SendTlpReady => s.vcpu.VcReady?
    case RecvCplReady => s.vcpu.VcWait? && s.vcpu.guard > 0 && s.cpl.ctrl != []
    case RecvCpl => s.vcpu.VcCpl? && s.cpl.data != []
    case GuestStore(_, _) => true
  }

  function DoVcpu(s: State, a: VcpuAct): State
    requires VcpuEnabled(s, a)
  {
    match a
    case SendTlp(wait, tag, body) =>
      var t := DataTlp(tag, body);
      s.(tlp := s.tlp.(wire := s.tlp.wire + [t], sent := s.tlp.sent + [t]), vcpu := VcReady(wait, tag))
    case SendTlpReady =>
      s.(ctrl := s.ctrl + [TlpReady],
         vcpu := if s.vcpu.wait then VcWait(s.vcpu.tag, DRAIN_GUARD) else VcIdle)
    case RecvCplReady =>
      s.(cpl := s.cpl.(ctrl := s.cpl.ctrl[1..]),
         vcpu := if s.cpl.ctrl[0] == CplReady then VcCpl(s.vcpu.tag, s.vcpu.guard - 1) else VcBroken)
    case RecvCpl =>
      s.(cpl := s.cpl.(data := s.cpl.data[1..], received := s.cpl.received + [s.cpl.data[0]]),
         vcpu := if !s.cpl.data[0].DataCpl? then VcBroken
                 else if s.cpl.data[0].tag == s.vcpu.tag || s.vcpu.guard == 0 then VcIdle
                 else VcWait(s.vcpu.tag, s.vcpu.guard))
    case GuestStore(addr, bytes) => s.(ram := Write(s.ram, addr, bytes))
  }

  predicate PollerEnabled(s: State, a: PollerAct) {
    match a
    // A DMA_DATA at the head of the aux queue matches neither peek: nothing is taken.
    case Take => s.poller == PIdle && s.up.wire != [] && !s.up.wire[0].UpData?
    case RecvUpData => s.poller.PWrite? && s.up.wire != []
    case SendDownData => s.poller.PData?
    case SendDownCpl => s.poller.PCpl?
    case SendDmaDone => s.poller.PSync?
  }

  function DoPoller(s: State, a: PollerAct): State
    requires PollerEnabled(s, a)
  {
    match a
    case Take => DoTake(s)
    case RecvUpData => DoRecvUpData(s)
    case SendDownData =>
      s.(down := s.down.(wire := s.down.wire + [DownData(s.poller.op, s.poller.bytes)]), poller := PCpl(s.poller.op))
    case SendDownCpl =>
      s.(down := s.down.(wire := s.down.wire + [DownCpl(s.poller.op)]), poller := PSync(s.poller.op))
    case SendDmaDone =>
      s.(ctrl := s.ctrl + [DmaDone], poller := PIdle)
  }

  /** One round of the poller's dispatch loop: peek, then take a DMA_REQ or an MSI.
      A read request reads guest memory at once (cosim_dma_cb). */
  function DoTake(s: State): State
    requires PollerEnabled(s, Take)
  {
    var up := s.up.(wire := s.up.wire[1..], queued := Rest(s.up.queued));
    match s.up.wire[0]
    case Msi(vector, mark) =>
      s.(up := up.(interrupts := s.up.interrupts + [Delivery(vector, mark, |s.up.applied|)]))
    case DmaReq(op) =>
      if op.IsRead() then
        var bytes := Load(s.ram.mem, op.addr, Served(op.len));
        s.(up := up, poller := PData(op, bytes),
           down := s.down.(served := s.down.served + [Answer(op, |s.ram.log|, bytes)]))
      else s.(up := up, poller := PWrite(op))
    case UpData(_, _) => s
  }

  function Rest<T>(xs: seq<T>): seq<T> {
    if xs == [] then [] else xs[1..]
  }

  /** recv_dma_data in the callback, then the store to guest memory. */
  function DoRecvUpData(s: State): State
    requires PollerEnabled(s, RecvUpData)
  {
    if !s.up.wire[0].UpData? then s.(up := s.up.(wire := s.up.wire[1..]), poller := PBroken)
    else
      var op := s.poller.op;
      var x := Answer(op, |s.ram.log|, []);
      s.(ram := Write(s.ram, op.addr, s.up.wire[0].bytes), poller := PCpl(op),
         up := s.up.(wire := s.up.wire[1..], applied := s.up.applied + [x]),
         down := s.down.(served := s.down.served + [x]))
  }

  /** The callback's buffer caps what one read returns. */
  function Served(len: nat): nat { if len > 65536 then 65536 else len }

  /** The guard of the DMA entry points; 65536 is what the buffer of the callback holds. */
  predicate DmaArguments(k: Kind, len: nat, bytes: seq<byte>) {
    if k == ReadBytes then bytes == [] && 0 < len else |bytes| == len && 0 < len <= 65536
  }

  /** recv_dma_data writes the answer to a read, whosever it is, into a buffer of 4096 bytes
      without looking at its size.  What the program does after a longer one is left open. */
  predicate Received(m: Down) { m.DownData? && |m.bytes| <= READ_BUFFER }

  predicate DmaEnabled(s: State, a: DmaAct) {
    match a
    case StartDma(k, _, len, bytes) =>
      s.vcs == VIdle && s.link.initialized && DmaArguments(k, len, bytes)
    case SendUpData => s.vcs.VPutData?
    case RecvSync => s.vcs.VWait? && s.vcs.i < DMA_WAIT_ROUNDS && s.ctrl != [] && !s.link.broken
    case RecvTlp => s.vcs.VTlp? && s.tlp.wire != []
    case RecvDownData => s.vcs.VData? && s.down.wire != []
    case RecvDownCpl => s.vcs.VCpl? && s.down.wire != []
    // All rounds are used up, or recv_sync fails; it blocks as long as the connection is alive.
    case Abandon => s.vcs.VWait? && (s.vcs.i >= DMA_WAIT_ROUNDS || s.link.broken)
  }

  function DoDma(s: State, a: DmaAct): State
    requires DmaEnabled(s, a)
  {
    match a
    case StartDma(k, addr, len, bytes) => Start(s, Op(k, s.count.Of(k), addr, len, bytes, |s.ram.log|))
    case SendUpData =>
      s.(up := s.up.(wire := s.up.wire + [UpData(s.vcs.op, s.vcs.op.bytes)]), vcs := VWait(s.vcs.op, 0))
    case RecvSync => s.(ctrl := s.ctrl[1..], vcs := AfterSync(s.vcs.op, s.vcs.i, s.ctrl[0]))
    case RecvTlp => Cache(s, VWait(s.vcs.op, s.vcs.i + 1))
    case RecvDownData =>
      s.(down := s.down.(wire := s.down.wire[1..]),
         vcs := if Received(s.down.wire[0]) then VCpl(s.vcs.op, s.vcs.i, [s.down.wire[0]]) else VBroken)
    case RecvDownCpl =>
      s.(down := s.down.(wire := s.down.wire[1..], served := Rest(s.down.served)), vcs := AfterCpl(s))
    case Abandon => s.(vcs := VIdle)
  }

  function Start(s: State, op: Op): State {
    s.(count := s.count.Next(op.kind),
       up := s.up.(wire := s.up.wire + [DmaReq(op)], queued := s.up.queued + [OpItem(op)],
                   issued := if op.IsRead() then s.up.issued else s.up.issued + [op]),
       vcs := if op.IsRead() then VWait(op, 0) else VPutData(op))
  }

  function AfterSync(op: Op, i: nat, msg: Ctrl): VcsPc {
    match msg
    case TlpReady => VTlp(op, i)
    case DmaDone => if op.IsRead() then VData(op, i) else VCpl(op, i, [])
    case CplReady => VWait(op, i + 1)
  }

  /** The completion about to be received carries the tag waited for: the call returns 0. */
  predicate Matches(s: State)
    requires DmaEnabled(s, RecvDownCpl)
  {
    s.down.wire[0].DownCpl? && s.down.wire[0].op.Tag() == s.vcs.op.Tag()
  }

  /** recv_dma_cpl in the wait loop.  On a tag mismatch a read drops the pair and keeps
      waiting; a write gives up. */
  function AfterCpl(s: State): VcsPc
    requires DmaEnabled(s, RecvDownCpl)
  {
    if !s.down.wire[0].DownCpl? then VBroken
    else if Matches(s) then VIdle
    else if s.vcs.op.IsRead() then VWait(s.vcs.op, s.vcs.i + 1)
    else VIdle
  }

  /** recv_tlp, then tlp_cache_push_ctx: one slot of the ring stays empty, and a TLP that
      does not fit is lost. */
  function Cache(s: State, next: VcsPc): (s': State)
    requires s.tlp.wire != []
    ensures s' == s.(tlp := s'.tlp, vcs := s'.vcs)
  {
    var t, rest := s.tlp.wire[0], s.tlp.wire[1..];
    if !t.DataTlp? then s.(tlp := s.tlp.(wire := rest), vcs := VBroken)
    else if |s.tlp.cache| + 1 < TLP_CACHE_SIZE then
      s.(tlp := s.tlp.(wire := rest, cache := s.tlp.cache + [t]), vcs := next)
    else s.(tlp := s.tlp.(wire := rest, drops := s.tlp.drops + 1), vcs := next)
  }

  predicate PollEnabled(s: State, a: PollAct) {
    match a
    case PollStart => s.vcs == VIdle
    case DrainSync => s.vcs == VDrain && s.ctrl != [] && !s.link.broken
    case DrainTlp => s.vcs == VDrainTlp && s.tlp.wire != []
    // The socket looked empty; messages may be on their way.
    case DrainEnd => s.vcs == VDrain
    case TimedSync => s.vcs == VTimed && s.ctrl != [] && !s.link.broken
    case TimedTlp => s.vcs == VTimedTlp && s.tlp.wire != []
    case Timeout => s.vcs == VTimed
    case PollFails => (s.vcs == VDrain || s.vcs == VTimed) && s.link.broken
  }

  function DoPoll(s: State, a: PollAct): State
    requires PollEnabled(s, a)
  {
    match a
    case PollStart => Deliver(s, VDrain)
    case DrainSync => PollSync(s, VDrainTlp, VDrain)
    case DrainTlp => Cache(s, VDrain)
    case DrainEnd => Deliver(s, VTimed)
    case TimedSync => PollSync(s, VTimedTlp, VIdle)
    case TimedTlp =>
      var t, rest := s.tlp.wire[0], s.tlp.wire[1..];
      if t.DataTlp? then s.(tlp := s.tlp.(wire := rest, delivered := s.tlp.delivered + [t]), vcs := VIdle)
      else s.(tlp := s.tlp.(wire := rest), vcs := VBroken)
    case Timeout => s.(vcs := VIdle)
    case PollFails => s.(vcs := VIdle)
  }

  /** A poll acts on TLP_READY only; any other notification is thrown away. */
  function PollSync(s: State, ready: VcsPc, other: VcsPc): State
    requires s.ctrl != []
  {
    s.(ctrl := s.ctrl[1..], vcs := if s.ctrl[0] == TlpReady then ready else other,
       down := s.down.(discarded := if s.ctrl[0] == DmaDone then s.down.discarded + 1 else s.down.discarded))
  }

  /** tlp_cache_pop_ctx: hand the oldest cached TLP to the caller, or go on to `next`. */
  function Deliver(s: State, next: VcsPc): (s': State)
    ensures s' == s.(tlp := s'.tlp, vcs := s'.vcs)
  {
    if s.tlp.cache == [] then s.(vcs := next)
    else s.(tlp := s.tlp.(cache := s.tlp.cache[1..], delivered := s.tlp.delivered + [s.tlp.cache[0]]), vcs := VIdle)
  }

  predicate NotifyEnabled(s: State, a: NotifyAct) {
    match a
    case RaiseMsi(_) => s.vcs == VIdle
    case SendCpl(_, _) => s.vcs == VIdle
    case SendCplReady => s.vcs == VCplSync
  }

  function DoNotify(s: State, a: NotifyAct): State
    requires NotifyEnabled(s, a)
  {
    match a
    case RaiseMsi(vector) =>
      var mark := |s.up.issued|;
      s.(up := s.up.(wire := s.up.wire + [Msi(vector, mark)], queued := s.up.queued + [MsiItem(vector, mark)]))
    case SendCpl(tag, body) => s.(cpl := s.cpl.(data := s.cpl.data + [DataCpl(tag, body)]), vcs := VCplSync)
    case SendCplReady => s.(cpl := s.cpl.(ctrl := s.cpl.ctrl + [CplReady]), vcs := VIdle)
  }

  predicate Enabled(s: State, a: Action) {
    match a
    case Vcpu(v) => VcpuEnabled(s, v)
    case Poller(p) => PollerEnabled(s, p)
    case Dma(d) => DmaEnabled(s, d)
    case Poll(q) => PollEnabled(s, q)
    case Notify(t) => NotifyEnabled(s, t)
    case LinkFails => !s.link.broken
  }

  function Do(s: State, a: Action): State
    requires Enabled(s, a)
  {
    match a
    case Vcpu(v) => DoVcpu(s, v)
    case Poller(p) => DoPoller(s, p)
    case Dma(d) => DoDma(s, d)
    case Poll(q) => DoPoll(s, q)
    case Notify(t) => DoNotify(s, t)
    case LinkFails => s.(link := s.link.(broken := true))
  }

  // ---------- runs ----------

  ghost predicate Legal(s: State, run: seq<Action>)
    decreases |run|
  {
    run == [] || (Enabled(s, run[0]) && Legal(Do(s, run[0]), run[1..]))
  }

  ghost function Exec(s: State, run: seq<Action>): State
    requires Legal(s, run)
    decreases |run|
  {
    if run == [] then s else Exec(Do(s, run[0]), run[1..])
  }

  /** Reachable from power-on by some run. */
  ghost predicate Reachable(s: State) {
    exists init: bool, run: seq<Action> :: Legal(Initial(init), run) && Exec(Initial(init), run) == s
  }
}
