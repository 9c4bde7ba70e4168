/** What every action of the three-connection protocol keeps. */
module TcpInvariants {
  import opened GuestMemory
  import opened TcpProtocol
  import opened Subsequences

  function B(b: bool): nat { if b then 1 else 0 }

  // ---------- TLPs: one TLP_READY per TLP, order kept ----------

  /** The VCS thread has taken a TLP_READY and is about to receive its TLP. */
  predicate TlpDue(v: VcsPc) { v.VTlp? || v.VDrainTlp? || v.VTimedTlp? }

  ghost predicate Notified(ctrl: seq<Ctrl>, data: seq<Data>, ready: bool, due: bool) {
    && (forall i :: 0 <= i < |data| ==> data[i].DataTlp?)
    && CplReady !in ctrl
    && multiset(ctrl)[TlpReady] + B(ready) + B(due) == |data|
  }

  /** `waiting` is everything sent that has been neither delivered nor lost. */
  ghost predicate InOrder(delivered: seq<Data>, waiting: seq<Data>, drops: nat, sent: seq<Data>) {
    && IsSubseq(delivered + waiting, sent)
    && |delivered| + |waiting| + drops == |sent|
  }

  ghost predicate InvTlp(s: State) {
    && Notified(s.ctrl, s.tlp.wire, s.vcpu.VcReady?, TlpDue(s.vcs))
    && InOrder(s.tlp.delivered, s.tlp.cache + s.tlp.wire, s.tlp.drops, s.tlp.sent)
    && |s.tlp.cache| < TLP_CACHE_SIZE
    && (s.vcs.VTimed? || s.vcs.VTimedTlp? ==> s.tlp.cache == [])
  }

  // ---------- completions: one CPL_READY per completion ----------

  ghost predicate InvCpl(s: State) {
    && (forall i :: 0 <= i < |s.cpl.data| ==> s.cpl.data[i].DataCpl?)
    && (forall i :: 0 <= i < |s.cpl.ctrl| ==> s.cpl.ctrl[i] == CplReady)
    && |s.cpl.ctrl| + B(s.vcs.VCplSync?) + B(s.vcpu.VcCpl?) == |s.cpl.data|
    && !s.vcpu.VcBroken?
    && (s.vcpu.VcWait? ==> s.vcpu.guard > 0)
  }

  // ---------- VCS to QEMU on aux: whole message groups, in order ----------

  function UpMsgs(x: Item): (r: seq<Up>) {
    match x
    case OpItem(op) => if op.IsRead() then [DmaReq(op)] else [DmaReq(op), UpData(op, op.bytes)]
    case MsiItem(vector, mark) => [Msi(vector, mark)]
  }

  function FlatUp(xs: seq<Item>): seq<Up> {
    if xs == [] then [] else UpMsgs(xs[0]) + FlatUp(xs[1..])
  }

  function WritesOf(xs: seq<Item>): seq<Op> {
    if xs == [] then []
    else (if xs[0].OpItem? && !xs[0].op.IsRead() then [xs[0].op] else []) + WritesOf(xs[1..])
  }

  /** Data of a write whose request the poller has already taken. */
  function UpExpected(p: PollerPc): seq<Up> {
    if p.PWrite? then [UpData(p.op, p.op.bytes)] else []
  }

  /** Data of a write that the VCS thread has still to send. */
  function UpOwed(v: VcsPc): seq<Up> {
    if v.VPutData? then [UpData(v.op, v.op.bytes)] else []
  }

  function Pending(p: PollerPc): seq<Op> {
    if p.PWrite? then [p.op] else []
  }

  function Answered(xs: seq<Answer>): seq<Op> {
    if xs == [] then [] else [xs[0].op] + Answered(xs[1..])
  }

  ghost predicate InvUp(s: State) {
    && s.up.wire + UpOwed(s.vcs) == UpExpected(s.poller) + FlatUp(s.up.queued)
    && (s.vcs.VPutData? ==> !s.vcs.op.IsRead())
    && (s.poller.PWrite? ==> !s.poller.op.IsRead())
    && !s.poller.PBroken?
  }

  /** An MSI in the queue is behind exactly the writes issued before it was raised. */
  ghost predicate Marked(queued: seq<Item>, before: nat) {
    forall j :: 0 <= j < |queued| && queued[j].MsiItem? ==> queued[j].mark == before + |WritesOf(queued[..j])|
  }

  /** `taken` is the write the poller holds, if it holds one. */
  ghost predicate Ordered(up: UpPath, taken: seq<Op>) {
    && Answered(up.applied) + taken + WritesOf(up.queued) == up.issued
    && (forall k :: 0 <= k < |up.issued| ==> !up.issued[k].IsRead())
    && Marked(up.queued, |up.applied| + |taken|)
    && (forall j :: 0 <= j < |up.interrupts| ==> up.interrupts[j].mark == up.interrupts[j].applied)
  }

  ghost predicate InvMsi(s: State) {
    Ordered(s.up, Pending(s.poller))
  }

  // ---------- QEMU to VCS: answers, in order ----------

  function DownMsgs(x: Answer): (r: seq<Down>) {
    if x.op.IsRead() then [DownData(x.op, x.data), DownCpl(x.op)] else [DownCpl(x.op)]
  }

  function FlatDown(xs: seq<Answer>): seq<Down> {
    if xs == [] then [] else DownMsgs(xs[0]) + FlatDown(xs[1..])
  }

  predicate Busy(p: PollerPc) { p.PData? || p.PCpl? || p.PSync? }

  /** What the poller has still to send of the answer it is working on. */
  function DownOwed(p: PollerPc): seq<Down> {
    match p
    case PData(op, bytes) => [DownData(op, bytes), DownCpl(op)]
    case PCpl(op) => [DownCpl(op)]
    case _ => []
  }

  /** What the VCS thread has already taken of the oldest answer. */
  function DownTaken(v: VcsPc): seq<Down> {
    if v.VCpl? then v.got else []
  }

  predicate Waiting(v: VcsPc) { v.VPutData? || v.VWait? || v.VTlp? || v.VData? || v.VCpl? }

  function OpsOf(xs: seq<Item>): seq<Op> {
    if xs == [] then [] else (if xs[0].OpItem? then [xs[0].op] else []) + OpsOf(xs[1..])
  }

  /** DMAs whose answer the VCS thread has not consumed, oldest first. */
  function Outstanding(s: State): seq<Op> {
    Answered(s.down.served) + Pending(s.poller) + OpsOf(s.up.queued)
  }

  /** The bytes of every answer are on the wire, or already taken, or still to be sent. */
  ghost predicate Stream(taken: seq<Down>, wire: seq<Down>, owed: seq<Down>, served: seq<Answer>) {
    taken + wire + owed == FlatDown(served)
  }

  /** One notification per answer: in the ctrl connection, not yet sent, being acted on, or
      thrown away by a poll. */
  ghost predicate Counted(ctrl: seq<Ctrl>, busy: bool, got: bool, discarded: nat, served: nat) {
    multiset(ctrl)[DmaDone] + B(busy) + B(got) + discarded == served
  }

  predicate Got(v: VcsPc) { v.VData? || v.VCpl? }

  ghost predicate BusyLast(p: PollerPc, served: seq<Answer>) {
    && (Busy(p) ==> served != [] && served[|served| - 1].op == p.op)
    && (p.PData? ==> p.op.IsRead())
  }

  ghost predicate Shape(v: VcsPc) {
    && (v.VCpl? ==> if v.op.IsRead() then |v.got| == 1 && Received(v.got[0]) else v.got == [])
    && (v.VData? ==> v.op.IsRead())
  }

  /** The DMA the VCS thread waits for is the youngest outstanding one. */
  ghost predicate Youngest(v: VcsPc, out: seq<Op>) {
    Waiting(v) ==> out != [] && out[|out| - 1] == v.op
  }

  ghost predicate InvDown(s: State) {
    s.vcs.VBroken? || (
      && Stream(DownTaken(s.vcs), s.down.wire, DownOwed(s.poller), s.down.served)
      && Counted(s.ctrl, Busy(s.poller), Got(s.vcs), s.down.discarded, |s.down.served|)
      && BusyLast(s.poller, s.down.served)
      && Shape(s.vcs)
      && Youngest(s.vcs, Outstanding(s)))
  }

  // ---------- guest memory ----------

  function Replay(log: seq<MemEvent>): Memory {
    if log == [] then map[]
    else Store(Replay(log[..|log| - 1]), log[|log| - 1].addr, log[|log| - 1].bytes)
  }

  /** The answer took effect at one point of the log, after the operation was started: a
      read returns memory as it stood there, a write is the event there. */
  ghost predicate Linearized(log: seq<MemEvent>, x: Answer) {
    && x.op.since <= x.at <= |log|
    && if x.op.IsRead() then x.data == Load(Replay(log[..x.at]), x.op.addr, Served(x.op.len))
       else x.at < |log| && log[x.at] == MemEvent(x.op.addr, x.op.bytes)
  }

  ghost predicate AllLinearized(log: seq<MemEvent>, xs: seq<Answer>) {
    forall j :: 0 <= j < |xs| ==> Linearized(log, xs[j])
  }

  /** No request waiting to be served was started in the future. */
  ghost predicate Started(xs: seq<Item>, now: nat) {
    forall j :: 0 <= j < |xs| && xs[j].OpItem? ==> xs[j].op.since <= now
  }

  ghost predicate InvMem(s: State) {
    && s.ram.mem == Replay(s.ram.log)
    && AllLinearized(s.ram.log, s.down.served)
    && AllLinearized(s.ram.log, s.up.applied)
    && Started(s.up.queued, |s.ram.log|)
    && (s.poller.PWrite? ==> s.poller.op.since <= |s.ram.log|)
  }

  // ---------- operation numbers ----------

  predicate Proper(o: Op, count: Counters) {
    o.n < count.Of(o.kind) && DmaArguments(o.kind, o.len, o.bytes)
  }

  /** Outstanding operations are numbered below the counters, each number once. */
  ghost predicate Numbered(out: seq<Op>, count: Counters) {
    && (forall i :: 0 <= i < |out| ==> Proper(out[i], count))
    && (forall i, j :: 0 <= i < j < |out| ==> out[i].kind != out[j].kind || out[i].n != out[j].n)
  }

  ghost predicate InvNumbers(s: State) {
    Numbered(Outstanding(s), s.count)
  }

  ghost predicate All(s: State) {
    InvTlp(s) && InvCpl(s) && InvUp(s) && InvMsi(s) && InvDown(s) && InvMem(s) && InvNumbers(s)
  }

  /** The invariant, taken apart only where All itself is mentioned. */
  ghost predicate Inv(s: State) {
    forall x {:trigger All(x)} :: x == s ==> All(x)
  }

  lemma UpHolds(s: State)
    requires Inv(s)
    ensures InvUp(s)
  {
    assert All(s);
  }

  lemma DownHolds(s: State)
    requires Inv(s)
    ensures InvDown(s)
  {
    assert All(s);
  }

  lemma TlpHolds(s: State)
    requires Inv(s)
    ensures InvTlp(s)
  {
    assert All(s);
  }

  lemma MemHolds(s: State)
    requires Inv(s)
    ensures InvMem(s)
  {
    assert All(s);
  }

  lemma NumbersHold(s: State)
    requires Inv(s)
    ensures InvNumbers(s)
  {
    assert All(s);
  }

  // ---------- preservation ----------

  /** What the threads leave alone. */
  lemma VcpuLeaves(s: State, a: VcpuAct)
    requires VcpuEnabled(s, a)
    ensures var s' := DoVcpu(s, a);
      && s'.up == s.up && s'.down == s.down && s'.poller == s.poller && s'.vcs == s.vcs && s'.count == s.count && s'.link == s.link
      && s'.tlp.cache == s.tlp.cache && s'.tlp.delivered == s.tlp.delivered && s'.tlp.drops == s.tlp.drops
      && (s'.ctrl == s.ctrl || s'.ctrl == s.ctrl + [TlpReady])
  {
  }

  lemma PollerLeaves(s: State, a: PollerAct)
    requires PollerEnabled(s, a)
    ensures var s' := DoPoller(s, a);
      && s'.tlp == s.tlp && s'.cpl == s.cpl && s'.vcpu == s.vcpu && s'.vcs == s.vcs && s'.count == s.count && s'.link == s.link
      && (s'.ctrl == s.ctrl || s'.ctrl == s.ctrl + [DmaDone])
  {
  }

  lemma PollLeaves(s: State, a: PollAct)
    requires PollEnabled(s, a)
    ensures var s' := DoPoll(s, a);
      && s'.up == s.up && s'.cpl == s.cpl && s'.vcpu == s.vcpu && s'.poller == s.poller && s'.count == s.count && s'.ram == s.ram
      && s'.down.wire == s.down.wire && s'.down.served == s.down.served && s'.link == s.link
      && !s'.vcs.VPutData? && !Waiting(s'.vcs) && !s.vcs.VPutData? && !s'.vcs.VCplSync? && !s.vcs.VCplSync?
  {
  }


  lemma Head<T>(q: seq<T>)
    requires q != []
    ensures multiset(q) == multiset{q[0]} + multiset(q[1..])
  {
    assert q == [q[0]] + q[1..];
  }

  lemma TlpVcpu(s: State, a: VcpuAct)
    requires InvTlp(s) && VcpuEnabled(s, a)
    ensures InvTlp(DoVcpu(s, a))
  {
    if a.SendTlp? {
      var s' := DoVcpu(s, a);
      var t := DataTlp(a.tag, a.body);
      assert s'.tlp.delivered + (s'.tlp.cache + s'.tlp.wire) == (s.tlp.delivered + (s.tlp.cache + s.tlp.wire)) + [t];
      AppendBoth(s.tlp.delivered + (s.tlp.cache + s.tlp.wire), s.tlp.sent, t);
    }
  }

  lemma TlpPoller(s: State, a: PollerAct)
    requires InvTlp(s) && PollerEnabled(s, a)
    ensures InvTlp(DoPoller(s, a))
  {
    PollerLeaves(s, a);
  }

  lemma TlpDma(s: State, a: DmaAct)
    requires InvTlp(s) && DmaEnabled(s, a)
    ensures InvTlp(DoDma(s, a))
  {
    match a {
      case RecvSync => TlpRecvSync(s);
      case RecvTlp => CacheFirst(s, VWait(s.vcs.op, s.vcs.i + 1));
      case _ =>
    }
  }

  lemma TlpRecvSync(s: State)
    requires InvTlp(s) && DmaEnabled(s, RecvSync)
    ensures InvTlp(DoDma(s, RecvSync))
  {
    Head(s.ctrl);
  }

  lemma TlpPollSync(s: State, ready: VcsPc, other: VcsPc)
    requires InvTlp(s) && s.ctrl != [] && !TlpDue(s.vcs) && TlpDue(ready) && !TlpDue(other)
    requires other.VTimed? || ready.VTimedTlp? ==> s.tlp.cache == []
    ensures InvTlp(PollSync(s, ready, other))
  {
    Head(s.ctrl);
  }

  lemma TlpTimed(s: State)
    requires InvTlp(s) && PollEnabled(s, TimedTlp)
    ensures InvTlp(DoPoll(s, TimedTlp))
  {
    var d, q := s.tlp.delivered, s.tlp.wire;
    NotifiedRest(s.ctrl, q, s.vcpu.VcReady?);
    assert d + (s.tlp.cache + q) == (d + [q[0]]) + (s.tlp.cache + q[1..]);
  }

  lemma TlpPoll(s: State, a: PollAct)
    requires InvTlp(s) && PollEnabled(s, a)
    ensures InvTlp(DoPoll(s, a))
  {
    match a {
      case PollStart => DeliverFirst(s, VDrain);
      case DrainSync => TlpPollSync(s, VDrainTlp, VDrain);
      case DrainTlp => CacheFirst(s, VDrain);
      case DrainEnd => DeliverFirst(s, VTimed);
      case TimedSync => TlpPollSync(s, VTimedTlp, VIdle);
      case TimedTlp => TlpTimed(s);
      case Timeout =>
      case PollFails =>
    }
  }

  lemma TlpNotify(s: State, a: NotifyAct)
    requires InvTlp(s) && NotifyEnabled(s, a)
    ensures InvTlp(DoNotify(s, a))
  {
  }

  /** Taking a TLP from the connection into the cache loses at most that TLP. */
  lemma CacheFirst(s: State, next: VcsPc)
    requires InvTlp(s) && s.tlp.wire != [] && TlpDue(s.vcs) && !TlpDue(next)
    requires !next.VTimed? && !s.vcs.VTimedTlp?
    ensures InvTlp(Cache(s, next))
  {
    TakeFirst(s.tlp.delivered, s.tlp.cache, s.tlp.wire, s.tlp.drops, s.tlp.sent);
    NotifiedRest(s.ctrl, s.tlp.wire, s.vcpu.VcReady?);
  }

  lemma NotifiedRest(ctrl: seq<Ctrl>, data: seq<Data>, ready: bool)
    requires data != [] && Notified(ctrl, data, ready, true)
    ensures Notified(ctrl, data[1..], ready, false)
  {
  }

  lemma TakeFirst(d: seq<Data>, c: seq<Data>, q: seq<Data>, drops: nat, sent: seq<Data>)
    requires q != [] && InOrder(d, c + q, drops, sent)
    ensures InOrder(d, (c + [q[0]]) + q[1..], drops, sent)
    ensures InOrder(d, c + q[1..], drops + 1, sent)
  {
    assert (c + [q[0]]) + q[1..] == c + q;
    assert d + (c + q) == (d + c) + [q[0]] + q[1..];
    DropOne(d + c, q[0], q[1..], sent);
    assert d + (c + q[1..]) == (d + c) + q[1..];
  }

  lemma DeliverFirst(s: State, next: VcsPc)
    requires InvTlp(s) && !TlpDue(s.vcs) && !TlpDue(next)
    ensures InvTlp(Deliver(s, next))
  {
    if s.tlp.cache != [] {
      assert s.tlp.delivered + (s.tlp.cache + s.tlp.wire) == (s.tlp.delivered + [s.tlp.cache[0]]) + (s.tlp.cache[1..] + s.tlp.wire);
    }
  }

  lemma CplVcpu(s: State, a: VcpuAct)
    requires InvCpl(s) && VcpuEnabled(s, a)
    ensures InvCpl(DoVcpu(s, a))
  {
  }

  lemma CplPoller(s: State, a: PollerAct)
    requires InvCpl(s) && PollerEnabled(s, a)
    ensures InvCpl(DoPoller(s, a))
  {
  }

  lemma CplDma(s: State, a: DmaAct)
    requires InvCpl(s) && DmaEnabled(s, a)
    ensures InvCpl(DoDma(s, a))
  {
  }

  lemma CplPoll(s: State, a: PollAct)
    requires InvCpl(s) && PollEnabled(s, a)
    ensures InvCpl(DoPoll(s, a))
  {
    PollLeaves(s, a);
  }

  lemma CplNotify(s: State, a: NotifyAct)
    requires InvCpl(s) && NotifyEnabled(s, a)
    ensures InvCpl(DoNotify(s, a))
  {
  }

  lemma FlatUpAppend(xs: seq<Item>, x: Item)
    ensures FlatUp(xs + [x]) == FlatUp(xs) + UpMsgs(x)
  {
    if xs == [] {
      assert xs + [x] == [x];
    } else {
      assert (xs + [x])[1..] == xs[1..] + [x];
      FlatUpAppend(xs[1..], x);
    }
  }

  lemma ConsAppend<T>(xs: seq<T>, x: T)
    requires xs != []
    ensures (xs + [x])[0] == xs[0] && (xs + [x])[1..] == xs[1..] + [x]
  {
  }

  lemma Assoc<T>(a: seq<T>, b: seq<T>, c: seq<T>)
    ensures a + (b + c) == (a + b) + c
  {
  }

  lemma {:induction false} WritesOfAppend(xs: seq<Item>, x: Item)
    ensures WritesOf(xs + [x]) == WritesOf(xs) + WritesOf([x])
  {
    if xs == [] {
      assert xs + [x] == [x];
    } else {
      ConsAppend(xs, x);
      WritesOfAppend(xs[1..], x);
      Assoc(if xs[0].OpItem? && !xs[0].op.IsRead() then [xs[0].op] else [], WritesOf(xs[1..]), WritesOf([x]));
    }
  }

  lemma UpVcpu(s: State, a: VcpuAct)
    requires InvUp(s) && VcpuEnabled(s, a)
    ensures InvUp(DoVcpu(s, a))
  {
    VcpuLeaves(s, a);
  }

  lemma UpTake(s: State)
    requires InvUp(s) && PollerEnabled(s, Take)
    ensures InvUp(DoTake(s))
    ensures s.up.queued != []
    ensures match s.up.wire[0]
            case DmaReq(op) => s.up.queued[0] == OpItem(op)
            case Msi(vector, mark) => s.up.queued[0] == MsiItem(vector, mark)
            case UpData(_, _) => false
  {
    UpFirst(s);
    RestOfWire(s.up.wire, UpOwed(s.vcs), UpMsgs(s.up.queued[0]), FlatUp(s.up.queued[1..]));
    assert [] + FlatUp(s.up.queued) == FlatUp(s.up.queued);
  }

  /** The first message of the first group is taken. */
  lemma RestOfWire(wire: seq<Up>, owed: seq<Up>, group: seq<Up>, more: seq<Up>)
    requires wire != [] && group != [] && wire + owed == group + more
    ensures wire[1..] + owed == group[1..] + more
  {
    assert wire[1..] + owed == (wire + owed)[1..];
    assert group[1..] + more == (group + more)[1..];
  }

  lemma UpFirst(s: State)
    requires InvUp(s) && s.poller == PIdle && s.up.wire != []
    ensures s.up.queued != [] && s.up.wire[0] == UpMsgs(s.up.queued[0])[0]
  {
    assert s.up.wire[0] == (s.up.wire + UpOwed(s.vcs))[0];
    assert s.up.queued != [];
    assert FlatUp(s.up.queued)[0] == UpMsgs(s.up.queued[0])[0];
  }

  lemma UpRecv(s: State)
    requires InvUp(s) && PollerEnabled(s, RecvUpData)
    ensures InvUp(DoPoller(s, RecvUpData))
    ensures s.up.wire[0] == UpData(s.poller.op, s.poller.op.bytes)
  {
    assert s.up.wire[0] == (s.up.wire + UpOwed(s.vcs))[0];
    assert s.up.wire[1..] + UpOwed(s.vcs) == (s.up.wire + UpOwed(s.vcs))[1..];
  }

  lemma UpPoller(s: State, a: PollerAct)
    requires InvUp(s) && PollerEnabled(s, a)
    ensures InvUp(DoPoller(s, a))
  {
    match a {
      case Take => UpTake(s);
      case RecvUpData => UpRecv(s);
      case _ =>
    }
  }

  lemma UpStart(s: State, op: Op)
    requires InvUp(s) && s.vcs == VIdle
    ensures InvUp(Start(s, op))
  {
    FlatUpAppend(s.up.queued, OpItem(op));
    var s' := Start(s, op);
    assert s'.up.wire + UpOwed(s'.vcs) == (s.up.wire + UpOwed(s.vcs)) + UpMsgs(OpItem(op));
  }

  lemma UpDma(s: State, a: DmaAct)
    requires InvUp(s) && DmaEnabled(s, a)
    ensures InvUp(DoDma(s, a))
  {
    match a {
      case StartDma(k, addr, len, bytes) => UpStart(s, Op(k, s.count.Of(k), addr, len, bytes, |s.ram.log|));
      case _ =>
    }
  }

  lemma UpPoll(s: State, a: PollAct)
    requires InvUp(s) && PollEnabled(s, a)
    ensures InvUp(DoPoll(s, a))
  {
    PollLeaves(s, a);
  }

  lemma UpNotify(s: State, a: NotifyAct)
    requires InvUp(s) && NotifyEnabled(s, a)
    ensures InvUp(DoNotify(s, a))
  {
    if a.RaiseMsi? {
      FlatUpAppend(s.up.queued, MsiItem(a.vector, |s.up.issued|));
      var s' := DoNotify(s, a);
      assert s'.up.wire + UpOwed(s'.vcs) == (s.up.wire + UpOwed(s.vcs)) + [Msi(a.vector, |s.up.issued|)];
    }
  }

  // ---------- interrupts ----------

  /** Dropping the oldest item keeps the marks, if its write (if it is one) is counted in
      front of the queue from then on. */
  lemma MarkedRest(xs: seq<Item>, before: nat)
    requires xs != [] && Marked(xs, before)
    ensures Marked(xs[1..], before + |WritesOf(xs[..1])|)
  {
    forall j | 0 <= j < |xs| - 1 && xs[1..][j].MsiItem?
      ensures xs[1..][j].mark == before + |WritesOf(xs[..1])| + |WritesOf(xs[1..][..j])|
    {
      assert xs[..j + 1][1..] == xs[1..][..j];
      assert xs[..1][1..] == [];
      assert xs[j + 1].mark == before + |WritesOf(xs[..j + 1])|;
    }
  }

  lemma MarkedAppend(xs: seq<Item>, x: Item, before: nat)
    requires Marked(xs, before) && (x.MsiItem? ==> x.mark == before + |WritesOf(xs)|)
    ensures Marked(xs + [x], before)
  {
    forall j | 0 <= j < |xs| + 1 && (xs + [x])[j].MsiItem?
      ensures (xs + [x])[j].mark == before + |WritesOf((xs + [x])[..j])|
    {
      assert (xs + [x])[..j] == xs[..j];
      assert xs[..|xs|] == xs;
    }
  }

  lemma OrderedTake(up: UpPath, up': UpPath, taken: seq<Op>)
    requires up.queued != [] && Ordered(up, [])
    requires up'.queued == up.queued[1..] && up'.applied == up.applied && up'.issued == up.issued
    requires taken == WritesOf(up.queued[..1])
    requires up'.interrupts == up.interrupts || (up.queued[0].MsiItem? &&
      up'.interrupts == up.interrupts + [Delivery(up.queued[0].vector, up.queued[0].mark, |up.applied|)])
    ensures Ordered(up', taken)
  {
    var xs := up.queued;
    MarkedRest(xs, |up.applied|);
    assert xs[..1][1..] == [] && xs[..0] == [] && Answered(up.applied) + [] == Answered(up.applied);
    assert WritesOf(xs) == taken + WritesOf(xs[1..]);
  }

  lemma MsiTake(s: State)
    requires InvUp(s) && InvMsi(s) && PollerEnabled(s, Take)
    ensures InvMsi(DoTake(s))
  {
    UpTake(s);
    var s' := DoTake(s);
    assert s.up.queued[..1] == [s.up.queued[0]] && s.up.queued[..1][1..] == [];
    OrderedTake(s.up, s'.up, Pending(s'.poller));
  }

  /** An MSI at the head of the aux queue finds exactly the writes issued before it was
      raised applied. */
  lemma MsiHead(s: State)
    requires InvUp(s) && InvMsi(s) && PollerEnabled(s, Take) && s.up.wire[0].Msi?
    ensures s.up.wire[0].mark == |s.up.applied| && Answered(s.up.applied) <= s.up.issued
  {
    UpTake(s);
    assert s.up.queued[..0] == [];
  }

  lemma MsiPoller(s: State, a: PollerAct)
    requires InvUp(s) && InvMsi(s) && PollerEnabled(s, a)
    ensures InvMsi(DoPoller(s, a))
  {
    match a {
      case Take => MsiTake(s);
      case RecvUpData =>
        UpRecv(s);
        var s' := DoPoller(s, a);
        AnsweredAppend(s.up.applied, Answer(s.poller.op, |s.ram.log|, []));
        assert Answered(s'.up.applied) + [] == Answered(s.up.applied) + Pending(s.poller);
      case _ =>
    }
  }

  lemma MsiVcpu(s: State, a: VcpuAct)
    requires InvMsi(s) && VcpuEnabled(s, a)
    ensures InvMsi(DoVcpu(s, a))
  {
    VcpuLeaves(s, a);
  }

  lemma OrderedStart(up: UpPath, taken: seq<Op>, op: Op)
    requires Ordered(up, taken)
    ensures Ordered(up.(queued := up.queued + [OpItem(op)], issued := if op.IsRead() then up.issued else up.issued + [op]), taken)
  {
    var x := OpItem(op);
    WritesOfAppend(up.queued, x);
    MarkedAppend(up.queued, x, |up.applied| + |taken|);
    assert WritesOf([x]) == if op.IsRead() then [] else [op];
    assert Answered(up.applied) + taken + (WritesOf(up.queued) + WritesOf([x])) == up.issued + WritesOf([x]);
  }

  lemma MsiStart(s: State, a: DmaAct)
    requires InvMsi(s) && DmaEnabled(s, a) && a.StartDma?
    ensures InvMsi(DoDma(s, a))
  {
    OrderedStart(s.up, Pending(s.poller), Op(a.kind, s.count.Of(a.kind), a.addr, a.len, a.bytes, |s.ram.log|));
  }

  lemma MsiDma(s: State, a: DmaAct)
    requires InvMsi(s) && DmaEnabled(s, a)
    ensures InvMsi(DoDma(s, a))
  {
    if a.StartDma? { MsiStart(s, a); }
  }

  lemma MsiPoll(s: State, a: PollAct)
    requires InvMsi(s) && PollEnabled(s, a)
    ensures InvMsi(DoPoll(s, a))
  {
    PollLeaves(s, a);
  }

  lemma MsiNotify(s: State, a: NotifyAct)
    requires InvMsi(s) && NotifyEnabled(s, a)
    ensures InvMsi(DoNotify(s, a))
  {
    if a.RaiseMsi? {
      var x := MsiItem(a.vector, |s.up.issued|);
      WritesOfAppend(s.up.queued, x);
      AnsweredLength(s.up.applied);
      MarkedAppend(s.up.queued, x, |s.up.applied| + |Pending(s.poller)|);
    }
  }

  // ---------- answers ----------

  lemma FlatDownAppend(xs: seq<Answer>, x: Answer)
    ensures FlatDown(xs + [x]) == FlatDown(xs) + DownMsgs(x)
  {
    if xs == [] {
      assert xs + [x] == [x];
    } else {
      assert (xs + [x])[1..] == xs[1..] + [x];
      FlatDownAppend(xs[1..], x);
    }
  }

  lemma AnsweredAppend(xs: seq<Answer>, x: Answer)
    ensures Answered(xs + [x]) == Answered(xs) + [x.op]
  {
    if xs == [] {
      assert xs + [x] == [x];
    } else {
      assert (xs + [x])[1..] == xs[1..] + [x];
      AnsweredAppend(xs[1..], x);
    }
  }

  lemma AnsweredLength(xs: seq<Answer>)
    ensures |Answered(xs)| == |xs|
  {
  }

  lemma {:induction false} OpsOfAppend(xs: seq<Item>, x: Item)
    ensures OpsOf(xs + [x]) == OpsOf(xs) + OpsOf([x])
  {
    if xs == [] {
      assert xs + [x] == [x];
    } else {
      ConsAppend(xs, x);
      OpsOfAppend(xs[1..], x);
      Assoc(if xs[0].OpItem? then [xs[0].op] else [], OpsOf(xs[1..]), OpsOf([x]));
    }
  }

  lemma DownVcpu(s: State, a: VcpuAct)
    requires InvDown(s) && VcpuEnabled(s, a)
    ensures InvDown(DoVcpu(s, a))
  {
    VcpuLeaves(s, a);
  }

  /** Nothing the answers depend on has moved, except where the VCS thread stands. */
  lemma DownFrame(s: State, s': State)
    requires InvDown(s) && !s.vcs.VBroken?
    requires s'.down == s.down && s'.poller == s.poller && s'.up.queued == s.up.queued
    requires multiset(s'.ctrl)[DmaDone] + B(Got(s'.vcs)) == multiset(s.ctrl)[DmaDone] + B(Got(s.vcs))
    requires DownTaken(s'.vcs) == DownTaken(s.vcs) && Shape(s'.vcs)
    requires Waiting(s'.vcs) ==> Waiting(s.vcs) && s'.vcs.op == s.vcs.op
    ensures InvDown(s')
  {
  }

  lemma StreamAnswer(taken: seq<Down>, wire: seq<Down>, served: seq<Answer>, x: Answer)
    requires Stream(taken, wire, [], served)
    ensures Stream(taken, wire, DownMsgs(x), served + [x])
  {
    FlatDownAppend(served, x);
    assert taken + wire + [] == taken + wire;
  }

  /** The poller has served `x`; which operations are outstanding does not change. */
  lemma DownAnswer(s: State, s': State, x: Answer)
    requires InvDown(s) && !Busy(s.poller) && DownOwed(s.poller) == []
    requires s'.vcs == s.vcs && s'.ctrl == s.ctrl
    requires s'.down == s.down.(served := s.down.served + [x])
    requires Busy(s'.poller) && s'.poller.op == x.op && DownOwed(s'.poller) == DownMsgs(x)
    requires s'.poller.PData? ==> x.op.IsRead()
    requires Outstanding(s') == Outstanding(s)
    ensures InvDown(s')
  {
    if !s.vcs.VBroken? { StreamAnswer(DownTaken(s.vcs), s.down.wire, s.down.served, x); }
  }

  lemma DownTake(s: State)
    requires InvUp(s) && InvDown(s) && PollerEnabled(s, Take)
    ensures InvDown(DoTake(s))
  {
    UpTake(s);
    var s' := DoTake(s);
    SameOutstanding(s);
    if s.up.wire[0].DmaReq? && s.up.wire[0].op.IsRead() {
      DownAnswer(s, s', Answer(s'.poller.op, |s.ram.log|, s'.poller.bytes));
    }
  }

  lemma SameOutstanding(s: State)
    requires InvUp(s) && PollerEnabled(s, Take)
    ensures Outstanding(DoTake(s)) == Outstanding(s)
  {
    UpTake(s);
    var rest := OpsOf(s.up.queued[1..]);
    match s.up.wire[0] {
      case DmaReq(op) =>
        OutTake(Answered(s.down.served), op, rest);
        if op.IsRead() { AnsweredAppend(s.down.served, Answer(op, |s.ram.log|, Load(s.ram.mem, op.addr, Served(op.len)))); }
      case Msi(_, _) =>
        assert [] + rest == rest;
    }
  }

  lemma OutTake(a: seq<Op>, op: Op, rest: seq<Op>)
    ensures a + [] + ([op] + rest) == (a + [op]) + [] + rest
    ensures a + [] + ([op] + rest) == a + [op] + rest
  {
  }

  lemma DownRecv(s: State)
    requires InvUp(s) && InvDown(s) && PollerEnabled(s, RecvUpData)
    ensures InvDown(DoRecvUpData(s))
  {
    UpRecv(s);
    var s' := DoRecvUpData(s);
    var x := Answer(s.poller.op, |s.ram.log|, []);
    AnsweredAppend(s.down.served, x);
    assert Outstanding(s') == Outstanding(s);
    DownAnswer(s, s', x);
  }

  lemma DownSend(s: State, a: PollerAct)
    requires InvDown(s) && PollerEnabled(s, a) && (a.SendDownData? || a.SendDownCpl?)
    ensures InvDown(DoPoller(s, a))
  {
    var s' := DoPoller(s, a);
    assert s.down.wire + DownOwed(s.poller) == s'.down.wire + DownOwed(s'.poller);
    assert DownTaken(s.vcs) + s'.down.wire + DownOwed(s'.poller) == DownTaken(s.vcs) + s.down.wire + DownOwed(s.poller);
  }

  lemma DownNotified(s: State)
    requires InvDown(s) && PollerEnabled(s, SendDmaDone)
    ensures InvDown(DoPoller(s, SendDmaDone))
  {
  }

  lemma DownPoller(s: State, a: PollerAct)
    requires InvUp(s) && InvDown(s) && PollerEnabled(s, a)
    ensures InvDown(DoPoller(s, a))
  {
    match a {
      case Take => DownTake(s);
      case RecvUpData => DownRecv(s);
      case SendDmaDone => DownNotified(s);
      case _ => DownSend(s, a);
    }
  }

  lemma DownStart(s: State, op: Op)
    requires InvDown(s) && s.vcs == VIdle
    ensures InvDown(Start(s, op))
  {
    OpsOfAppend(s.up.queued, OpItem(op));
    assert Outstanding(Start(s, op)) == Outstanding(s) + [op];
  }

  lemma LastFits(xs: seq<Answer>)
    requires xs != []
    ensures |FlatDown(xs)| >= |DownMsgs(xs[|xs| - 1])|
  {
  }

  /** What the VCS thread finds when it acts on a DMA notification: the whole oldest answer
      has been sent, so it is what has been taken followed by what is on the wire. */
  lemma OldestAnswer(s: State)
    requires InvDown(s) && Got(s.vcs)
    ensures s.down.served != [] && (Busy(s.poller) ==> |s.down.served| >= 2)
    ensures DownMsgs(s.down.served[0]) <= DownTaken(s.vcs) + s.down.wire
  {
    var xs := s.down.served;
    var owed := DownOwed(s.poller);
    assert FlatDown(xs) == DownMsgs(xs[0]) + FlatDown(xs[1..]);
    if Busy(s.poller) {
      LastFits(xs[1..]);
      assert |owed| <= |DownMsgs(xs[|xs| - 1])|;
    }
    PrefixOf(DownTaken(s.vcs) + s.down.wire, owed, DownMsgs(xs[0]), FlatDown(xs[1..]));
  }

  lemma PrefixOf<T>(a: seq<T>, b: seq<T>, c: seq<T>, d: seq<T>)
    requires a + b == c + d && |b| <= |d|
    ensures c <= a
  {
    assert c == (c + d)[..|c|];
    assert a[..|c|] == (a + b)[..|c|];
  }

  lemma DownRecvData(s: State)
    requires InvDown(s) && DmaEnabled(s, RecvDownData)
    ensures InvDown(DoDma(s, RecvDownData))
  {
    var s' := DoDma(s, RecvDownData);
    if Received(s.down.wire[0]) {
      assert DownTaken(s'.vcs) + s'.down.wire == DownTaken(s.vcs) + s.down.wire;
      assert Outstanding(s') == Outstanding(s);
    }
  }

  /** A completion at the head of the wire ends the oldest answer. */
  lemma EndsAnswer(s: State)
    requires InvDown(s) && s.vcs.VCpl? && s.down.wire != [] && s.down.wire[0].DownCpl?
    ensures s.down.served != []
    ensures DownMsgs(s.down.served[0]) == DownTaken(s.vcs) + [s.down.wire[0]]
  {
    OldestAnswer(s);
    var m, all := DownMsgs(s.down.served[0]), DownTaken(s.vcs) + s.down.wire;
    assert all[0] == m[0];
    assert all[|DownTaken(s.vcs)|] == s.down.wire[0];
    assert m == all[..|m|];
  }

  lemma StreamRest(taken: seq<Down>, x: Down, rest: seq<Down>, owed: seq<Down>, m: seq<Down>, more: seq<Down>)
    requires taken + ([x] + rest) + owed == m + more && m == taken + [x]
    ensures [] + rest + owed == more
  {
    var all := m + more;
    assert taken + ([x] + rest) + owed == m + (rest + owed);
    assert all[|m|..] == more && (m + (rest + owed))[|m|..] == rest + owed;
    assert [] + rest == rest;
  }

  /** Receiving a completion consumes exactly the oldest answer. */
  lemma Consumed(s: State)
    requires InvDown(s) && s.vcs.VCpl? && s.down.wire != [] && s.down.wire[0].DownCpl?
    ensures s.down.served != [] && s.down.wire[0] == DownCpl(s.down.served[0].op)
    ensures Stream([], s.down.wire[1..], DownOwed(s.poller), s.down.served[1..])
  {
    EndsAnswer(s);
    var xs := s.down.served;
    var m := DownMsgs(xs[0]);
    assert s.down.wire[0] == m[|m| - 1];
    assert s.down.wire == [s.down.wire[0]] + s.down.wire[1..];
    StreamRest(DownTaken(s.vcs), s.down.wire[0], s.down.wire[1..], DownOwed(s.poller), m, FlatDown(xs[1..]));
  }

  /** The same, for the whole invariant: the oldest operation leaves `Outstanding`.  If the
      VCS thread keeps waiting, it was for another one. */
  lemma Consume(s: State, next: VcsPc)
    requires InvDown(s) && s.vcs.VCpl? && s.down.wire != [] && s.down.wire[0].DownCpl?
    requires next == VIdle || (next.VWait? && next.op == s.vcs.op && s.down.wire[0].op != s.vcs.op)
    ensures InvDown(s.(down := s.down.(wire := s.down.wire[1..], served := Rest(s.down.served)), vcs := next))
  {
    Consumed(s);
    OldestAnswer(s);
    OutHead(s.down.served, Pending(s.poller), OpsOf(s.up.queued));
  }

  lemma OutHead(xs: seq<Answer>, p: seq<Op>, q: seq<Op>)
    requires xs != []
    ensures Answered(xs) + p + q == [xs[0].op] + (Answered(xs[1..]) + p + q)
  {
  }

  lemma DownRecvCpl(s: State)
    requires InvDown(s) && DmaEnabled(s, RecvDownCpl)
    ensures InvDown(DoDma(s, RecvDownCpl))
  {
    if s.down.wire[0].DownCpl? { Consume(s, AfterCpl(s)); }
  }

  lemma DownSync(s: State)
    requires InvDown(s) && DmaEnabled(s, RecvSync)
    ensures InvDown(DoDma(s, RecvSync))
  {
    Head(s.ctrl);
    DownFrame(s, DoDma(s, RecvSync));
  }

  lemma DownDma(s: State, a: DmaAct)
    requires InvDown(s) && DmaEnabled(s, a)
    ensures InvDown(DoDma(s, a))
  {
    match a {
      case StartDma(k, addr, len, bytes) => DownStart(s, Op(k, s.count.Of(k), addr, len, bytes, |s.ram.log|));
      case RecvSync => DownSync(s);
      case RecvDownData => DownRecvData(s);
      case RecvDownCpl => DownRecvCpl(s);
      case SendUpData => DownFrame(s, DoDma(s, a));
      case RecvTlp => DownFrame(s, DoDma(s, a));
      case Abandon => DownFrame(s, DoDma(s, a));
    }
  }

  lemma DownPollSync(s: State, ready: VcsPc, other: VcsPc)
    requires InvDown(s) && s.ctrl != [] && (s.vcs.VDrain? || s.vcs.VTimed?)
    requires !Waiting(ready) && !Waiting(other)
    ensures InvDown(PollSync(s, ready, other))
  {
    Head(s.ctrl);
    assert Outstanding(PollSync(s, ready, other)) == Outstanding(s);
  }

  lemma DownPoll(s: State, a: PollAct)
    requires InvDown(s) && PollEnabled(s, a)
    ensures InvDown(DoPoll(s, a))
  {
    match a {
      case PollStart => DownFrame(s, Deliver(s, VDrain));
      case DrainSync => DownPollSync(s, VDrainTlp, VDrain);
      case DrainTlp => DownFrame(s, Cache(s, VDrain));
      case DrainEnd => DownFrame(s, Deliver(s, VTimed));
      case TimedSync => DownPollSync(s, VTimedTlp, VIdle);
      case TimedTlp => DownFrame(s, DoPoll(s, a));
      case Timeout => DownFrame(s, s.(vcs := VIdle));
      case PollFails => DownFrame(s, s.(vcs := VIdle));
    }
  }

  lemma DownNotify(s: State, a: NotifyAct)
    requires InvDown(s) && NotifyEnabled(s, a)
    ensures InvDown(DoNotify(s, a))
  {
  }

  // ---------- guest memory ----------

  lemma ReplayWrite(r: Ram, addr: nat, bytes: seq<byte>)
    requires r.mem == Replay(r.log)
    ensures Write(r, addr, bytes).mem == Replay(Write(r, addr, bytes).log)
  {
    var log' := Write(r, addr, bytes).log;
    assert log'[..|log'| - 1] == r.log;
  }

  lemma LinearizedLater(log: seq<MemEvent>, e: MemEvent, xs: seq<Answer>)
    requires AllLinearized(log, xs)
    ensures AllLinearized(log + [e], xs)
  {
    forall j | 0 <= j < |xs| ensures Linearized(log + [e], xs[j]) {
      assert Linearized(log, xs[j]);
      assert (log + [e])[..xs[j].at] == log[..xs[j].at];
    }
  }

  lemma MemWrite(s: State, addr: nat, bytes: seq<byte>)
    requires InvMem(s)
    ensures InvMem(s.(ram := Write(s.ram, addr, bytes)))
  {
    ReplayWrite(s.ram, addr, bytes);
    LinearizedLater(s.ram.log, MemEvent(addr, bytes), s.down.served);
    LinearizedLater(s.ram.log, MemEvent(addr, bytes), s.up.applied);
  }

  lemma MemVcpu(s: State, a: VcpuAct)
    requires InvMem(s) && VcpuEnabled(s, a)
    ensures InvMem(DoVcpu(s, a))
  {
    if a.GuestStore? { MemWrite(s, a.addr, a.bytes); }
  }

  lemma MemTake(s: State)
    requires InvUp(s) && InvMem(s) && PollerEnabled(s, Take)
    ensures InvMem(DoTake(s))
  {
    UpTake(s);
    assert s.ram.log[..|s.ram.log|] == s.ram.log;
    if s.up.wire[0].DmaReq? { assert s.up.queued[0].op.since <= |s.ram.log|; }
  }

  lemma MemServed(s: State, x: Answer)
    requires InvMem(s) && Linearized(s.ram.log, x)
    ensures AllLinearized(s.ram.log, s.down.served + [x]) && AllLinearized(s.ram.log, s.up.applied + [x])
  {
  }

  lemma MemRecv(s: State)
    requires InvUp(s) && InvMem(s) && PollerEnabled(s, RecvUpData)
    ensures InvMem(DoRecvUpData(s))
  {
    UpRecv(s);
    var op := s.poller.op;
    var w := s.(ram := Write(s.ram, op.addr, op.bytes));
    MemWrite(s, op.addr, op.bytes);
    MemServed(w, Answer(op, |s.ram.log|, []));
  }

  lemma MemPoller(s: State, a: PollerAct)
    requires InvUp(s) && InvMem(s) && PollerEnabled(s, a)
    ensures InvMem(DoPoller(s, a))
  {
    match a {
      case Take => MemTake(s);
      case RecvUpData => MemRecv(s);
      case _ =>
    }
  }

  lemma MemDma(s: State, a: DmaAct)
    requires InvMem(s) && DmaEnabled(s, a)
    ensures InvMem(DoDma(s, a))
  {
  }

  lemma MemPoll(s: State, a: PollAct)
    requires InvMem(s) && PollEnabled(s, a)
    ensures InvMem(DoPoll(s, a))
  {
  }

  lemma MemNotify(s: State, a: NotifyAct)
    requires InvMem(s) && NotifyEnabled(s, a)
    ensures InvMem(DoNotify(s, a))
  {
  }

  // ---------- operation numbers ----------

  lemma NumberedTail(out: seq<Op>, count: Counters)
    requires Numbered(out, count) && out != []
    ensures Numbered(out[1..], count)
  {
  }

  lemma NumberedStart(out: seq<Op>, count: Counters, op: Op)
    requires Numbered(out, count) && op.n == count.Of(op.kind)
    requires DmaArguments(op.kind, op.len, op.bytes)
    ensures Numbered(out + [op], count.Next(op.kind))
  {
  }

  lemma NumbersStart(s: State, op: Op)
    requires InvNumbers(s) && op.n == s.count.Of(op.kind)
    requires DmaArguments(op.kind, op.len, op.bytes)
    ensures InvNumbers(Start(s, op))
  {
    OpsOfAppend(s.up.queued, OpItem(op));
    assert Outstanding(Start(s, op)) == Outstanding(s) + [op];
    NumberedStart(Outstanding(s), s.count, op);
  }

  lemma NumbersConsume(s: State)
    requires InvNumbers(s) && DmaEnabled(s, RecvDownCpl)
    ensures InvNumbers(DoDma(s, RecvDownCpl))
  {
    if s.down.served != [] {
      OutHead(s.down.served, Pending(s.poller), OpsOf(s.up.queued));
      NumberedTail(Outstanding(s), s.count);
    }
  }

  lemma NumbersDma(s: State, a: DmaAct)
    requires InvNumbers(s) && DmaEnabled(s, a)
    ensures InvNumbers(DoDma(s, a))
  {
    match a {
      case StartDma(k, addr, len, bytes) => NumbersStart(s, Op(k, s.count.Of(k), addr, len, bytes, |s.ram.log|));
      case RecvDownCpl => NumbersConsume(s);
      case RecvTlp => SameOut(s, Cache(s, VWait(s.vcs.op, s.vcs.i + 1)));
      case _ => SameOut(s, DoDma(s, a));
    }
  }

  lemma SameOut(s: State, s': State)
    requires InvNumbers(s)
    requires s'.count == s.count && s'.down.served == s.down.served && s'.poller == s.poller && s'.up.queued == s.up.queued
    ensures InvNumbers(s')
  {
  }

  /** Serving moves an operation along, but it stays outstanding. */
  lemma NumbersPoller(s: State, a: PollerAct)
    requires InvUp(s) && InvNumbers(s) && PollerEnabled(s, a)
    ensures InvNumbers(DoPoller(s, a))
  {
    match a {
      case Take => SameOutstanding(s);
      case RecvUpData => OutRecv(s);
      case _ =>
    }
  }

  lemma OutRecv(s: State)
    requires InvUp(s) && PollerEnabled(s, RecvUpData)
    ensures Outstanding(DoRecvUpData(s)) == Outstanding(s) && DoRecvUpData(s).count == s.count
  {
    UpRecv(s);
    AnsweredAppend(s.down.served, Answer(s.poller.op, |s.ram.log|, []));
    assert Answered(s.down.served) + [s.poller.op] + [] == Answered(s.down.served) + [s.poller.op];
  }

  lemma NumbersPoll(s: State, a: PollAct)
    requires InvNumbers(s) && PollEnabled(s, a)
    ensures InvNumbers(DoPoll(s, a))
  {
    SameOut(s, DoPoll(s, a));
  }

  lemma OutNotify(s: State, a: NotifyAct)
    requires NotifyEnabled(s, a)
    ensures Outstanding(DoNotify(s, a)) == Outstanding(s) && DoNotify(s, a).count == s.count
  {
    if a.RaiseMsi? {
      var x := MsiItem(a.vector, |s.up.issued|);
      OpsOfAppend(s.up.queued, x);
      assert OpsOf([x]) == [];
      assert OpsOf(s.up.queued) + [] == OpsOf(s.up.queued);
    }
  }

  lemma NumbersNotify(s: State, a: NotifyAct)
    requires InvNumbers(s) && NotifyEnabled(s, a)
    ensures InvNumbers(DoNotify(s, a))
  {
    OutNotify(s, a);
  }

  lemma NumbersVcpu(s: State, a: VcpuAct)
    requires InvNumbers(s) && VcpuEnabled(s, a)
    ensures InvNumbers(DoVcpu(s, a))
  {
  }

  // ---------- all of it ----------

  lemma VcpuKeeps(s: State, a: VcpuAct)
    requires All(s) && VcpuEnabled(s, a)
    ensures All(DoVcpu(s, a))
  {
    TlpVcpu(s, a);
    CplVcpu(s, a);
    UpVcpu(s, a);
    MsiVcpu(s, a);
    DownVcpu(s, a);
    MemVcpu(s, a);
    NumbersVcpu(s, a);
  }

  lemma PollerKeeps(s: State, a: PollerAct)
    requires All(s) && PollerEnabled(s, a)
    ensures All(DoPoller(s, a))
  {
    TlpPoller(s, a);
    CplPoller(s, a);
    UpPoller(s, a);
    MsiPoller(s, a);
    DownPoller(s, a);
    MemPoller(s, a);
    NumbersPoller(s, a);
  }

  lemma DmaKeeps(s: State, a: DmaAct)
    requires All(s) && DmaEnabled(s, a)
    ensures All(DoDma(s, a))
  {
    TlpDma(s, a);
    CplDma(s, a);
    UpDma(s, a);
    MsiDma(s, a);
    DownDma(s, a);
    MemDma(s, a);
    NumbersDma(s, a);
  }

  lemma PollKeeps(s: State, a: PollAct)
    requires All(s) && PollEnabled(s, a)
    ensures All(DoPoll(s, a))
  {
    TlpPoll(s, a);
    CplPoll(s, a);
    UpPoll(s, a);
    MsiPoll(s, a);
    DownPoll(s, a);
    MemPoll(s, a);
    NumbersPoll(s, a);
  }

  lemma NotifyKeeps(s: State, a: NotifyAct)
    requires All(s) && NotifyEnabled(s, a)
    ensures All(DoNotify(s, a))
  {
    TlpNotify(s, a);
    CplNotify(s, a);
    UpNotify(s, a);
    MsiNotify(s, a);
    DownNotify(s, a);
    MemNotify(s, a);
    NumbersNotify(s, a);
  }

  lemma LinkKeeps(s: State, link: Link)
    requires All(s)
    ensures All(s.(link := link))
  {
    var s' := s.(link := link);
    assert InvTlp(s') && InvCpl(s') && InvUp(s') && InvMsi(s');
    assert Outstanding(s') == Outstanding(s);
  }

  /** Every action of every thread keeps the whole invariant. */
  lemma Step(s: State, a: Action)
    requires Inv(s) && Enabled(s, a)
    ensures Inv(Do(s, a))
  {
    assert All(s);
    match a {
      case Vcpu(v) => VcpuKeeps(s, v);
      case Poller(p) => PollerKeeps(s, p);
      case Dma(d) => DmaKeeps(s, d);
      case Poll(q) => PollKeeps(s, q);
      case Notify(t) => NotifyKeeps(s, t);
      case LinkFails => LinkKeeps(s, s.link.(broken := true));
    }
  }

  lemma {:induction false} RunKeeps(s: State, run: seq<Action>)
    requires Inv(s) && Legal(s, run)
    ensures Inv(Exec(s, run))
    decreases |run|
  {
    if run != [] {
      Step(s, run[0]);
      RunKeeps(Do(s, run[0]), run[1..]);
    }
  }

  lemma InitialInv(init: bool)
    ensures Inv(Initial(init))
  {
    InitialAll(init);
  }

  lemma InitialAll(init: bool)
    ensures All(Initial(init))
  {
    var s := Initial(init);
    assert InvTlp(s) && InvCpl(s);
    assert InvUp(s) && InvMsi(s);
    assert InvDown(s) && InvMem(s) && InvNumbers(s);
  }

  lemma ReachableInv(s: State)
    requires Reachable(s)
    ensures Inv(s)
  {
    var init: bool, run: seq<Action> :| Legal(Initial(init), run) && Exec(Initial(init), run) == s;
    InitialInv(init);
    RunKeeps(Initial(init), run);
  }
}
