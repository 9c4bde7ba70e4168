/** Whole runs of the three-connection protocol, told by their actions: what the two sides asked for
    is what travels, arrives and is stored, each once, in order and unchanged. */
module TcpHistory {
  import opened GuestMemory
  import opened TcpProtocol
  import opened TcpInvariants

  /** What the actions of a run contribute, in order. */
  ghost function Told<T>(s: State, run: seq<Action>, adds: (State, Action) -> seq<T>): seq<T>
    requires Legal(s, run)
    decreases |run|
  {
    if run == [] then [] else adds(s, run[0]) + Told(Do(s, run[0]), run[1..], adds)
  }

  /** Every action adds to `kept` what it contributes, and nothing else ever changes there. */
  ghost predicate Tracks<T>(adds: (State, Action) -> seq<T>, kept: State -> seq<T>) {
    forall s, a {:trigger adds(s, a)} :: Inv(s) && Enabled(s, a) ==> kept(Do(s, a)) == kept(s) + adds(s, a)
  }

  lemma {:induction false} RunTold<T>(s: State, run: seq<Action>, adds: (State, Action) -> seq<T>, kept: State -> seq<T>)
    requires Inv(s) && Legal(s, run) && Tracks(adds, kept)
    ensures kept(Exec(s, run)) == kept(s) + Told(s, run, adds)
    decreases |run|
  {
    if run != [] {
      Step(s, run[0]);
      RunTold(Do(s, run[0]), run[1..], adds, kept);
      assert kept(Do(s, run[0])) == kept(s) + adds(s, run[0]);
    }
  }

  // ---------- interrupts ----------

  function VectorRaised(s: State, a: Action): seq<nat> {
    if a.Notify? && a.t.RaiseMsi? then [a.t.vector] else []
  }

  function Vectors(xs: seq<Delivery>): seq<nat> {
    if xs == [] then [] else Vectors(xs[..|xs| - 1]) + [xs[|xs| - 1].vector]
  }

  /** The vectors of the MSI messages among some on the aux connection. */
  function VectorsIn(wire: seq<Up>): seq<nat> {
    if wire == [] then [] else VectorOf(wire[0]) + VectorsIn(wire[1..])
  }

  function VectorsSoFar(s: State): seq<nat> {
    Vectors(s.up.interrupts) + VectorsIn(s.up.wire)
  }

  function VectorOf(m: Up): seq<nat> { if m.Msi? then [m.vector] else [] }

  lemma {:induction false} VectorsInAppend(wire: seq<Up>, m: Up)
    ensures VectorsIn(wire + [m]) == VectorsIn(wire) + VectorOf(m)
  {
    if wire != [] {
      var rest := wire[1..];
      VectorsInAppend(rest, m);
      ConsAppend(wire, m);
      Assoc(VectorOf(wire[0]), VectorsIn(rest), VectorOf(m));
    } else {
      assert wire + [m] == [m] && [m][1..] == [];
    }
  }

  lemma VectorsAppend(xs: seq<Delivery>, x: Delivery)
    ensures Vectors(xs + [x]) == Vectors(xs) + [x.vector]
  {
    assert (xs + [x])[..|xs|] == xs;
  }

  /** The poller takes data of a write where it expects it, and nothing else: no MSI is lost. */
  lemma VectorsPoller(s: State, a: PollerAct)
    requires InvUp(s) && PollerEnabled(s, a)
    ensures VectorsSoFar(DoPoller(s, a)) == VectorsSoFar(s)
  {
    if a.Take? {
      VectorsTake(s);
    } else if a.RecvUpData? {
      UpRecv(s);
    }
  }

  lemma VectorsTake(s: State)
    requires PollerEnabled(s, Take)
    ensures VectorsSoFar(DoTake(s)) == VectorsSoFar(s)
  {
    var m := s.up.wire[0];
    if m.Msi? {
      VectorsAppend(s.up.interrupts, Delivery(m.vector, m.mark, |s.up.applied|));
    }
  }

  lemma VectorsDma(s: State, d: DmaAct)
    requires DmaEnabled(s, d)
    ensures VectorsSoFar(DoDma(s, d)) == VectorsSoFar(s)
  {
    if d.StartDma? {
      VectorsInAppend(s.up.wire, DmaReq(Op(d.kind, s.count.Of(d.kind), d.addr, d.len, d.bytes, |s.ram.log|)));
    } else if d.SendUpData? {
      VectorsInAppend(s.up.wire, UpData(s.vcs.op, s.vcs.op.bytes));
    } else {
      assert DoDma(s, d).up == s.up;
    }
  }

  lemma VectorsNotify(s: State, t: NotifyAct)
    requires NotifyEnabled(s, t)
    ensures VectorsSoFar(DoNotify(s, t)) == VectorsSoFar(s) + VectorRaised(s, Notify(t))
  {
    if t.RaiseMsi? {
      VectorsInAppend(s.up.wire, Msi(t.vector, |s.up.issued|));
      Assoc(Vectors(s.up.interrupts), VectorsIn(s.up.wire), [t.vector]);
    }
  }

  lemma VectorsStep(s: State, a: Action)
    requires InvUp(s) && Enabled(s, a)
    ensures VectorsSoFar(Do(s, a)) == VectorsSoFar(s) + VectorRaised(s, a)
  {
    match a {
      case Vcpu(v) => VcpuLeaves(s, v);
      case Poller(p) => VectorsPoller(s, p);
      case Dma(d) => VectorsDma(s, d);
      case Poll(q) => PollLeaves(s, q);
      case Notify(t) => VectorsNotify(s, t);
      case LinkFails =>
    }
  }

  /** Every interrupt the VCS side raises reaches the callback of QEMU, once, in order and with its
      vector, or is still on its way. */
  lemma EachInterruptOnce(init: bool, run: seq<Action>)
    requires Legal(Initial(init), run)
    ensures var s := Exec(Initial(init), run);
      Told(Initial(init), run, VectorRaised) == Vectors(s.up.interrupts) + VectorsIn(s.up.wire)
  {
    InitialInv(init);
    forall s, a | Inv(s) && Enabled(s, a) ensures VectorsSoFar(Do(s, a)) == VectorsSoFar(s) + VectorRaised(s, a) {
      UpHolds(s);
      VectorsStep(s, a);
    }
    RunTold(Initial(init), run, VectorRaised, VectorsSoFar);
  }

  // ---------- TLPs and completions ----------

  function TlpSent(s: State, a: Action): seq<Data> {
    if a.Vcpu? && a.v.SendTlp? then [DataTlp(a.v.tag, a.v.body)] else []
  }

  function CplSent(s: State, a: Action): seq<Data> {
    if a.Notify? && a.t.SendCpl? then [DataCpl(a.t.tag, a.t.body)] else []
  }

  function TlpsSoFar(s: State): seq<Data> { s.tlp.sent }
  function CplsSoFar(s: State): seq<Data> { s.cpl.received + s.cpl.data }

  lemma TlpStep(s: State, a: Action)
    requires Enabled(s, a)
    ensures TlpsSoFar(Do(s, a)) == TlpsSoFar(s) + TlpSent(s, a)
  {
  }

  lemma CplStep(s: State, a: Action)
    requires Enabled(s, a)
    ensures CplsSoFar(Do(s, a)) == CplsSoFar(s) + CplSent(s, a)
  {
    if a.Vcpu? && a.v.RecvCpl? {
      assert CplsSoFar(Do(s, a)) == s.cpl.received + ([s.cpl.data[0]] + s.cpl.data[1..]);
    }
  }

  /** The TLPs that TcpTheorems.TlpsInOrder speaks of are those QEMU asked to be sent. */
  lemma EachTlpSent(init: bool, run: seq<Action>)
    requires Legal(Initial(init), run)
    ensures Told(Initial(init), run, TlpSent) == Exec(Initial(init), run).tlp.sent
  {
    InitialInv(init);
    forall s, a | Inv(s) && Enabled(s, a) ensures TlpsSoFar(Do(s, a)) == TlpsSoFar(s) + TlpSent(s, a) {
      TlpStep(s, a);
    }
    RunTold(Initial(init), run, TlpSent, TlpsSoFar);
  }

  /** Every completion the VCS side sends is received by QEMU, once, in order and unchanged, or is
      still on its way. */
  lemma EachCompletionOnce(init: bool, run: seq<Action>)
    requires Legal(Initial(init), run)
    ensures var s := Exec(Initial(init), run); Told(Initial(init), run, CplSent) == s.cpl.received + s.cpl.data
  {
    InitialInv(init);
    forall s, a | Inv(s) && Enabled(s, a) ensures CplsSoFar(Do(s, a)) == CplsSoFar(s) + CplSent(s, a) {
      CplStep(s, a);
    }
    RunTold(Initial(init), run, CplSent, CplsSoFar);
  }

  // ---------- DMA ----------

  /** The DMA an action starts, with the arguments of the call; `n` of its kind came before it, and
      the memory log is as long as it then was. */
  function OpStarted(s: State, a: Action): seq<Op> {
    if a.Dma? && a.d.StartDma? then [Op(a.d.kind, s.count.Of(a.d.kind), a.d.addr, a.d.len, a.d.bytes, |s.ram.log|)] else []
  }

  function WriteStarted(s: State, a: Action): seq<Op> {
    if a.Dma? && a.d.StartDma? && a.d.kind != ReadBytes then OpStarted(s, a) else []
  }

  function CallsOf(k: Kind): (State, Action) -> seq<Kind> {
    (s, a: Action) => if a.Dma? && a.d.StartDma? && a.d.kind == k then [k] else []
  }

  function WritesSoFar(s: State): seq<Op> { s.up.issued }
  function CountSoFar(k: Kind): State -> seq<Kind> { (s: State) => seq(s.count.Of(k), _ => k) }

  lemma WriteStep(s: State, a: Action)
    requires Enabled(s, a)
    ensures WritesSoFar(Do(s, a)) == WritesSoFar(s) + WriteStarted(s, a)
  {
  }

  lemma CountStep(s: State, a: Action, k: Kind)
    requires Enabled(s, a)
    ensures CountSoFar(k)(Do(s, a)) == CountSoFar(k)(s) + CallsOf(k)(s, a)
  {
    assert Do(s, a).count.Of(k) == s.count.Of(k) + |CallsOf(k)(s, a)|;
  }

  lemma WritesTold(init: bool, run: seq<Action>)
    requires Legal(Initial(init), run)
    ensures Told(Initial(init), run, WriteStarted) == Exec(Initial(init), run).up.issued
  {
    InitialInv(init);
    forall s, a | Inv(s) && Enabled(s, a) ensures WritesSoFar(Do(s, a)) == WritesSoFar(s) + WriteStarted(s, a) {
      WriteStep(s, a);
    }
    RunTold(Initial(init), run, WriteStarted, WritesSoFar);
  }

  lemma IssuedIs(s: State)
    requires Inv(s)
    ensures s.up.issued == Answered(s.up.applied) + Pending(s.poller) + WritesOf(s.up.queued)
  {
    assert All(s);
  }

  /** The DMA writes the callback carries out are those the VCS side started, in order, each once
      and with the arguments of the call; the rest are with the poller or on their way. */
  lemma EachWriteOnce(init: bool, run: seq<Action>)
    requires Legal(Initial(init), run)
    ensures var s := Exec(Initial(init), run);
      Told(Initial(init), run, WriteStarted) == Answered(s.up.applied) + Pending(s.poller) + WritesOf(s.up.queued)
  {
    WritesTold(init, run);
    InitialInv(init);
    RunKeeps(Initial(init), run);
    IssuedIs(Exec(Initial(init), run));
  }

  /** The number a tag is made of counts the calls of its kind. */
  lemma CallsCounted(init: bool, run: seq<Action>, k: Kind)
    requires Legal(Initial(init), run)
    ensures |Told(Initial(init), run, CallsOf(k))| == Exec(Initial(init), run).count.Of(k)
  {
    InitialInv(init);
    forall s, a | Inv(s) && Enabled(s, a) ensures CountSoFar(k)(Do(s, a)) == CountSoFar(k)(s) + CallsOf(k)(s, a) {
      CountStep(s, a, k);
    }
    RunTold(Initial(init), run, CallsOf(k), CountSoFar(k));
  }

  /** The tags of the first calls. */
  lemma FirstTags(o: Op)
    requires o.n == 0
    ensures o.Tag() == match o.kind case ReadBytes => 5000 case WriteBytes => 6000 case WriteSync => 3000
  {
  }

  /** No call gets through without data, or with more to write than the callback has room for. */
  lemma {:induction false} ProperCalls(s: State, run: seq<Action>)
    requires Legal(s, run)
    ensures forall o :: o in Told(s, run, OpStarted) ==> o.len > 0 && (!o.IsRead() ==> |o.bytes| == o.len <= 65536)
    decreases |run|
  {
    if run != [] { ProperCalls(Do(s, run[0]), run[1..]); }
  }

  function AtWork(v: VcsPc): seq<Op> {
    if Waiting(v) then [v.op] else []
  }

  predicate EndsIn(ops: seq<Op>, op: Op) { ops != [] && ops[|ops| - 1] == op }

  lemma AtWorkStep(s: State, a: Action)
    requires Enabled(s, a) && Waiting(Do(s, a).vcs)
    ensures EndsIn(AtWork(s.vcs) + OpStarted(s, a), Do(s, a).vcs.op)
  {
    match a {
      case Vcpu(v) => VcpuLeaves(s, v);
      case Poller(p) => PollerLeaves(s, p);
      case Dma(d) => AtWorkDma(s, d);
      case Poll(q) => PollLeaves(s, q);
      case Notify(t) =>
      case LinkFails =>
    }
  }

  lemma AtWorkDma(s: State, d: DmaAct)
    requires DmaEnabled(s, d) && Waiting(DoDma(s, d).vcs)
    ensures EndsIn(AtWork(s.vcs) + OpStarted(s, Dma(d)), DoDma(s, d).vcs.op)
  {
    if d.RecvSync? {
      assert AfterSync(s.vcs.op, s.vcs.i, s.ctrl[0]).op == s.vcs.op;
    }
  }

  lemma {:induction false} AtWorkRun(s: State, run: seq<Action>)
    requires Legal(s, run) && Waiting(Exec(s, run).vcs)
    ensures EndsIn(AtWork(s.vcs) + Told(s, run, OpStarted), Exec(s, run).vcs.op)
    decreases |run|
  {
    if run != [] {
      var s', rest := Do(s, run[0]), run[1..];
      AtWorkRun(s', rest);
      if Told(s', rest, OpStarted) == [] { AtWorkStep(s, run[0]); }
    }
  }

  /** A call that is under way is the one started last, with the arguments it was started with. */
  lemma WorksOnLast(init: bool, run: seq<Action>)
    requires Legal(Initial(init), run) && Waiting(Exec(Initial(init), run).vcs)
    ensures EndsIn(Told(Initial(init), run, OpStarted), Exec(Initial(init), run).vcs.op)
  {
    AtWorkRun(Initial(init), run);
  }

  // ---------- guest memory ----------

  /** A store of the guest, or the data of the DMA write the poller holds. */
  function Stored(s: State, a: Action): seq<MemEvent> {
    if a.Vcpu? && a.v.GuestStore? then [MemEvent(a.v.addr, a.v.bytes)]
    else if a.Poller? && a.p.RecvUpData? && s.poller.PWrite? then [MemEvent(s.poller.op.addr, s.poller.op.bytes)]
    else []
  }

  function StoresSoFar(s: State): seq<MemEvent> { s.ram.log }

  lemma StoreStep(s: State, a: Action)
    requires InvUp(s) && Enabled(s, a)
    ensures StoresSoFar(Do(s, a)) == StoresSoFar(s) + Stored(s, a)
  {
    if a.Poller? && a.p.RecvUpData? { UpRecv(s); }
  }

  lemma LogIsStores(init: bool, run: seq<Action>)
    requires Legal(Initial(init), run)
    ensures Exec(Initial(init), run).ram.log == Told(Initial(init), run, Stored)
  {
    InitialInv(init);
    forall s, a | Inv(s) && Enabled(s, a) ensures StoresSoFar(Do(s, a)) == StoresSoFar(s) + Stored(s, a) {
      UpHolds(s);
      StoreStep(s, a);
    }
    RunTold(Initial(init), run, Stored, StoresSoFar);
  }

  /** Guest memory is what the stores of the guest and of the callback made of it, in their order. */
  lemma MemoryIsStores(init: bool, run: seq<Action>)
    requires Legal(Initial(init), run)
    ensures Exec(Initial(init), run).ram.mem == Replay(Told(Initial(init), run, Stored))
  {
    LogIsStores(init, run);
    InitialInv(init);
    RunKeeps(Initial(init), run);
    MemHolds(Exec(Initial(init), run));
  }

  // ---------- waiting for a completion ----------

  predicate NoTag(xs: seq<Data>, tag: nat) {
    forall i :: 0 <= i < |xs| ==> xs[i].DataCpl? ==> xs[i].tag != tag
  }

  /** A call that waits for `tag`, when it has received `got` so far: only stale completions
      while it goes on waiting, and when it has ended its own one last, or 256 stale ones. */
  predicate WaitStands(v: VcpuPc, tag: nat, got: seq<Data>) {
    match v
    case VcWait(t, guard) => t == tag && |got| + guard == 256 && NoTag(got, tag)
    case VcCpl(t, guard) => t == tag && |got| + guard == 255 && NoTag(got, tag)
    case VcIdle =>
      got != [] && NoTag(got[..|got| - 1], tag)
      && var last := got[|got| - 1]; last.DataCpl? && (last.tag == tag || |got| == 256)
    case _ => false
  }

  predicate NotCalling(run: seq<Action>) {
    forall i :: 0 <= i < |run| ==> !(run[i].Vcpu? && run[i].v.SendTlp?)
  }

  lemma WaitStep(s: State, a: Action, tag: nat, before: seq<Data>, got: seq<Data>)
    requires InvCpl(s) && Enabled(s, a) && !(a.Vcpu? && a.v.SendTlp?)
    requires s.cpl.received == before + got && WaitStands(s.vcpu, tag, got)
    ensures before + got <= Do(s, a).cpl.received && WaitStands(Do(s, a).vcpu, tag, Do(s, a).cpl.received[|before|..])
  {
    assert (before + got)[|before|..] == got;
    if a.Vcpu? && a.v.RecvCpl? {
      var x := s.cpl.data[0];
      assert (before + got + [x])[|before|..] == got + [x] && (got + [x])[..|got|] == got;
    }
  }

  lemma {:induction false} WaitRun(s: State, run: seq<Action>, tag: nat, before: seq<Data>, got: seq<Data>)
    requires Inv(s) && Legal(s, run) && NotCalling(run)
    requires s.cpl.received == before + got && WaitStands(s.vcpu, tag, got)
    ensures before <= Exec(s, run).cpl.received && WaitStands(Exec(s, run).vcpu, tag, Exec(s, run).cpl.received[|before|..])
    decreases |run|
  {
    assert (before + got)[|before|..] == got;
    if run != [] {
      var s' := Do(s, run[0]);
      var got' := WaitNext(s, run[0], tag, before, got);
      WaitRun(s', run[1..], tag, before, got');
    }
  }

  lemma WaitNext(s: State, a: Action, tag: nat, before: seq<Data>, got: seq<Data>) returns (got': seq<Data>)
    requires Inv(s) && Enabled(s, a) && !(a.Vcpu? && a.v.SendTlp?)
    requires s.cpl.received == before + got && WaitStands(s.vcpu, tag, got)
    ensures Inv(Do(s, a)) && Do(s, a).cpl.received == before + got' && WaitStands(Do(s, a).vcpu, tag, got')
  {
    Step(s, a);
    assert All(s);
    WaitStep(s, a, tag, before, got);
    got' := Do(s, a).cpl.received[|before|..];
    assert Do(s, a).cpl.received == before + got';
  }

  /** A call that sends a TLP and waits ends with the first completion that carries its tag, if that
      is among the next 256, and otherwise with the last of those; it never fails. */
  lemma FirstMatchWithin256(s: State, run: seq<Action>)
    requires Reachable(s) && s.vcpu.VcReady? && s.vcpu.wait && Legal(s, [Vcpu(SendTlpReady)] + run) && NotCalling(run)
    ensures var s' := Exec(s, [Vcpu(SendTlpReady)] + run);
      s.cpl.received <= s'.cpl.received && WaitStands(s'.vcpu, s.vcpu.tag, s'.cpl.received[|s.cpl.received|..])
  {
    ReachableInv(s);
    var a, s1 := Vcpu(SendTlpReady), Do(s, Vcpu(SendTlpReady));
    Step(s, a);
    assert ([a] + run)[1..] == run;
    WaitRun(s1, run, s.vcpu.tag, s.cpl.received, []);
  }
}
