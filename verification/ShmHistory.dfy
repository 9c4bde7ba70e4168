/** Whole runs of the shared-memory protocol, told by their actions: what a ring had room for comes
    out at the other end, each once, in order and unchanged, and nothing else does. */
module ShmHistory {
  import opened GuestMemory
  import opened ShmProtocol
  import opened ShmInvariants
  import Tcp = TcpProtocol

  /** What the actions of a run contribute, in order. */
  ghost function Told<T>(z: Sizes, s: State, run: seq<Action>, adds: (State, Action) -> seq<T>): seq<T>
    requires Legal(z, s, run)
    decreases |run|
  {
    if run == [] then [] else adds(s, run[0]) + Told(z, Do(z, s, run[0]), run[1..], adds)
  }

  /** Every action adds to `kept` what it contributes, and nothing else ever changes there. */
  ghost predicate Tracks<T>(z: Sizes, adds: (State, Action) -> seq<T>, kept: State -> seq<T>) {
    forall s, a {:trigger adds(s, a)} :: Enabled(s, a) ==> kept(Do(z, s, a)) == kept(s) + adds(s, a)
  }

  lemma {:induction false} RunTold<T>(z: Sizes, s: State, run: seq<Action>, adds: (State, Action) -> seq<T>, kept: State -> seq<T>)
    requires Legal(z, s, run) && Tracks(z, adds, kept)
    ensures kept(Exec(z, s, run)) == kept(s) + Told(z, s, run, adds)
    decreases |run|
  {
    if run != [] {
      RunTold(z, Do(z, s, run[0]), run[1..], adds, kept);
      assert kept(Do(z, s, run[0])) == kept(s) + adds(s, run[0]);
    }
  }

  /** The oldest entry of a ring moves to the end of what came out. */
  lemma Moves<T>(out: seq<T>, ring: seq<T>)
    requires ring != []
    ensures (out + [ring[0]]) + ring[1..] == out + ring
  {
  }

  lemma Joins<T>(out: seq<T>, ring: seq<T>, x: T)
    ensures out + (ring + [x]) == (out + ring) + [x]
  {
  }

  // ---------- TLPs ----------

  function TlpAccepted(z: Sizes): (State, Action) -> seq<int> {
    (s: State, a: Action) => if a.SendTlp? && |s.tlp.ring| < z.req then [a.body] else []
  }

  function TlpsSoFar(s: State): seq<int> { s.tlp.delivered + s.tlp.ring }

  lemma TlpTold(z: Sizes, s: State, a: Action)
    requires Enabled(s, a)
    ensures TlpsSoFar(Do(z, s, a)) == TlpsSoFar(s) + TlpAccepted(z)(s, a)
  {
    if a.SendTlp? {
      Joins(s.tlp.delivered, s.tlp.ring, a.body);
    } else if (a.PollPending? || a.PollTake?) && s.tlp.ring != [] {
      Moves(s.tlp.delivered, s.tlp.ring);
    } else {
      assert Do(z, s, a).tlp.delivered == s.tlp.delivered && Do(z, s, a).tlp.ring == s.tlp.ring;
    }
  }

  /** Every TLP the request ring had room for is delivered, once and in order, or still in it. */
  lemma EachTlpOnce(z: Sizes, run: seq<Action>)
    requires Legal(z, Initial(), run)
    ensures var s := Exec(z, Initial(), run); Told(z, Initial(), run, TlpAccepted(z)) == s.tlp.delivered + s.tlp.ring
  {
    forall s, a | Enabled(s, a) ensures TlpsSoFar(Do(z, s, a)) == TlpsSoFar(s) + TlpAccepted(z)(s, a) {
      TlpTold(z, s, a);
    }
    RunTold(z, Initial(), run, TlpAccepted(z), TlpsSoFar);
  }

  // ---------- completions ----------

  function CplAccepted(z: Sizes): (State, Action) -> seq<nat> {
    (s: State, a: Action) => if a.SendCpl? && |s.cpl.ring| < z.cpl then [a.tag] else []
  }

  function CplsSoFar(s: State): seq<nat> { s.cpl.received + s.cpl.ring }

  lemma CplTold(z: Sizes, s: State, a: Action)
    requires Enabled(s, a)
    ensures CplsSoFar(Do(z, s, a)) == CplsSoFar(s) + CplAccepted(z)(s, a)
  {
    if a.SendCpl? {
      Joins(s.cpl.received, s.cpl.ring, a.tag);
    } else if a.TakeCpl? && s.cpl.ring != [] {
      Moves(s.cpl.received, s.cpl.ring);
    } else {
      assert Do(z, s, a).cpl.received == s.cpl.received && Do(z, s, a).cpl.ring == s.cpl.ring;
    }
  }

  /** So is every completion. */
  lemma EachCompletionOnce(z: Sizes, run: seq<Action>)
    requires Legal(z, Initial(), run)
    ensures var s := Exec(z, Initial(), run); Told(z, Initial(), run, CplAccepted(z)) == s.cpl.received + s.cpl.ring
  {
    forall s, a | Enabled(s, a) ensures CplsSoFar(Do(z, s, a)) == CplsSoFar(s) + CplAccepted(z)(s, a) {
      CplTold(z, s, a);
    }
    RunTold(z, Initial(), run, CplAccepted(z), CplsSoFar);
  }

  // ---------- interrupts ----------

  /** An interrupt, with its vector and the number of calls that had returned 0 when it was raised. */
  function MsiAccepted(z: Sizes): (State, Action) -> seq<Interrupt> {
    (s: State, a: Action) => if a.RaiseMsi? && |s.msi.ring| < z.msi then [Interrupt(a.vector, |s.dma.finished|)] else []
  }

  function Delivered(xs: seq<Delivery>): (r: seq<Interrupt>)
    ensures |r| == |xs|
  {
    if xs == [] then [] else Delivered(xs[..|xs| - 1]) + [xs[|xs| - 1].msi]
  }

  lemma DeliveredAppend(xs: seq<Delivery>, x: Delivery)
    ensures Delivered(xs + [x]) == Delivered(xs) + [x.msi]
  {
    assert (xs + [x])[..|xs|] == xs;
  }

  function MsisSoFar(s: State): seq<Interrupt> { Delivered(s.msi.seen) + s.msi.ring }

  lemma MsiTold(z: Sizes, s: State, a: Action)
    requires Enabled(s, a)
    ensures MsisSoFar(Do(z, s, a)) == MsisSoFar(s) + MsiAccepted(z)(s, a)
  {
    if a.TakeMsi? {
      DeliveredAppend(s.msi.seen, Delivery(s.msi.ring[0], |s.dma.applied|));
      Moves(Delivered(s.msi.seen), s.msi.ring);
    } else if a.RaiseMsi? {
      Joins(Delivered(s.msi.seen), s.msi.ring, Interrupt(a.vector, |s.dma.finished|));
    } else {
      assert Do(z, s, a).msi == s.msi;
    }
  }

  /** And every interrupt, with its vector. */
  lemma EachInterruptOnce(z: Sizes, run: seq<Action>)
    requires Legal(z, Initial(), run)
    ensures var s := Exec(z, Initial(), run); Told(z, Initial(), run, MsiAccepted(z)) == Delivered(s.msi.seen) + s.msi.ring
  {
    forall s, a | Enabled(s, a) ensures MsisSoFar(Do(z, s, a)) == MsisSoFar(s) + MsiAccepted(z)(s, a) {
      MsiTold(z, s, a);
    }
    RunTold(z, Initial(), run, MsiAccepted(z), MsisSoFar);
  }

  // ---------- DMA ----------

  /** A request with the arguments of the call; `count` of its kind and `started` of all came before
      it, whether or not there was room for them. */
  function RequestAccepted(z: Sizes): (State, Action) -> seq<Op> {
    (s: State, a: Action) =>
      if a.StartDma? && |s.dma.requests| < z.dmaReq
      then [Op(a.kind, s.dma.count.Of(a.kind), a.addr, a.len, a.bytes, a.offset, s.dma.started, |s.data.ram.log|)] else []
  }

  function Serving(p: PollerPc): seq<Op> { if p.PServe? then [p.op] else [] }

  function RequestsSoFar(s: State): seq<Op> { s.dma.applied + Serving(s.poller) + s.dma.requests }

  lemma RequestVcs(z: Sizes, s: State, a: Action)
    requires Enabled(s, a) && !ByVcpu(a) && !ByPoller(a)
    ensures RequestsSoFar(DoVcs(z, s, a)) == RequestsSoFar(s) + RequestAccepted(z)(s, a)
  {
    if a.StartDma? {
      Joins(s.dma.applied + Serving(s.poller), s.dma.requests, NewOp(s, a));
    } else {
      var s' := DoVcs(z, s, a);
      assert s'.dma.applied == s.dma.applied && s'.poller == s.poller && s'.dma.requests == s.dma.requests;
    }
  }

  lemma RequestPoller(z: Sizes, s: State, a: Action)
    requires Enabled(s, a) && ByPoller(a)
    ensures RequestsSoFar(DoPoller(z, s, a)) == RequestsSoFar(s)
  {
    if a.TakeRequest? {
      assert s.dma.applied + [] == s.dma.applied;
      Moves(s.dma.applied, s.dma.requests);
    }
  }

  lemma RequestTold(z: Sizes, s: State, a: Action)
    requires Enabled(s, a)
    ensures RequestsSoFar(Do(z, s, a)) == RequestsSoFar(s) + RequestAccepted(z)(s, a)
  {
    if ByPoller(a) {
      RequestPoller(z, s, a);
    } else if ByVcpu(a) {
      assert Do(z, s, a).dma == s.dma && Do(z, s, a).poller == s.poller;
    } else {
      RequestVcs(z, s, a);
    }
  }

  /** Every DMA request the ring had room for is carried out by the callback, once, in order and as
      it was made, or is still on its way there. */
  lemma EachRequestOnce(z: Sizes, run: seq<Action>)
    requires Legal(z, Initial(), run)
    ensures var s := Exec(z, Initial(), run);
      Told(z, Initial(), run, RequestAccepted(z)) == s.dma.applied + Serving(s.poller) + s.dma.requests
  {
    forall s, a | Enabled(s, a) ensures RequestsSoFar(Do(z, s, a)) == RequestsSoFar(s) + RequestAccepted(z)(s, a) {
      RequestTold(z, s, a);
    }
    RunTold(z, Initial(), run, RequestAccepted(z), RequestsSoFar);
  }

  function CallsOf(k: Kind): (State, Action) -> seq<Kind> {
    (s: State, a: Action) => if a.StartDma? && a.kind == k then [k] else []
  }

  function CountSoFar(k: Kind): State -> seq<Kind> { (s: State) => seq(s.dma.count.Of(k), _ => k) }

  lemma CountTold(z: Sizes, s: State, a: Action, k: Kind)
    requires Enabled(s, a)
    ensures CountSoFar(k)(Do(z, s, a)) == CountSoFar(k)(s) + CallsOf(k)(s, a)
  {
    if a.StartDma? {
      assert Do(z, s, a).dma.count == s.dma.count.Next(a.kind);
    } else {
      assert Do(z, s, a).dma.count == s.dma.count;
    }
  }

  /** The number a tag is made of counts the calls of its kind. */
  lemma CallsCounted(z: Sizes, run: seq<Action>, k: Kind)
    requires Legal(z, Initial(), run)
    ensures |Told(z, Initial(), run, CallsOf(k))| == Exec(z, Initial(), run).dma.count.Of(k)
  {
    forall s, a | Enabled(s, a) ensures CountSoFar(k)(Do(z, s, a)) == CountSoFar(k)(s) + CallsOf(k)(s, a) {
      CountTold(z, s, a, k);
    }
    RunTold(z, Initial(), run, CallsOf(k), CountSoFar(k));
  }

  /** The tags of the first calls. */
  lemma FirstTags(o: Op)
    requires o.k == 0
    ensures o.Tag() == match o.kind case ReadSync => 2000 case WriteSync => 3000 case ReadBytes => 5000 case WriteBytes => 6000
  {
  }

  /** No call gets through without data, and a write has as many bytes as it says. */
  lemma {:induction false} ProperCalls(z: Sizes, s: State, run: seq<Action>)
    requires Legal(z, s, run)
    ensures forall o :: o in Told(z, s, run, RequestAccepted(z)) ==> o.len > 0 && (o.IsWrite() ==> |o.bytes| == o.len)
    decreases |run|
  {
    if run != [] { ProperCalls(z, Do(z, s, run[0]), run[1..]); }
  }

  function AtWork(v: VcsPc): seq<Op> {
    if Waiting(v) then [v.op] else []
  }

  lemma AtWorkStep(z: Sizes, s: State, a: Action)
    requires Enabled(s, a) && Waiting(Do(z, s, a).vcs)
    ensures EndsWith(AtWork(s.vcs) + RequestAccepted(z)(s, a), Do(z, s, a).vcs.op)
  {
    if ByVcpu(a) || ByPoller(a) {
      assert Do(z, s, a).vcs == s.vcs;
    } else {
      assert Do(z, s, a) == DoVcs(z, s, a);
    }
  }

  lemma {:induction false} AtWorkRun(z: Sizes, s: State, run: seq<Action>)
    requires Legal(z, s, run) && Waiting(Exec(z, s, run).vcs)
    ensures EndsWith(AtWork(s.vcs) + Told(z, s, run, RequestAccepted(z)), Exec(z, s, run).vcs.op)
    decreases |run|
  {
    if run != [] {
      var s', rest := Do(z, s, run[0]), run[1..];
      AtWorkRun(z, s', rest);
      if Told(z, s', rest, RequestAccepted(z)) == [] { AtWorkStep(z, s, run[0]); }
    }
  }

  /** A call that waits waits for the request made last, with the arguments of the call. */
  lemma WorksOnLast(z: Sizes, run: seq<Action>)
    requires Legal(z, Initial(), run) && Waiting(Exec(z, Initial(), run).vcs)
    ensures EndsWith(Told(z, Initial(), run, RequestAccepted(z)), Exec(z, Initial(), run).vcs.op)
  {
    AtWorkRun(z, Initial(), run);
  }

  /** A call returns 0 when it takes a completion with its own tag. */
  function CallFinished(s: State, a: Action): seq<Op> {
    if a.TakeDmaCpl? && s.vcs.VTake? && s.dma.completions != [] && s.dma.completions[0].Tag() == s.vcs.op.Tag() then [s.vcs.op] else []
  }

  function FinishedSoFar(s: State): seq<Op> { s.dma.finished }

  lemma FinishedTold(z: Sizes, s: State, a: Action)
    requires Enabled(s, a)
    ensures FinishedSoFar(Do(z, s, a)) == FinishedSoFar(s) + CallFinished(s, a)
  {
  }

  /** The finished calls, by which interrupts are marked, are those that returned 0. */
  lemma EachFinished(z: Sizes, run: seq<Action>)
    requires Legal(z, Initial(), run)
    ensures Told(z, Initial(), run, CallFinished) == Exec(z, Initial(), run).dma.finished
  {
    forall s, a | Enabled(s, a) ensures FinishedSoFar(Do(z, s, a)) == FinishedSoFar(s) + CallFinished(s, a) {
      FinishedTold(z, s, a);
    }
    RunTold(z, Initial(), run, CallFinished, FinishedSoFar);
  }

  // ---------- the data ----------

  function Replayed(m: Memory, es: seq<Tcp.MemEvent>): Memory
    decreases |es|
  {
    if es == [] then m else Replayed(Store(m, es[0].addr, es[0].bytes), es[1..])
  }

  /** What goes to guest memory: stores of the guest, and for a write carried out what the DMA
      buffer holds for it. */
  function ToRam(s: State, a: Action): seq<Tcp.MemEvent> {
    if a.GuestStore? then [Tcp.MemEvent(a.to, a.what)]
    else if a.Serve? && s.poller.PServe? && s.poller.op.IsWrite()
    then [Tcp.MemEvent(s.poller.op.addr, Load(s.data.buf, s.poller.op.offset, s.poller.op.len))]
    else []
  }

  /** What goes to the DMA buffer: the data of a write when it is started, and for a read carried
      out what guest memory holds there. */
  function ToBuffer(s: State, a: Action): seq<Tcp.MemEvent> {
    if a.StartDma? && Writes(a.kind) then [Tcp.MemEvent(a.offset, a.bytes)]
    else if a.Serve? && s.poller.PServe? && !s.poller.op.IsWrite()
    then [Tcp.MemEvent(s.poller.op.offset, Load(s.data.ram.mem, s.poller.op.addr, s.poller.op.len))]
    else []
  }

  lemma OneReplayed(m: Memory, e: Tcp.MemEvent)
    ensures Replayed(m, [e]) == Store(m, e.addr, e.bytes)
  {
    assert [e][1..] == [];
  }

  lemma {:induction false} ReplayedBoth(m: Memory, xs: seq<Tcp.MemEvent>, ys: seq<Tcp.MemEvent>)
    ensures Replayed(m, xs + ys) == Replayed(Replayed(m, xs), ys)
    decreases |xs|
  {
    if xs == [] {
      assert xs + ys == ys;
    } else {
      assert (xs + ys)[1..] == xs[1..] + ys;
      ReplayedBoth(Store(m, xs[0].addr, xs[0].bytes), xs[1..], ys);
    }
  }

  lemma DataTold(z: Sizes, s: State, a: Action)
    requires Enabled(s, a)
    ensures Do(z, s, a).data.ram.mem == Replayed(s.data.ram.mem, ToRam(s, a))
    ensures Do(z, s, a).data.buf == Replayed(s.data.buf, ToBuffer(s, a))
  {
    if a.GuestStore? || a.Serve? || a.StartDma? {
      if ToRam(s, a) != [] { OneReplayed(s.data.ram.mem, ToRam(s, a)[0]); }
      if ToBuffer(s, a) != [] { OneReplayed(s.data.buf, ToBuffer(s, a)[0]); }
    } else {
      assert Do(z, s, a).data == s.data;
    }
  }

  lemma {:induction false} DataReplayed(z: Sizes, s: State, run: seq<Action>)
    requires Legal(z, s, run)
    ensures Exec(z, s, run).data.ram.mem == Replayed(s.data.ram.mem, Told(z, s, run, ToRam))
    ensures Exec(z, s, run).data.buf == Replayed(s.data.buf, Told(z, s, run, ToBuffer))
    decreases |run|
  {
    if run != [] {
      var s' := Do(z, s, run[0]);
      DataTold(z, s, run[0]);
      DataReplayed(z, s', run[1..]);
      ReplayedBoth(s.data.ram.mem, ToRam(s, run[0]), Told(z, s', run[1..], ToRam));
      ReplayedBoth(s.data.buf, ToBuffer(s, run[0]), Told(z, s', run[1..], ToBuffer));
    }
  }

  /** Guest memory and the DMA buffer are what these stores made of them, in their order. */
  lemma DataIsStores(z: Sizes, run: seq<Action>)
    requires Legal(z, Initial(), run)
    ensures Exec(z, Initial(), run).data.ram.mem == Replayed(map[], Told(z, Initial(), run, ToRam))
    ensures Exec(z, Initial(), run).data.buf == Replayed(map[], Told(z, Initial(), run, ToBuffer))
  {
    DataReplayed(z, Initial(), run);
  }

  // ---------- waiting for a completion ----------

  /** A call that waits for `tag`, when it has received `got` so far: only stale completions
      while it goes on waiting, and when it has ended its own one last, or 256 stale ones. */
  predicate WaitStands(v: VcpuPc, tag: nat, got: seq<nat>) {
    match v
    case VcWait(t, guard) => t == tag && |got| + guard == 256 && tag !in got
    case VcTake(t, guard) => t == tag && |got| + guard == 255 && tag !in got
    case VcIdle => got != [] && tag !in got[..|got| - 1] && (got[|got| - 1] == tag || |got| == 256)
    case _ => false
  }

  predicate NotCalling(run: seq<Action>) {
    forall i :: 0 <= i < |run| ==> !run[i].SendTlp?
  }

  lemma WaitStep(z: Sizes, s: State, a: Action, tag: nat, before: seq<nat>, got: seq<nat>) returns (got': seq<nat>)
    requires Cpls(s) && Enabled(s, a) && !a.SendTlp?
    requires s.cpl.received == before + got && WaitStands(s.vcpu, tag, got)
    ensures Do(z, s, a).cpl.received == before + got' && WaitStands(Do(z, s, a).vcpu, tag, got')
  {
    got' := got;
    if a.TakeCpl? {
      var x := s.cpl.ring[0];
      got' := got + [x];
      assert got'[..|got|] == got && s.cpl.received + [x] == before + got';
    } else {
      assert Do(z, s, a).cpl.received == s.cpl.received;
    }
  }

  lemma {:induction false} WaitRun(z: Sizes, s: State, run: seq<Action>, tag: nat, before: seq<nat>, got: seq<nat>) returns (got': seq<nat>)
    requires Inv(s) && Legal(z, s, run) && NotCalling(run)
    requires s.cpl.received == before + got && WaitStands(s.vcpu, tag, got)
    ensures Exec(z, s, run).cpl.received == before + got' && WaitStands(Exec(z, s, run).vcpu, tag, got')
    decreases |run|
  {
    got' := got;
    if run != [] {
      got' := WaitNext(z, s, run[0], tag, before, got);
      got' := WaitRun(z, Do(z, s, run[0]), run[1..], tag, before, got');
    }
  }

  lemma WaitNext(z: Sizes, s: State, a: Action, tag: nat, before: seq<nat>, got: seq<nat>) returns (got': seq<nat>)
    requires Inv(s) && Enabled(s, a) && !a.SendTlp?
    requires s.cpl.received == before + got && WaitStands(s.vcpu, tag, got)
    ensures Inv(Do(z, s, a)) && Do(z, s, a).cpl.received == before + got' && WaitStands(Do(z, s, a).vcpu, tag, got')
  {
    Step(z, s, a);
    assert All(s);
    got' := WaitStep(z, s, a, tag, before, got);
  }

  /** A call that has sent and announced a TLP and waits ends with the first completion that carries
      its tag, if that is among the next 256, and otherwise with the last of those; it never finds
      the ring empty. */
  lemma FirstMatchWithin256(z: Sizes, before: seq<Action>, run: seq<Action>)
    requires Legal(z, Initial(), before)
    requires var s := Exec(z, Initial(), before);
      s.vcpu.VcAnnounce? && s.vcpu.wait && Legal(z, Do(z, s, AnnounceTlp(true)), run) && NotCalling(run)
    ensures var s := Exec(z, Initial(), before);
      var s' := Exec(z, Do(z, s, AnnounceTlp(true)), run);
      s.cpl.received <= s'.cpl.received && WaitStands(s'.vcpu, s.vcpu.tag, s'.cpl.received[|s.cpl.received|..])
  {
    InitialInv(Initial());
    RunKeeps(z, Initial(), before);
    var s := Exec(z, Initial(), before);
    Step(z, s, AnnounceTlp(true));
    var got := WaitRun(z, Do(z, s, AnnounceTlp(true)), run, s.vcpu.tag, s.cpl.received, []);
    assert (s.cpl.received + got)[|s.cpl.received|..] == got;
  }
}
