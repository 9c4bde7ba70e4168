/** What every step of the shared-memory protocol keeps. */
module ShmInvariants {
  import opened GuestMemory
  import opened ShmProtocol
  import Tcp = TcpProtocol
  import TcpInvariants

  function Count(notes: seq<Note>, x: Note): nat {
    if notes == [] then 0 else Count(notes[..|notes| - 1], x) + if notes[|notes| - 1] == x then 1 else 0
  }

  function One(b: bool): nat { if b then 1 else 0 }

  lemma CountAppend(notes: seq<Note>, y: Note, x: Note)
    ensures Count(notes + [y], x) == Count(notes, x) + One(y == x)
  {
    assert (notes + [y])[..|notes|] == notes;
  }

  lemma {:induction false} CountFirst(notes: seq<Note>, x: Note)
    requires notes != []
    ensures Count(notes, x) == One(notes[0] == x) + Count(notes[1..], x)
  {
    if |notes| > 1 {
      CountFirst(notes[..|notes| - 1], x);
      assert notes[1..][..|notes| - 2] == notes[..|notes| - 1][1..];
    }
  }

  // ---------- TLPs ----------

  /** Every TLP in the ring is accounted for: by the pending counter, by an announcement on its
      way, by a thread in the middle of a step, or by an announcement that could not be sent. */
  ghost predicate TlpInv(t: TlpPath, ready: nat, announcing: bool, taking: bool) {
    && t.sent == t.delivered + t.ring && t.resets == 0
    && |t.ring| == t.pending + ready + One(announcing) + One(taking) + t.silent
  }

  ghost predicate Tlps(s: State) {
    TlpInv(s.tlp, Count(s.notes, TlpReady), s.vcpu.VcAnnounce?, s.vcs == VPollTake)
  }

  lemma TlpVcpu(z: Sizes, s: State, a: Action)
    requires Tlps(s) && Enabled(s, a) && (a.SendTlp? || a.AnnounceTlp? || a.RecvCplReady? || a.TakeCpl? || a.SendOther? || a.GuestStore?)
    ensures Tlps(DoVcpu(z, s, a))
  {
    CountAppend(s.notes, TlpReady, TlpReady);
    CountAppend(s.notes, Other, TlpReady);
    if a.SendTlp? { assert s.tlp.delivered + (s.tlp.ring + [a.body]) == s.tlp.sent + [a.body]; }
  }

  lemma TlpPoller(z: Sizes, s: State, a: Action)
    requires Tlps(s) && Enabled(s, a)
    ensures Tlps(DoPoller(z, s, a))
  {
    CountAppend(s.notes, DmaDone, TlpReady);
  }

  lemma TlpVcs(z: Sizes, s: State, a: Action)
    requires Tlps(s) && Enabled(s, a)
    ensures Tlps(DoVcs(z, s, a))
  {
    if s.notes != [] { CountFirst(s.notes, TlpReady); }
    if s.tlp.ring != [] { assert (s.tlp.delivered + [s.tlp.ring[0]]) + s.tlp.ring[1..] == s.tlp.delivered + s.tlp.ring; }
  }

  // ---------- completions ----------

  /** Every announced completion is in the ring. */
  ghost predicate Cpls(s: State) {
    && |s.cpl.ring| == s.cpl.ready + One(s.vcs == VCplReady) + One(s.vcpu.VcTake?)
    && s.cpl.missing == 0 && s.vcpu != VcFailed
  }

  lemma CplVcpu(z: Sizes, s: State, a: Action)
    requires Cpls(s) && Enabled(s, a) && ByVcpu(a)
    ensures Cpls(DoVcpu(z, s, a))
  {
  }

  lemma CplPoller(z: Sizes, s: State, a: Action)
    requires Cpls(s) && Enabled(s, a) && ByPoller(a)
    ensures Cpls(DoPoller(z, s, a))
  {
  }

  lemma CplVcs(z: Sizes, s: State, a: Action)
    requires Cpls(s) && Enabled(s, a)
    ensures Cpls(DoVcs(z, s, a))
  {
  }

  lemma CplStep(z: Sizes, s: State, a: Action)
    requires Cpls(s) && Enabled(s, a)
    ensures Cpls(Do(z, s, a))
  {
    if ByVcpu(a) { CplVcpu(z, s, a); } else if ByPoller(a) { CplPoller(z, s, a); } else { CplVcs(z, s, a); }
  }

  // ---------- DMA ----------

  function Mid(p: PollerPc): seq<Op> {
    if p.PServe? || p.PComplete? then [p.op] else []
  }

  predicate Waiting(v: VcsPc) { v.VWait? || v.VTake? }

  /** What VCS is owed lies in the completion ring, with the poller and in the request ring, in
      this order, and an announced completion is in its ring. */
  ghost predicate Owed(d: DmaPath, p: PollerPc, v: VcsPc, done: nat) {
    && d.owed == d.completions + Mid(p) + d.requests && d.missing == 0
    && |d.completions| >= done + One(p == PAnnounce) + One(v.VTake?)
  }

  ghost predicate Rising(ops: seq<Op>, top: nat) {
    && (forall i, j :: 0 <= i < j < |ops| ==> ops[i].n < ops[j].n)
    && (forall i :: 0 <= i < |ops| ==> ops[i].n < top)
  }

  predicate EndsWith(ops: seq<Op>, op: Op) { ops != [] && ops[|ops| - 1] == op }

  /** Requests are numbered; the one waited for is the latest, and the last that is owed unless a
      full ring swallowed it. */
  ghost predicate Numbers(d: DmaPath, v: VcsPc) {
    && Rising(d.owed, d.started)
    && (Waiting(v) ==> v.op.n + 1 == d.started && (d.dropped == 0 ==> EndsWith(d.owed, v.op)))
  }

  /** Completed requests have been carried out. */
  ghost predicate Carried(d: DmaPath, p: PollerPc) {
    && (forall c :: c in d.completions ==> c in d.applied)
    && (p.PComplete? ==> p.op in d.applied)
  }

  /** A call that waits will be notified: a notification is on its way, or a request still is. */
  ghost predicate Due(d: DmaPath, p: PollerPc, v: VcsPc, done: nat) {
    v.VWait? && d.dropped == 0 ==> d.requests != [] || Mid(p) != [] || p == PAnnounce || done > 0
  }

  ghost predicate Dmas(s: State) {
    && Owed(s.dma, s.poller, s.vcs, Count(s.notes, DmaDone)) && Numbers(s.dma, s.vcs)
    && Carried(s.dma, s.poller)
    && Due(s.dma, s.poller, s.vcs, Count(s.notes, DmaDone))
  }

  lemma DmaVcpu(z: Sizes, s: State, a: Action)
    requires Dmas(s) && Enabled(s, a)
    ensures Dmas(DoVcpu(z, s, a))
  {
    CountAppend(s.notes, TlpReady, DmaDone);
    CountAppend(s.notes, Other, DmaDone);
  }

  // ---------- DMA: the poller ----------

  /** Dropping a completion removes the poller's request from what is owed. */
  lemma DropMiddle(c: seq<Op>, op: Op, r: seq<Op>)
    ensures Without(c + [op] + r, |c|) == c + r
  {
  }

  lemma OwedPoller(z: Sizes, s: State, a: Action)
    requires Owed(s.dma, s.poller, s.vcs, Count(s.notes, DmaDone)) && Enabled(s, a)
    ensures var s' := DoPoller(z, s, a); Owed(s'.dma, s'.poller, s'.vcs, Count(s'.notes, DmaDone))
  {
    CountAppend(s.notes, DmaDone, DmaDone);
    match a {
      case TakeRequest => TakeOwed(s.dma);
      case Complete => CompleteOwed(z, s);
      case _ =>
    }
  }

  lemma TakeOwed(d: DmaPath)
    requires d.requests != []
    ensures d.completions + [] + d.requests == d.completions + [d.requests[0]] + d.requests[1..]
  {
    assert d.requests == [d.requests[0]] + d.requests[1..];
  }

  lemma CompleteOwed(z: Sizes, s: State)
    requires Owed(s.dma, s.poller, s.vcs, Count(s.notes, DmaDone)) && s.poller.PComplete?
    ensures var s' := DoPoller(z, s, Complete); Owed(s'.dma, s'.poller, s'.vcs, Count(s'.notes, DmaDone))
  {
    DropMiddle(s.dma.completions, s.poller.op, s.dma.requests);
    assert s.dma.completions + [s.poller.op] + [] + s.dma.requests == s.dma.completions + [s.poller.op] + s.dma.requests;
  }

  lemma NumbersPoller(z: Sizes, s: State, a: Action)
    requires Numbers(s.dma, s.vcs) && Enabled(s, a)
    ensures var s' := DoPoller(z, s, a); Numbers(s'.dma, s'.vcs)
  {
    PollerOwes(z, s, a);
    NumbersMove(s.dma, DoPoller(z, s, a).dma, s.vcs);
  }

  lemma NumbersMove(d: DmaPath, d': DmaPath, v: VcsPc)
    requires Numbers(d, v) && d'.started == d.started
    requires (d'.owed == d.owed && d'.dropped == d.dropped) || (d'.owed == Without(d.owed, |d.completions|) && d'.dropped == d.dropped + 1)
    ensures Numbers(d', v)
  {
    RisingWithout(d.owed, d.started, |d.completions|);
  }

  /** The poller changes what is owed only when a full ring swallows a completion. */
  lemma PollerOwes(z: Sizes, s: State, a: Action)
    requires Enabled(s, a)
    ensures var d, d' := s.dma, DoPoller(z, s, a).dma;
      && DoPoller(z, s, a).vcs == s.vcs && d'.started == d.started
      && ((d'.owed == d.owed && d'.dropped == d.dropped) || (d'.owed == Without(d.owed, |d.completions|) && d'.dropped == d.dropped + 1))
  {
  }

  lemma RisingWithout(ops: seq<Op>, top: nat, i: nat)
    requires Rising(ops, top)
    ensures Rising(Without(ops, i), top)
  {
  }

  lemma CarriedPoller(z: Sizes, s: State, a: Action)
    requires Carried(s.dma, s.poller) && Enabled(s, a)
    ensures var s' := DoPoller(z, s, a); Carried(s'.dma, s'.poller)
  {
  }

  lemma DuePoller(z: Sizes, s: State, a: Action)
    requires Due(s.dma, s.poller, s.vcs, Count(s.notes, DmaDone)) && Enabled(s, a)
    ensures var s' := DoPoller(z, s, a); Due(s'.dma, s'.poller, s'.vcs, Count(s'.notes, DmaDone))
  {
    CountAppend(s.notes, DmaDone, DmaDone);
  }

  // ---------- DMA: the VCS thread ----------

  lemma DropFirst(c: seq<Op>, m: seq<Op>, r: seq<Op>)
    requires c != []
    ensures Without(c + m + r, 0) == c[1..] + m + r
  {
  }

  lemma AddLast(c: seq<Op>, m: seq<Op>, r: seq<Op>, op: Op)
    ensures (c + m + r) + [op] == c + m + (r + [op])
  {
  }

  lemma OwedTake(z: Sizes, s: State)
    requires Owed(s.dma, s.poller, s.vcs, Count(s.notes, DmaDone)) && Enabled(s, TakeDmaCpl)
    ensures var s' := DoVcs(z, s, TakeDmaCpl); Owed(s'.dma, s'.poller, s'.vcs, Count(s'.notes, DmaDone))
  {
    DropFirst(s.dma.completions, Mid(s.poller), s.dma.requests);
  }

  lemma OwedStart(z: Sizes, s: State, a: Action)
    requires Owed(s.dma, s.poller, s.vcs, Count(s.notes, DmaDone)) && Enabled(s, a) && a.StartDma?
    ensures var s' := DoVcs(z, s, a); Owed(s'.dma, s'.poller, s'.vcs, Count(s'.notes, DmaDone))
  {
    AddLast(s.dma.completions, Mid(s.poller), s.dma.requests, NewOp(s, a));
  }

  lemma OwedOther(z: Sizes, s: State, a: Action)
    requires Owed(s.dma, s.poller, s.vcs, Count(s.notes, DmaDone)) && Enabled(s, a) && !a.StartDma? && !a.TakeDmaCpl?
    ensures var s' := DoVcs(z, s, a); Owed(s'.dma, s'.poller, s'.vcs, Count(s'.notes, DmaDone))
  {
    if s.notes != [] { CountFirst(s.notes, DmaDone); }
  }

  lemma OwedVcs(z: Sizes, s: State, a: Action)
    requires Owed(s.dma, s.poller, s.vcs, Count(s.notes, DmaDone)) && Enabled(s, a)
    ensures var s' := DoVcs(z, s, a); Owed(s'.dma, s'.poller, s'.vcs, Count(s'.notes, DmaDone))
  {
    match a {
      case TakeDmaCpl => OwedTake(z, s);
      case StartDma(_, _, _, _, _) => OwedStart(z, s, a);
      case _ => OwedOther(z, s, a);
    }
  }

  lemma NumbersVcs(z: Sizes, s: State, a: Action)
    requires Numbers(s.dma, s.vcs) && Enabled(s, a)
    ensures var s' := DoVcs(z, s, a); Numbers(s'.dma, s'.vcs)
  {
    match a {
      case TakeDmaCpl => RisingWithout(s.dma.owed, s.dma.started, 0);
      case StartDma(_, _, _, _, _) => NumbersStart(z, s, a);
      case _ => assert DoVcs(z, s, a).dma == s.dma;
    }
  }

  lemma NumbersStart(z: Sizes, s: State, a: Action)
    requires Numbers(s.dma, s.vcs) && Enabled(s, a) && a.StartDma?
    ensures var s' := DoVcs(z, s, a); Numbers(s'.dma, s'.vcs)
  {
    RisingMore(s.dma.owed, s.dma.started, NewOp(s, a));
  }

  lemma RisingMore(ops: seq<Op>, top: nat, op: Op)
    requires Rising(ops, top) && op.n == top
    ensures Rising(ops + [op], top + 1) && Rising(ops, top + 1) && EndsWith(ops + [op], op)
  {
  }

  lemma CarriedVcs(z: Sizes, s: State, a: Action)
    requires Carried(s.dma, s.poller) && Enabled(s, a)
    ensures var s' := DoVcs(z, s, a); Carried(s'.dma, s'.poller)
  {
  }

  lemma DueVcs(z: Sizes, s: State, a: Action)
    requires Due(s.dma, s.poller, s.vcs, Count(s.notes, DmaDone)) && Enabled(s, a)
    requires Owed(s.dma, s.poller, s.vcs, Count(s.notes, DmaDone))
    ensures var s' := DoVcs(z, s, a); Due(s'.dma, s'.poller, s'.vcs, Count(s'.notes, DmaDone))
  {
    if s.notes != [] { CountFirst(s.notes, DmaDone); }
  }

  lemma DmaKept(z: Sizes, s: State, a: Action)
    requires Dmas(s) && Enabled(s, a)
    ensures Dmas(Do(z, s, a))
  {
    if ByVcpu(a) {
      DmaVcpu(z, s, a);
    } else if ByPoller(a) {
      OwedPoller(z, s, a);
      NumbersPoller(z, s, a);
      CarriedPoller(z, s, a);
      DuePoller(z, s, a);
    } else {
      OwedVcs(z, s, a);
      NumbersVcs(z, s, a);
      CarriedVcs(z, s, a);
      DueVcs(z, s, a);
    }
  }

  ghost predicate ByVcpu(a: Action) { a.SendTlp? || a.AnnounceTlp? || a.RecvCplReady? || a.TakeCpl? || a.SendOther? || a.GuestStore? }
  ghost predicate ByPoller(a: Action) { a.TakeRequest? || a.TakeMsi? || a.NextPhase? || a.Serve? || a.Complete? || a.AnnounceDma? }

  /** Calls that returned without their completion. */
  function Debt(s: State): int { |s.dma.owed| + s.dma.dropped - One(Waiting(s.vcs)) }

  lemma DebtVcpu(z: Sizes, s: State, a: Action)
    requires Enabled(s, a) && ByVcpu(a)
    ensures Debt(DoVcpu(z, s, a)) == Debt(s)
  {
  }

  lemma DebtPoller(z: Sizes, s: State, a: Action)
    requires Dmas(s) && Enabled(s, a) && ByPoller(a)
    ensures Debt(DoPoller(z, s, a)) == Debt(s)
  {
    PollerOwes(z, s, a);
  }

  lemma DebtVcs(z: Sizes, s: State, a: Action)
    requires Dmas(s) && Enabled(s, a)
    ensures Debt(DoVcs(z, s, a)) == Debt(s) + One(a.GiveUp?)
  {
  }

  lemma DebtStep(z: Sizes, s: State, a: Action)
    requires Dmas(s) && Enabled(s, a)
    ensures Debt(Do(z, s, a)) == Debt(s) + One(a.GiveUp?)
  {
    if ByVcpu(a) { DebtVcpu(z, s, a); } else if ByPoller(a) { DebtPoller(z, s, a); } else { DebtVcs(z, s, a); }
  }

  // ---------- data ----------

  /** What carrying out `op` has achieved: a write is the event at `at` of the memory log; what a
      read left in the buffer is guest memory as it stood then. */
  ghost predicate Outcome(d: Memories, op: Op) {
    && op.since <= d.at <= |d.ram.log|
    && if op.IsWrite() then d.at < |d.ram.log| && d.ram.log[d.at] == Tcp.MemEvent(op.addr, op.bytes)
       else Load(d.buf, op.offset, op.len) == Load(TcpInvariants.Replay(d.ram.log[..d.at]), op.addr, op.len)
  }

  /** Before that: a write's data lies in the buffer. */
  ghost predicate Prepared(d: Memories, op: Op) {
    && op.since <= |d.ram.log|
    && (op.IsWrite() ==> |op.bytes| == op.len && Load(d.buf, op.offset, op.len) == op.bytes)
  }

  predicate Served(d: DmaPath, p: PollerPc) { d.completions != [] || p.PComplete? }

  /** The call waits for the only completion that is owed. */
  predicate Alone(s: State) { Waiting(s.vcs) && s.dma.owed == [s.vcs.op] }

  ghost predicate Moved(s: State, op: Op) {
    if Served(s.dma, s.poller) then Outcome(s.data, op) else Prepared(s.data, op)
  }

  ghost predicate Datas(s: State) {
    s.data.ram.mem == TcpInvariants.Replay(s.data.ram.log) && (Alone(s) ==> Moved(s, s.vcs.op))
  }

  lemma OutcomeLater(d: Memories, op: Op, to: nat, what: seq<byte>)
    requires Outcome(d, op)
    ensures Outcome(d.(ram := Tcp.Write(d.ram, to, what)), op)
  {
    var log' := d.ram.log + [Tcp.MemEvent(to, what)];
    assert log'[..d.at] == d.ram.log[..d.at];
  }

  lemma CarriedOut(d: Memories, op: Op)
    requires Prepared(d, op) && d.ram.mem == TcpInvariants.Replay(d.ram.log)
    ensures Outcome(CarryOut(d, op), op)
  {
    if !op.IsWrite() {
      assert d.ram.log[..|d.ram.log|] == d.ram.log;
      LoadAfterStore(d.buf, op.offset, Load(d.ram.mem, op.addr, op.len));
    }
  }

  lemma LogKept(d: Memories, op: Op)
    requires d.ram.mem == TcpInvariants.Replay(d.ram.log)
    ensures var r := CarryOut(d, op).ram; r.mem == TcpInvariants.Replay(r.log)
  {
    if op.IsWrite() { TcpInvariants.ReplayWrite(d.ram, op.addr, Load(d.buf, op.offset, op.len)); }
  }

  /** Then the poller holds no other request. */
  lemma AloneMid(s: State)
    requires Owed(s.dma, s.poller, s.vcs, Count(s.notes, DmaDone)) && Alone(s)
    ensures s.poller.PServe? || s.poller.PComplete? ==> s.poller.op == s.vcs.op && s.dma.completions == [] && s.dma.requests == []
    ensures s.dma.requests != [] ==> s.dma.requests == [s.vcs.op] && s.dma.completions == []
  {
    var d := s.dma;
    assert d.owed == d.completions + Mid(s.poller) + d.requests;
    if Mid(s.poller) != [] { assert d.owed[|d.completions|] == s.poller.op; }
    if d.requests != [] { assert d.owed[|d.completions| + |Mid(s.poller)|] == d.requests[0]; }
  }

  lemma DataVcpu(z: Sizes, s: State, a: Action)
    requires Datas(s) && Enabled(s, a)
    ensures Datas(DoVcpu(z, s, a))
  {
    if a.GuestStore? {
      TcpInvariants.ReplayWrite(s.data.ram, a.to, a.what);
      if Alone(s) && Served(s.dma, s.poller) { OutcomeLater(s.data, s.vcs.op, a.to, a.what); }
    }
  }

  lemma DataServe(z: Sizes, s: State)
    requires Datas(s) && Owed(s.dma, s.poller, s.vcs, Count(s.notes, DmaDone)) && s.poller.PServe?
    ensures Datas(DoPoller(z, s, Serve))
  {
    LogKept(s.data, s.poller.op);
    if Alone(s) {
      AloneMid(s);
      CarriedOut(s.data, s.poller.op);
    }
  }

  /** Where only one completion is owed, a full ring swallows none: its slots hold older ones. */
  lemma DataComplete(z: Sizes, s: State)
    requires Datas(s) && Owed(s.dma, s.poller, s.vcs, Count(s.notes, DmaDone)) && Numbers(s.dma, s.vcs) && s.poller.PComplete?
    ensures Datas(DoPoller(z, s, Complete))
  {
    if |s.dma.completions| >= z.dmaCpl {
      var s' := DoPoller(z, s, Complete);
      DropMiddle(s.dma.completions, s.poller.op, s.dma.requests);
      assert s'.dma.owed[0] == s.dma.completions[0];
      if Waiting(s.vcs) { StillBehind(s); }
    } else if Alone(s) {
      AloneMid(s);
    }
  }

  lemma StillBehind(s: State)
    requires Owed(s.dma, s.poller, s.vcs, Count(s.notes, DmaDone)) && Numbers(s.dma, s.vcs)
    requires s.poller.PComplete? && s.dma.completions != [] && Waiting(s.vcs)
    ensures s.dma.completions[0] != s.vcs.op
  {
    var d := s.dma;
    assert d.owed[0] == d.completions[0] && d.owed[|d.completions|] == s.poller.op;
  }

  lemma DataPoller(z: Sizes, s: State, a: Action)
    requires Datas(s) && Owed(s.dma, s.poller, s.vcs, Count(s.notes, DmaDone)) && Numbers(s.dma, s.vcs) && Enabled(s, a)
    ensures Datas(DoPoller(z, s, a))
  {
    match a {
      case Serve => DataServe(z, s);
      case Complete => DataComplete(z, s);
      case _ =>
    }
  }

  lemma DataStart(z: Sizes, s: State, a: Action)
    requires Datas(s) && Owed(s.dma, s.poller, s.vcs, Count(s.notes, DmaDone)) && Enabled(s, a) && a.StartDma?
    ensures Datas(DoVcs(z, s, a))
  {
    if Writes(a.kind) { LoadAfterStore(s.data.buf, a.offset, a.bytes); }
  }

  /** Nothing else the VCS thread does moves data, or makes a request the only one. */
  lemma VcsMovesNoData(z: Sizes, s: State, a: Action)
    requires Enabled(s, a) && !a.StartDma?
    ensures var s' := DoVcs(z, s, a);
      && s'.data == s.data
      && (Alone(s') ==> Alone(s) && s'.vcs.op == s.vcs.op && Served(s'.dma, s'.poller) == Served(s.dma, s.poller))
  {
  }

  lemma DataVcs(z: Sizes, s: State, a: Action)
    requires Datas(s) && Owed(s.dma, s.poller, s.vcs, Count(s.notes, DmaDone)) && Enabled(s, a)
    ensures Datas(DoVcs(z, s, a))
  {
    if a.StartDma? { DataStart(z, s, a); } else { VcsMovesNoData(z, s, a); }
  }

  lemma DataKept(z: Sizes, s: State, a: Action)
    requires Datas(s) && Dmas(s) && Enabled(s, a)
    ensures Datas(Do(z, s, a))
  {
    if ByVcpu(a) { DataVcpu(z, s, a); } else if ByPoller(a) { DataPoller(z, s, a); } else { DataVcs(z, s, a); }
  }

  // ---------- all of it ----------

  ghost predicate All(s: State) { Tlps(s) && Cpls(s) && Dmas(s) && Datas(s) }

  /** The invariant, taken apart only where All itself is mentioned. */
  ghost predicate Inv(s: State) {
    forall x {:trigger All(x)} :: x == s ==> All(x)
  }

  lemma TlpKept(z: Sizes, s: State, a: Action)
    requires Tlps(s) && Enabled(s, a)
    ensures Tlps(Do(z, s, a))
  {
    if ByVcpu(a) { TlpVcpu(z, s, a); } else if ByPoller(a) { TlpPoller(z, s, a); } else { TlpVcs(z, s, a); }
  }

  lemma Step(z: Sizes, s: State, a: Action)
    requires Inv(s) && Enabled(s, a)
    ensures Inv(Do(z, s, a)) && Debt(Do(z, s, a)) == Debt(s) + One(a.GiveUp?)
  {
    assert All(s);
    TlpKept(z, s, a);
    CplStep(z, s, a);
    DmaKept(z, s, a);
    DataKept(z, s, a);
    DebtStep(z, s, a);
  }

  lemma InitialTlps(s: State)
    requires s.tlp == TlpPath([], 0, [], [], 0, 0) && s.notes == [] && s.vcpu == VcIdle && s.vcs == VIdle
    requires s.cpl == CplPath([], 0, 0, [])
    ensures Tlps(s) && Cpls(s)
  {
    assert s.tlp.sent == s.tlp.delivered + s.tlp.ring;
  }

  lemma InitialDmas(s: State)
    requires s == Initial()
    ensures Dmas(s) && Datas(s) && Debt(s) == 0
  {
    assert s.dma.owed == s.dma.completions + Mid(s.poller) + s.dma.requests;
  }

  lemma InitialInv(s: State)
    requires s == Initial()
    ensures Inv(s) && Debt(s) == 0
  {
    InitialTlps(s);
    InitialDmas(s);
  }

  function GaveUp(run: seq<Action>): nat {
    if run == [] then 0 else One(run[0].GiveUp?) + GaveUp(run[1..])
  }

  lemma {:induction false} RunKeeps(z: Sizes, s: State, run: seq<Action>)
    requires Inv(s) && Legal(z, s, run)
    ensures Inv(Exec(z, s, run)) && Debt(Exec(z, s, run)) == Debt(s) + GaveUp(run)
    decreases |run|
  {
    if run != [] {
      Step(z, s, run[0]);
      RunKeeps(z, Do(z, s, run[0]), run[1..]);
    }
  }

  lemma RunInv(z: Sizes, run: seq<Action>) returns (s: State)
    requires Legal(z, Initial(), run)
    ensures s == Exec(z, Initial(), run) && Inv(s) && Debt(s) == GaveUp(run)
  {
    InitialInv(Initial());
    RunKeeps(z, Initial(), run);
    s := Exec(z, Initial(), run);
  }
}
