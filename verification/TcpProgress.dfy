/** When a DMA wait ends, and what an abandoned DMA does to the ones after it. */
module TcpProgress {
  import opened GuestMemory
  import opened TcpProtocol
  import opened TcpInvariants
  import opened TcpTheorems

  // ---------- the poller's remaining work ----------

  function QueueWork(xs: seq<Item>): nat {
    if xs == [] then 0 else (if xs[0].OpItem? then 4 else 1) + QueueWork(xs[1..])
  }

  function PollerWork(p: PollerPc): nat {
    match p
    case PWrite(_) => 3
    case PData(_, _) => 3
    case PCpl(_) => 2
    case PSync(_) => 1
    case _ => 0
  }

  /** Actions the poller still has to make before it runs dry. */
  function Work(s: State): nat {
    QueueWork(s.up.queued) + PollerWork(s.poller)
  }

  lemma PollerWorks(s: State, a: PollerAct)
    requires InvUp(s) && PollerEnabled(s, a)
    ensures Work(DoPoller(s, a)) == Work(s) - 1
  {
    match a {
      case Take => UpTake(s);
      case RecvUpData => UpRecv(s);
      case _ =>
    }
  }

  /** What the poller does next. */
  function NextOf(s: State): PollerAct {
    match s.poller
    case PWrite(_) => RecvUpData
    case PData(_, _) => SendDownData
    case PCpl(_) => SendDownCpl
    case PSync(_) => SendDmaDone
    case _ => Take
  }

  /** The vCPU thread cannot block the poller: whatever it does, waiting for a completion
      with the TLP mutex held included, the poller can go on as long as there is work. */
  lemma PollerNotBlocked(s: State)
    requires InvUp(s) && s.vcs.VWait? && Work(s) > 0
    ensures PollerEnabled(s, NextOf(s))
  {
    assert s.up.wire + [] == s.up.wire;
    if s.poller.PIdle? { assert s.up.queued != []; }
  }

  /** Only DMA notifications have been added. */
  ghost predicate Announced(ctrl: seq<Ctrl>, ctrl': seq<Ctrl>) {
    ctrl <= ctrl' && forall i :: |ctrl| <= i < |ctrl'| ==> ctrl'[i] == DmaDone
  }

  lemma PollerStep(s: State)
    requires Inv(s) && s.vcs.VWait? && Work(s) > 0
    ensures PollerEnabled(s, NextOf(s))
    ensures var s' := DoPoller(s, NextOf(s));
      && Inv(s') && s'.vcs == s.vcs && Work(s') == Work(s) - 1
      && Outstanding(s') == Outstanding(s) && s'.down.discarded == s.down.discarded
      && Announced(s.ctrl, s'.ctrl) && s'.count == s.count && s'.link == s.link
  {
    UpHolds(s);
    PollerNotBlocked(s);
    PollerWorks(s, NextOf(s));
    PollerKeepsOutstanding(s, NextOf(s));
    PollerLeaves(s, NextOf(s));
    Step(s, Poller(NextOf(s)));
  }

  lemma Nothing(s: State)
    requires InvUp(s) && s.vcs.VWait? && Work(s) == 0
    ensures s.up.queued == [] && !Busy(s.poller) && !s.poller.PWrite?
  {
  }

  lemma NoWork(s: State)
    requires Inv(s) && s.vcs.VWait? && Work(s) == 0
    ensures Outstanding(s) == Answered(s.down.served) && |Outstanding(s)| == |s.down.served|
    ensures |Outstanding(s)| == multiset(s.ctrl)[DmaDone] + s.down.discarded
  {
    UpHolds(s);
    DownHolds(s);
    Nothing(s);
    AnsweredLength(s.down.served);
    assert Outstanding(s) == Answered(s.down.served) + [] + [];
  }

  // ---------- no deadlock ----------

  predicate QemuOnly(run: seq<Action>) {
    forall i :: 0 <= i < |run| ==> run[i].Vcpu? || run[i].Poller?
  }

  /** While the VCS thread waits, the poller alone answers everything outstanding, in Work(s)
      actions. */
  lemma {:induction false} PollerFinishes(s: State) returns (run: seq<Action>)
    requires Inv(s) && s.vcs.VWait?
    ensures Legal(s, run) && QemuOnly(run) && |run| == Work(s)
    ensures var s' := Exec(s, run);
      && Inv(s') && s'.vcs == s.vcs && Work(s') == 0
      && Outstanding(s') == Outstanding(s) && s'.down.discarded == s.down.discarded
      && Announced(s.ctrl, s'.ctrl) && s'.count == s.count && s'.link == s.link
    decreases Work(s)
  {
    run := [];
    if Work(s) > 0 {
      PollerStep(s);
      var rest := PollerFinishes(DoPoller(s, NextOf(s)));
      run := [Poller(NextOf(s))] + rest;
      assert run[1..] == rest;
    }
  }

  /** Every answer up to the one the call waits for is announced. */
  predicate OwnAnnounced(s: State) {
    && s.vcs.VWait? && s.down.served != [] && s.down.served[|s.down.served| - 1].op == s.vcs.op
    && multiset(s.ctrl)[DmaDone] == |s.down.served|
  }

  lemma LastAnswered(xs: seq<Answer>)
    requires xs != []
    ensures |Answered(xs)| == |xs| && Answered(xs)[|xs| - 1] == xs[|xs| - 1].op
  {
    AnsweredLength(xs);
    if |xs| > 1 { LastAnswered(xs[1..]); }
  }

  lemma OwnIsLast(s: State)
    requires Inv(s) && s.vcs.VWait? && Work(s) == 0 && s.down.discarded == 0
    ensures OwnAnnounced(s)
  {
    DownHolds(s);
    NoWork(s);
    LastAnswered(s.down.served);
  }

  lemma AnnouncedMeans(s: State)
    requires Inv(s) && OwnAnnounced(s)
    ensures s.down.discarded == 0
  {
    DownHolds(s);
  }

  lemma PollerKeepsOutstanding(s: State, a: PollerAct)
    requires InvUp(s) && PollerEnabled(s, a)
    ensures var s' := DoPoller(s, a);
      Outstanding(s') == Outstanding(s) && s'.down.discarded == s.down.discarded && s'.vcs == s.vcs
  {
    match a {
      case Take => SameOutstanding(s);
      case RecvUpData => OutRecv(s);
      case _ =>
    }
  }

  lemma VcpuKeepsOutstanding(s: State, a: VcpuAct)
    requires VcpuEnabled(s, a)
    ensures var s' := DoVcpu(s, a);
      s'.down == s.down && s'.poller == s.poller && s'.up == s.up && s'.vcs == s.vcs
  {
  }

  lemma QemuKeepsOutstanding(s: State, a: Action)
    requires InvUp(s) && Enabled(s, a) && (a.Vcpu? || a.Poller?)
    ensures var s' := Do(s, a);
      Outstanding(s') == Outstanding(s) && s'.down.discarded == s.down.discarded && s'.vcs == s.vcs
  {
    match a {
      case Vcpu(v) => VcpuKeepsOutstanding(s, v);
      case Poller(p) => PollerKeepsOutstanding(s, p);
    }
  }

  lemma {:induction false} QemuKeepsWaiting(s: State, run: seq<Action>)
    requires Inv(s) && Legal(s, run) && QemuOnly(run)
    ensures var s' := Exec(s, run);
      Inv(s') && Outstanding(s') == Outstanding(s) && s'.down.discarded == s.down.discarded && s'.vcs == s.vcs
    decreases |run|
  {
    if run != [] {
      Step(s, run[0]);
      UpHolds(s);
      QemuKeepsOutstanding(s, run[0]);
      QemuKeepsWaiting(Do(s, run[0]), run[1..]);
    }
  }

  /** The completion a call waits for is on its way, announced with all that come before it, or
      QEMU gets there by itself, exactly when no poll has ever thrown a notification away. */
  lemma OwnAnswerComes(s: State)
    requires Reachable(s) && s.vcs.VWait?
    ensures (exists run :: Legal(s, run) && QemuOnly(run) && OwnAnnounced(Exec(s, run))) <==> s.down.discarded == 0
  {
    ReachableInv(s);
    if s.down.discarded == 0 {
      var run := PollerFinishes(s);
      OwnIsLast(Exec(s, run));
    } else {
      forall run | Legal(s, run) && QemuOnly(run) ensures !OwnAnnounced(Exec(s, run)) {
        QemuKeepsWaiting(s, run);
        if OwnAnnounced(Exec(s, run)) { AnnouncedMeans(Exec(s, run)); }
      }
    }
  }

  lemma NoneLeft(s: State)
    requires Inv(s) && s.vcs.VWait? && s.down.discarded >= |Outstanding(s)|
    ensures DmaDone !in s.ctrl
  {
    DownHolds(s);
    AnsweredLength(s.down.served);
  }

  /** With as many thrown away as are outstanding, no notification at all ever comes, whatever
      QEMU does: the wait is over only by abandoning it. */
  lemma StarvedForever(s: State, run: seq<Action>)
    requires Inv(s) && s.vcs.VWait? && s.down.discarded >= |Outstanding(s)|
    requires Legal(s, run) && QemuOnly(run)
    ensures DmaDone !in Exec(s, run).ctrl
  {
    QemuKeepsWaiting(s, run);
    NoneLeft(Exec(s, run));
  }

  /** With fewer, some notification comes. */
  lemma WaitEnds(s: State)
    requires Reachable(s) && s.vcs.VWait?
    ensures (exists run :: Legal(s, run) && QemuOnly(run) && DmaDone in Exec(s, run).ctrl)
       <==> s.down.discarded < |Outstanding(s)|
  {
    ReachableInv(s);
    if s.down.discarded < |Outstanding(s)| {
      var run := PollerFinishes(s);
      NoWork(Exec(s, run));
    } else {
      forall run | Legal(s, run) && QemuOnly(run) ensures DmaDone !in Exec(s, run).ctrl {
        StarvedForever(s, run);
      }
    }
  }

  // ---------- a notification thrown away is never made up for ----------

  lemma DiscardedGrows(s: State, a: Action)
    requires Enabled(s, a)
    ensures Do(s, a).down.discarded >= s.down.discarded
  {
  }

  lemma {:induction false} DiscardedKeeps(s: State, run: seq<Action>)
    requires Legal(s, run)
    ensures Exec(s, run).down.discarded >= s.down.discarded
    decreases |run|
  {
    if run != [] {
      DiscardedGrows(s, run[0]);
      DiscardedKeeps(Do(s, run[0]), run[1..]);
    }
  }

  /** So one abandoned DMA whose late notification meets a poll ends all DMA: from then on, in
      every run, no DMA takes its own completion.  Reads never return 0 again; a write could only
      by taking an earlier write with an equal tag for itself. */
  lemma NoDmaAfterDiscard(s: State, run: seq<Action>)
    requires Reachable(s) && s.down.discarded > 0 && Legal(s, run)
    ensures var s' := Exec(s, run); DmaEnabled(s', RecvDownCpl) && s'.down.wire[0].DownCpl? ==>
      && s'.down.wire[0].op != s'.vcs.op
      && (s'.vcs.op.IsRead() && s'.count.rd <= 0x1_0000_0000 ==> !Matches(s'))
      && (TagUnique(s', s'.vcs.op) ==> !Matches(s'))
  {
    ReachableInv(s);
    RunKeeps(s, run);
    DiscardedKeeps(s, run);
    var s' := Exec(s, run);
    if DmaEnabled(s', RecvDownCpl) && s'.down.wire[0].DownCpl? { NotOwn(s'); }
  }

  lemma NotOwn(s: State)
    requires Inv(s) && DmaEnabled(s, RecvDownCpl) && s.down.wire[0].DownCpl? && s.down.discarded > 0
    ensures s.down.wire[0].op != s.vcs.op
    ensures s.vcs.op.IsRead() && s.count.rd <= 0x1_0000_0000 ==> !Matches(s)
    ensures TagUnique(s, s.vcs.op) ==> !Matches(s)
  {
    NumbersHold(s);
    OldestTaken(s);
    if s.down.wire[0].op == s.vcs.op { OwnNeedsAll(s); }
    if s.vcs.op.IsRead() && s.count.rd <= 0x1_0000_0000 { ReadTagUnique(s, s.vcs.op); }
  }

  /** The completion at the head is that of the oldest outstanding DMA, and of the direction the
      VCS thread waits for. */
  lemma OldestTaken(s: State)
    requires Inv(s) && DmaEnabled(s, RecvDownCpl) && s.down.wire[0].DownCpl?
    ensures Outstanding(s) != [] && s.down.wire[0].op == Outstanding(s)[0] && s.down.wire[0].op in Outstanding(s)
    ensures Outstanding(s)[|Outstanding(s)| - 1] == s.vcs.op && s.down.wire[0].op.IsRead() == s.vcs.op.IsRead() && s.vcs.op in Outstanding(s)
  {
    DownHolds(s);
    WireHead(s);
    var out := Outstanding(s);
    assert out[|out| - 1] == s.vcs.op;
  }

  /** A DMA takes its own completion only if no poll has ever thrown a notification away. */
  lemma OwnNeedsAll(s: State)
    requires Inv(s) && DmaEnabled(s, RecvDownCpl) && s.down.wire[0].DownCpl? && s.down.wire[0].op == s.vcs.op
    ensures s.down.discarded == 0 && |Outstanding(s)| == 1
  {
    OldestTaken(s);
    NumbersHold(s);
    var out := Outstanding(s);
    assert out[0] == out[|out| - 1];
    NoneDiscarded(s);
  }

  lemma NoneDiscarded(s: State)
    requires Inv(s) && Got(s.vcs) && |Outstanding(s)| == 1
    ensures s.down.discarded == 0
  {
    DownHolds(s);
    AnsweredLength(s.down.served);
  }

  // ---------- the refused entry points ----------

  /** No DMA is outstanding and no write was ever started. */
  ghost predicate NoDma(s: State) {
    !s.link.initialized && Outstanding(s) == [] && s.up.issued == []
  }

  lemma NoDmaStep(s: State, a: Action)
    requires NoDma(s) && Inv(s) && Enabled(s, a)
    ensures NoDma(Do(s, a))
  {
    UpHolds(s);
    match a {
      case Vcpu(_) => QemuKeepsOutstanding(s, a);
      case Poller(p) => QemuKeepsOutstanding(s, a); PollerKeepsIssued(s, p);
      case Dma(d) => NoDmaBegins(s, d);
      case Poll(q) => PollKeepsOutstanding(s, q);
      case Notify(t) => OutNotify(s, t);
      case LinkFails =>
    }
  }

  lemma NoDmaBegins(s: State, a: DmaAct)
    requires NoDma(s) && Inv(s)
    ensures !DmaEnabled(s, a)
  {
    DownHolds(s);
  }

  lemma PollerKeepsIssued(s: State, a: PollerAct)
    requires PollerEnabled(s, a)
    ensures DoPoller(s, a).up.issued == s.up.issued && DoPoller(s, a).link == s.link
  {
  }

  lemma PollKeepsOutstanding(s: State, a: PollAct)
    requires PollEnabled(s, a)
    ensures Outstanding(DoPoll(s, a)) == Outstanding(s) && DoPoll(s, a).up == s.up
    ensures DoPoll(s, a).link == s.link
  {
  }

  lemma {:induction false} NoDmaRun(s: State, run: seq<Action>)
    requires NoDma(s) && Inv(s) && Legal(s, run)
    ensures NoDma(Exec(s, run))
    decreases |run|
  {
    if run != [] {
      Step(s, run[0]);
      NoDmaStep(s, run[0]);
      NoDmaRun(Do(s, run[0]), run[1..]);
    }
  }

  /** g_initialized is the first thing every DMA entry point tests.  Only bridge_vcs_init,
      the shared-memory start, sets it; bridge_vcs_init_ex_rc with "tcp" does not.  Started
      that way, no run of the system ever contains a DMA. */
  lemma RefusedUntilInitialized(run: seq<Action>)
    requires Legal(Initial(false), run)
    ensures NoDma(Exec(Initial(false), run))
  {
    InitialInv(false);
    NoDmaRun(Initial(false), run);
  }

  // ---------- directions must not mix ----------

  /** All outstanding DMAs go the way an operation of kind `k` would, and no read is too long for
      the receive buffer. */
  ghost predicate AllWelcome(s: State, k: Kind) {
    forall o :: o in Outstanding(s) ==> o.IsRead() == (k == ReadBytes) && (o.IsRead() ==> o.len <= 4096)
  }

  /** A run in which no DMA is started while an abandoned one of the other direction is still
      unanswered, and no read of more than 4096 bytes. */
  ghost predicate Disciplined(s: State, run: seq<Action>)
    requires Legal(s, run)
    decreases |run|
  {
    run != [] ==>
      && (run[0].Dma? && run[0].d.StartDma? ==> AllWelcome(s, run[0].d.kind) && Short(run[0].d))
      && Disciplined(Do(s, run[0]), run[1..])
  }

  predicate Short(a: DmaAct)
    requires a.StartDma?
  {
    a.kind == ReadBytes ==> a.len <= READ_BUFFER
  }

  ghost predicate Unmixed(s: State) {
    && !s.vcs.VBroken?
    && (Waiting(s.vcs) ==> AllWelcome(s, s.vcs.op.kind))
  }

  lemma UnmixedStart(s: State, op: Op)
    requires s.vcs == VIdle && AllWelcome(s, op.kind) && (op.IsRead() ==> op.len <= READ_BUFFER)
    ensures Unmixed(Start(s, op))
  {
    OpsOfAppend(s.up.queued, OpItem(op));
    assert Outstanding(Start(s, op)) == Outstanding(s) + [op];
  }

  lemma UnmixedConsume(s: State)
    requires Inv(s) && Unmixed(s) && DmaEnabled(s, RecvDownCpl)
    ensures Unmixed(DoDma(s, RecvDownCpl))
  {
    DownHolds(s);
    WireHead(s);
    assert Outstanding(s)[0] in Outstanding(s);
    OutHead(s.down.served, Pending(s.poller), OpsOf(s.up.queued));
  }

  lemma UnmixedData(s: State)
    requires Inv(s) && Unmixed(s) && DmaEnabled(s, RecvDownData)
    ensures Unmixed(DoDma(s, RecvDownData))
  {
    DownHolds(s);
    WireHead(s);
    FirstAnswer(s);
    assert Outstanding(s)[0] in Outstanding(s);
    assert Outstanding(DoDma(s, RecvDownData)) == Outstanding(s);
  }

  lemma UnmixedDma(s: State, a: DmaAct)
    requires Inv(s) && Unmixed(s) && DmaEnabled(s, a)
    requires a.StartDma? ==> AllWelcome(s, a.kind) && Short(a)
    ensures Unmixed(DoDma(s, a))
  {
    match a {
      case StartDma(k, addr, len, bytes) => UnmixedStart(s, Op(k, s.count.Of(k), addr, len, bytes, |s.ram.log|));
      case RecvDownData => UnmixedData(s);
      case RecvDownCpl => UnmixedConsume(s);
      case RecvTlp => TlpHolds(s); assert Outstanding(DoDma(s, a)) == Outstanding(s);
      case _ => assert Outstanding(DoDma(s, a)) == Outstanding(s);
    }
  }

  lemma UnmixedStep(s: State, a: Action)
    requires Inv(s) && Unmixed(s) && Enabled(s, a)
    requires a.Dma? && a.d.StartDma? ==> AllWelcome(s, a.d.kind) && Short(a.d)
    ensures Unmixed(Do(s, a))
  {
    UpHolds(s);
    TlpHolds(s);
    match a {
      case Vcpu(_) => QemuKeepsOutstanding(s, a);
      case Poller(_) => QemuKeepsOutstanding(s, a);
      case Dma(d) => UnmixedDma(s, d);
      case Poll(q) => PollSound(s, q);
      case Notify(t) =>
      case LinkFails => assert Outstanding(Do(s, a)) == Outstanding(s);
    }
  }

  lemma PollSound(s: State, a: PollAct)
    requires InvTlp(s) && PollEnabled(s, a)
    ensures !DoPoll(s, a).vcs.VBroken? && !Waiting(DoPoll(s, a).vcs)
  {
  }

  lemma {:induction false} UnmixedRun(s: State, run: seq<Action>)
    requires Inv(s) && Unmixed(s) && Legal(s, run) && Disciplined(s, run)
    ensures Unmixed(Exec(s, run))
    decreases |run|
  {
    if run != [] {
      Step(s, run[0]);
      UnmixedStep(s, run[0]);
      UnmixedRun(Do(s, run[0]), run[1..]);
    }
  }

  /** In a disciplined run the VCS thread, too, only ever receives what it expects: no message
      type is ever mistaken. */
  lemma NeverMistaken(init: bool, run: seq<Action>)
    requires Legal(Initial(init), run) && Disciplined(Initial(init), run)
    ensures !Exec(Initial(init), run).vcs.VBroken?
  {
    InitialInv(init);
    UnmixedRun(Initial(init), run);
  }

  // ---------- and what happens when they do ----------

  /** A write started while an abandoned read is the oldest outstanding DMA takes the read's
      DMA_DATA for its DMA_CPL; a read started behind an abandoned write does the converse. */
  lemma MixedIsMistaken(s: State)
    requires Reachable(s) && Got(s.vcs) && Outstanding(s) != []
    requires Outstanding(s)[0].IsRead() != s.vcs.op.IsRead()
    ensures exists d :: DmaEnabled(s, d) && DoDma(s, d).vcs.VBroken?
  {
    DmaAnswerMatches(s);
    if s.vcs.VData? {
      assert DmaEnabled(s, RecvDownData) && DoDma(s, RecvDownData).vcs.VBroken?;
    } else {
      assert DmaEnabled(s, RecvDownCpl) && DoDma(s, RecvDownCpl).vcs.VBroken?;
    }
  }

  lemma Extend(s0: State, run: seq<Action>, a: Action)
    requires Legal(s0, run) && Enabled(Exec(s0, run), a)
    ensures Legal(s0, run + [a]) && Exec(s0, run + [a]) == Do(Exec(s0, run), a)
    decreases |run|
  {
    if run == [] {
      assert run + [a] == [a];
      assert Legal(Do(s0, a), [a][1..]);
    } else {
      assert (run + [a])[1..] == run[1..] + [a];
      Extend(Do(s0, run[0]), run[1..], a);
    }
  }
}
