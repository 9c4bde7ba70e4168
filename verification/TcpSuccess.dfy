/** When a waiting DMA call can return 0. */
module TcpSuccess {
  import opened TcpProtocol
  import opened TcpInvariants
  import opened TcpTheorems
  import opened TcpProgress
  import TcpLost

  /** The VCS thread is about to receive the completion of `op`, which it waits for. */
  ghost predicate TakesOwn(s: State, op: Op) {
    DmaEnabled(s, RecvDownCpl) && s.vcs.op == op && s.down.wire[0] == DownCpl(op)
  }

  /** Some run of the whole system gets there. */
  ghost predicate CanTakeOwn(s: State, op: Op) {
    exists run: seq<Action> :: LeadsToOwn(s, run, op)
  }

  /** Then the call returns 0. */
  ghost predicate LeadsToOwn(s: State, run: seq<Action>, op: Op) {
    Legal(s, run) && TakesOwn(Exec(s, run), op) && Matches(Exec(s, run))
  }

  /** What is unanswered when the call waits is answered the way it expects: a read has only reads
      that fit the receive buffer before it, a write has nothing before it. */
  ghost predicate ClearAhead(s: State) {
    s.vcs.VWait? && if s.vcs.op.IsRead() then AllWelcome(s, ReadBytes) else |Outstanding(s)| == 1
  }

  ghost predicate Fit(s: State) {
    s.vcs.VWait? && ClearAhead(s) && TagUnique(s, s.vcs.op)
  }

  /** Rounds of the wait loop up to the k-th DMA notification, if those not yet sent follow what is
      on the connection. */
  function Rounds(ctrl: seq<Ctrl>, k: nat): nat {
    if k == 0 then 0 else if ctrl == [] then k else 1 + Rounds(ctrl[1..], if ctrl[0] == DmaDone then k - 1 else k)
  }

  /** More messages never make it fewer, and a notification leaves it as it is. */
  lemma {:induction false} RoundsMore(ctrl: seq<Ctrl>, k: nat, x: Ctrl)
    ensures Rounds(ctrl, k) <= Rounds(ctrl + [x], k)
    ensures x == DmaDone ==> Rounds(ctrl + [x], k) == Rounds(ctrl, k)
  {
    if k > 0 {
      if ctrl == [] {
        assert ctrl + [x] == [x];
        assert Rounds([x][1..], if x == DmaDone then k - 1 else k) == if x == DmaDone then k - 1 else k;
      } else {
        assert (ctrl + [x])[1..] == ctrl[1..] + [x];
        RoundsMore(ctrl[1..], if ctrl[0] == DmaDone then k - 1 else k, x);
      }
    }
  }

  lemma {:induction false} RoundsAnnounced(ctrl: seq<Ctrl>, ctrl': seq<Ctrl>, k: nat)
    requires Announced(ctrl, ctrl')
    ensures Rounds(ctrl', k) == Rounds(ctrl, k)
    decreases |ctrl'|
  {
    if |ctrl| < |ctrl'| {
      var front := ctrl'[..|ctrl'| - 1];
      assert ctrl' == front + [DmaDone];
      RoundsAnnounced(ctrl, front, k);
      RoundsMore(front, k, DmaDone);
    } else {
      assert ctrl == ctrl';
    }
  }

  lemma ClearIsWelcome(s: State)
    requires Inv(s) && ClearAhead(s)
    ensures AllWelcome(s, s.vcs.op.kind)
  {
    DownHolds(s);
  }

  /** All answers are sent and announced, and there are rounds left to take them. */
  ghost predicate Ready(s: State) {
    && Inv(s) && Fit(s) && Work(s) == 0 && s.down.discarded == 0 && !s.link.broken
    && s.vcs.i + Rounds(s.ctrl, |Outstanding(s)|) <= DMA_WAIT_ROUNDS
  }

  /** The wait loop moves nothing but the connections it receives from. */
  lemma LoopLeaves(s: State, a: DmaAct)
    requires DmaEnabled(s, a) && (a.RecvSync? || a.RecvTlp? || a.RecvDownData?)
    ensures var s' := DoDma(s, a);
      && s'.up == s.up && s'.poller == s.poller && s'.count == s.count
      && s'.down.served == s.down.served && s'.down.discarded == s.down.discarded
      && Outstanding(s') == Outstanding(s) && Work(s') == Work(s) && s'.link == s.link
  {
  }

  lemma CtrlThere(s: State)
    requires Ready(s)
    ensures s.ctrl != [] && s.ctrl[0] != CplReady && Outstanding(s) != []
    ensures s.vcs.i < DMA_WAIT_ROUNDS
  {
    NoWork(s);
    DownHolds(s);
    TlpHolds(s);
  }

  lemma TlpRound(s: State)
    requires Ready(s) && s.ctrl != [] && s.ctrl[0] == TlpReady && Outstanding(s) != [] && s.vcs.i < DMA_WAIT_ROUNDS
    ensures DmaEnabled(s, RecvSync) && DmaEnabled(DoDma(s, RecvSync), RecvTlp)
    ensures var s' := DoDma(DoDma(s, RecvSync), RecvTlp);
      Ready(s') && s'.vcs.op == s.vcs.op && |s'.ctrl| == |s.ctrl| - 1
  {
    var s1 := DoDma(s, RecvSync);
    Step(s, Dma(RecvSync));
    TlpHolds(s1);
    LoopLeaves(s, RecvSync);
    Step(s1, Dma(RecvTlp));
    LoopLeaves(s1, RecvTlp);
  }

  /** The next answer's completion is received. */
  lemma ReachesCpl(s: State) returns (run: seq<Action>)
    requires Ready(s) && s.ctrl != [] && s.ctrl[0] == DmaDone && s.vcs.i < DMA_WAIT_ROUNDS
    ensures Legal(s, run)
    ensures var s' := Exec(s, run);
      && Inv(s') && s'.vcs.VCpl? && s'.vcs.op == s.vcs.op && s'.vcs.i == s.vcs.i && s'.ctrl == s.ctrl[1..]
      && Outstanding(s') == Outstanding(s) != [] && Work(s') == Work(s) && s'.down.discarded == 0 && s'.link == s.link
      && DmaEnabled(s', RecvDownCpl) && s'.down.wire[0] == DownCpl(Outstanding(s)[0])
  {
    ClearIsWelcome(s);
    var s1 := DoDma(s, RecvSync);
    Step(s, Dma(RecvSync));
    LoopLeaves(s, RecvSync);
    run := if s.vcs.op.IsRead() then [Dma(RecvSync), Dma(RecvDownData)] else [Dma(RecvSync)];
    if s.vcs.op.IsRead() {
      DataTaken(s1);
      var s2 := DoDma(s1, RecvDownData);
      assert Legal(s2, []) && Legal(s1, [Dma(RecvDownData)]);
      CplNext(s2);
      assert run[1..] == [Dma(RecvDownData)] && [Dma(RecvDownData)][1..] == [];
    } else {
      assert Legal(s1, []);
      CplNext(s1);
      assert run[1..] == [];
    }
  }

  lemma DataTaken(s: State)
    requires Inv(s) && s.vcs.VData? && AllWelcome(s, s.vcs.op.kind)
    ensures DmaEnabled(s, RecvDownData)
    ensures var s' := DoDma(s, RecvDownData);
      && Inv(s') && s'.vcs.VCpl? && s'.vcs.op == s.vcs.op && s'.vcs.i == s.vcs.i && s'.ctrl == s.ctrl
      && Outstanding(s') == Outstanding(s) && Work(s') == Work(s) && s'.down.discarded == s.down.discarded && s'.link == s.link
  {
    DownHolds(s);
    WireHead(s);
    FirstAnswer(s);
    assert Outstanding(s)[0] in Outstanding(s);
    Step(s, Dma(RecvDownData));
    LoopLeaves(s, RecvDownData);
  }

  lemma CplNext(s: State)
    requires Inv(s) && s.vcs.VCpl? && AllWelcome(s, s.vcs.op.kind)
    ensures DmaEnabled(s, RecvDownCpl) && Outstanding(s) != [] && s.down.wire[0] == DownCpl(Outstanding(s)[0])
  {
    DownHolds(s);
    WireHead(s);
    assert Outstanding(s)[0] in Outstanding(s);
  }

  /** An earlier read's completion: the pair is dropped and the loop goes on. */
  lemma OtherDropped(s: State)
    requires Inv(s) && s.vcs.VCpl? && s.vcs.op.IsRead() && AllWelcome(s, s.vcs.op.kind) && TagUnique(s, s.vcs.op)
    requires DmaEnabled(s, RecvDownCpl) && Outstanding(s) != [] && s.down.wire[0] == DownCpl(Outstanding(s)[0]) && Outstanding(s)[0] != s.vcs.op
    requires Work(s) == 0 && s.down.discarded == 0 && !s.link.broken && s.vcs.i + 1 + Rounds(s.ctrl, |Outstanding(s)| - 1) <= DMA_WAIT_ROUNDS
    ensures var s' := DoDma(s, RecvDownCpl); Ready(s') && s'.vcs.op == s.vcs.op && s'.ctrl == s.ctrl
  {
    TcpLost.Consumes(s);
    assert Outstanding(s)[0] in Outstanding(s);
    assert !Matches(s);
    Step(s, Dma(RecvDownCpl));
    StaysFit(s, DoDma(s, RecvDownCpl));
  }

  lemma StaysFit(s: State, s': State)
    requires Waiting(s.vcs) && s.vcs.op.IsRead() && AllWelcome(s, s.vcs.op.kind) && TagUnique(s, s.vcs.op)
    requires Outstanding(s) != [] && Outstanding(s') == Outstanding(s)[1..] && s'.vcs.VWait? && s'.vcs.op == s.vcs.op
    ensures Fit(s')
  {
  }

  lemma {:induction false} Joined(s: State, a: seq<Action>, b: seq<Action>)
    requires Legal(s, a) && Legal(Exec(s, a), b)
    ensures Legal(s, a + b) && Exec(s, a + b) == Exec(Exec(s, a), b)
    decreases |a|
  {
    if a == [] {
      assert a + b == b;
    } else {
      assert (a + b)[1..] == a[1..] + b;
      Joined(Do(s, a[0]), a[1..], b);
    }
  }

  lemma TwoSteps(s: State, a: Action, b: Action)
    requires Enabled(s, a) && Enabled(Do(s, a), b)
    ensures Legal(s, [a, b]) && Exec(s, [a, b]) == Do(Do(s, a), b)
  {
    One(Do(s, a), b);
    assert [a, b][1..] == [b];
  }

  /** One round: a TLP is cached, an earlier read's answer is dropped, or its own is there. */
  lemma Round(s: State) returns (run: seq<Action>, done: bool)
    requires Ready(s)
    ensures Legal(s, run)
    ensures var s' := Exec(s, run);
      if done then TakesOwn(s', s.vcs.op) else Ready(s') && s'.vcs.op == s.vcs.op && |s'.ctrl| < |s.ctrl|
  {
    CtrlThere(s);
    if s.ctrl[0] == TlpReady {
      TlpRound(s);
      TwoSteps(s, Dma(RecvSync), Dma(RecvTlp));
      run, done := [Dma(RecvSync), Dma(RecvTlp)], false;
    } else {
      run := ReachesCpl(s);
      done := Outstanding(s)[0] == s.vcs.op;
      if !done { run := AndDrops(s, run); }
    }
  }

  lemma AndDrops(s: State, run: seq<Action>) returns (run': seq<Action>)
    requires Ready(s) && s.ctrl != [] && s.ctrl[0] == DmaDone && Outstanding(s) != [] && Outstanding(s)[0] != s.vcs.op && Legal(s, run)
    requires var s' := Exec(s, run);
      && Inv(s') && s'.vcs.VCpl? && s'.vcs.op == s.vcs.op && s'.vcs.i == s.vcs.i && s'.ctrl == s.ctrl[1..]
      && Outstanding(s') == Outstanding(s) && Work(s') == Work(s) && s'.down.discarded == 0 && s'.link == s.link
      && DmaEnabled(s', RecvDownCpl) && s'.down.wire[0] == DownCpl(Outstanding(s)[0])
    ensures Legal(s, run')
    ensures var s' := Exec(s, run'); Ready(s') && s'.vcs.op == s.vcs.op && |s'.ctrl| < |s.ctrl|
  {
    var s1 := Exec(s, run);
    OnlyReads(s);
    OtherDropped(s1);
    One(s1, Dma(RecvDownCpl));
    Joined(s, run, [Dma(RecvDownCpl)]);
    run' := run + [Dma(RecvDownCpl)];
  }

  /** The loop takes one notification after the other until it has its own. */
  lemma {:induction false} LoopTakesOwn(s: State) returns (run: seq<Action>)
    requires Ready(s)
    ensures Legal(s, run) && TakesOwn(Exec(s, run), s.vcs.op)
    decreases |s.ctrl|
  {
    var done;
    run, done := Round(s);
    if !done {
      var rest := LoopTakesOwn(Exec(s, run));
      Joined(s, run, rest);
      run := run + rest;
    }
  }

  lemma One(s: State, a: Action)
    requires Enabled(s, a)
    ensures Legal(s, [a]) && Exec(s, [a]) == Do(s, a)
  {
    assert Legal(Do(s, a), []) && [a][1..] == [];
  }

  lemma OnlyReads(s: State)
    requires Ready(s) && Outstanding(s) != [] && Outstanding(s)[0] != s.vcs.op
    ensures s.vcs.op.IsRead()
  {
    DownHolds(s);
  }

  lemma GetsReady(s: State, s': State)
    requires Inv(s) && Fit(s) && s.down.discarded == 0 && !s.link.broken
    requires s.vcs.i + Rounds(s.ctrl, |Outstanding(s)|) <= DMA_WAIT_ROUNDS
    requires Inv(s') && Work(s') == 0 && s'.vcs == s.vcs && s'.down.discarded == 0 && s'.link == s.link
    requires Outstanding(s') == Outstanding(s) && Announced(s.ctrl, s'.ctrl)
    ensures Ready(s')
  {
    RoundsAnnounced(s.ctrl, s'.ctrl, |Outstanding(s)|);
  }

  lemma Succeeds(s: State) returns (run: seq<Action>)
    requires Inv(s) && Fit(s) && s.down.discarded == 0 && !s.link.broken
    requires s.vcs.i + Rounds(s.ctrl, |Outstanding(s)|) <= DMA_WAIT_ROUNDS
    ensures LeadsToOwn(s, run, s.vcs.op)
  {
    var first := PollerFinishes(s);
    var s1 := Exec(s, first);
    GetsReady(s, s1);
    var rest := LoopTakesOwn(s1);
    run := first + rest;
    Joined(s, first, rest);
  }

  // ---------- and when not ----------

  predicate Unwelcome(o: Op) { !o.IsRead() || o.len > 4096 }

  /** An answer that the call does not expect comes before its own. */
  ghost predicate WrongAhead(out: seq<Op>, op: Op) {
    if op.IsRead() then exists i :: 0 <= i < |out| && Unwelcome(out[i]) else |out| > 1
  }

  /** The round after the one in which its own notification comes. */
  function Last(v: VcsPc, ctrl: seq<Ctrl>, k: nat): nat
    requires Waiting(v)
  {
    match v
    case VPutData(_) => Rounds(ctrl, k)
    case VWait(_, i) => i + Rounds(ctrl, k)
    case VTlp(_, i) => i + 1 + Rounds(ctrl, k)
    case VData(_, i) => i + 1 + Rounds(ctrl, if k > 0 then k - 1 else 0)
    case VCpl(_, i, _) => i + 1 + Rounds(ctrl, if k > 0 then k - 1 else 0)
  }

  /** The call for `op` is over, or it will not take its own completion. */
  ghost predicate Hopeless(s: State, op: Op) {
    s.vcs.VBroken? || (op.n < s.count.Of(op.kind) && (Waiting(s.vcs) && s.vcs.op == op ==> InVain(s)))
  }

  ghost predicate InVain(s: State)
    requires Waiting(s.vcs)
  {
    && (Got(s.vcs) ==> s.vcs.i < DMA_WAIT_ROUNDS)
    && ((s.vcs.VWait? && s.link.broken) || WrongAhead(Outstanding(s), s.vcs.op) || Last(s.vcs, s.ctrl, |Outstanding(s)|) > DMA_WAIT_ROUNDS)
  }

  lemma StartsInVain(s: State, a: DmaAct, op: Op)
    requires Hopeless(s, op) && DmaEnabled(s, a) && a.StartDma?
    ensures Hopeless(DoDma(s, a), op)
  {
  }

  lemma SyncInVain(s: State, op: Op)
    requires Inv(s) && Hopeless(s, op) && DmaEnabled(s, RecvSync)
    ensures Hopeless(DoDma(s, RecvSync), op)
  {
    DownHolds(s);
    TlpHolds(s);
    LoopLeaves(s, RecvSync);
  }

  lemma LoopInVain(s: State, a: DmaAct, op: Op)
    requires Inv(s) && Hopeless(s, op) && DmaEnabled(s, a) && (a.RecvTlp? || a.RecvDownData?)
    ensures Hopeless(DoDma(s, a), op)
  {
    LoopLeaves(s, a);
  }

  /** A read whose data was received is not too long. */
  lemma HeadFits(s: State)
    requires Inv(s) && DmaEnabled(s, RecvDownCpl) && s.down.wire[0].DownCpl? && s.vcs.op.IsRead()
    ensures Outstanding(s) != [] && !Unwelcome(Outstanding(s)[0])
  {
    DownHolds(s);
    WireHead(s);
    FirstAnswer(s);
  }

  lemma CplInVain(s: State, op: Op)
    requires Inv(s) && Hopeless(s, op) && DmaEnabled(s, RecvDownCpl)
    ensures Hopeless(DoDma(s, RecvDownCpl), op)
  {
    if AfterCpl(s).VWait? {
      TcpLost.Consumes(s);
      HeadFits(s);
      WrongStays(Outstanding(s), s.vcs.op);
    }
  }

  lemma WrongStays(out: seq<Op>, op: Op)
    requires out != [] && op.IsRead() && !Unwelcome(out[0])
    ensures WrongAhead(out, op) ==> WrongAhead(out[1..], op)
  {
    if WrongAhead(out, op) {
      var i :| 0 <= i < |out| && Unwelcome(out[i]);
      assert out[1..][i - 1] == out[i];
    }
  }

  lemma DmaInVain(s: State, a: DmaAct, op: Op)
    requires Inv(s) && Hopeless(s, op) && DmaEnabled(s, a)
    ensures Hopeless(DoDma(s, a), op)
  {
    match a {
      case StartDma(_, _, _, _) => StartsInVain(s, a, op);
      case RecvSync => SyncInVain(s, op);
      case RecvDownCpl => CplInVain(s, op);
      case RecvTlp => LoopInVain(s, a, op);
      case RecvDownData => LoopInVain(s, a, op);
      case _ => assert Outstanding(DoDma(s, a)) == Outstanding(s);
    }
  }

  /** Neither the other threads nor polls and notifications help. */
  lemma OthersInVain(s: State, s': State, op: Op, x: Ctrl)
    requires Hopeless(s, op) && Outstanding(s') == Outstanding(s) && s'.vcs == s.vcs && s'.count == s.count
    requires s'.link == s.link || s'.link.broken
    requires s'.ctrl == s.ctrl || s'.ctrl == s.ctrl + [x]
    ensures Hopeless(s', op)
  {
    if Waiting(s.vcs) {
      var k := |Outstanding(s)|;
      RoundsMore(s.ctrl, k, x);
      RoundsMore(s.ctrl, if k > 0 then k - 1 else 0, x);
    }
  }

  lemma IdleInVain(s: State, s': State, op: Op)
    requires Hopeless(s, op) && !s.vcs.VBroken? && s'.count == s.count && !Waiting(s'.vcs)
    ensures Hopeless(s', op)
  {
  }

  lemma NotifyLeaves(s: State, a: NotifyAct)
    requires NotifyEnabled(s, a)
    ensures !s.vcs.VBroken? && !Waiting(DoNotify(s, a).vcs) && DoNotify(s, a).count == s.count
  {
  }

  lemma StillInVain(s: State, a: Action, op: Op)
    requires Inv(s) && Hopeless(s, op) && Enabled(s, a)
    ensures Hopeless(Do(s, a), op)
  {
    UpHolds(s);
    match a {
      case Vcpu(v) => VcpuLeaves(s, v); QemuKeepsOutstanding(s, a); OthersInVain(s, Do(s, a), op, TlpReady);
      case Poller(p) => PollerLeaves(s, p); QemuKeepsOutstanding(s, a); OthersInVain(s, Do(s, a), op, DmaDone);
      case Dma(d) => DmaInVain(s, d, op);
      case Poll(q) => PollLeaves(s, q); IdleInVain(s, Do(s, a), op);
      case Notify(t) => NotifyLeaves(s, t); IdleInVain(s, Do(s, a), op);
      case LinkFails => assert Outstanding(Do(s, a)) == Outstanding(s); OthersInVain(s, Do(s, a), op, DmaDone);
    }
  }

  lemma {:induction false} InVainForever(s: State, run: seq<Action>, op: Op)
    requires Inv(s) && Hopeless(s, op) && Legal(s, run)
    ensures Inv(Exec(s, run)) && Hopeless(Exec(s, run), op)
    decreases |run|
  {
    if run != [] {
      Step(s, run[0]);
      StillInVain(s, run[0], op);
      InVainForever(Do(s, run[0]), run[1..], op);
    }
  }

  lemma NotOwn(s: State, op: Op)
    requires Inv(s) && Hopeless(s, op)
    ensures !TakesOwn(s, op)
  {
    if TakesOwn(s, op) {
      OwnNeedsAll(s);
      OldestTaken(s);
      if op.IsRead() { HeadFits(s); }
    }
  }

  lemma NeverOwn(s: State, op: Op)
    requires Reachable(s) && (s.down.discarded > 0 || Hopeless(s, op))
    ensures !CanTakeOwn(s, op)
  {
    ReachableInv(s);
    forall run: seq<Action> ensures !LeadsToOwn(s, run, op) {
      if LeadsToOwn(s, run, op) {
        if s.down.discarded > 0 {
          NoDmaAfterDiscard(s, run);
        } else {
          InVainForever(s, run, op);
          NotOwn(Exec(s, run), op);
        }
      }
    }
  }

  lemma WaitsInVain(s: State)
    requires Inv(s) && s.vcs.VWait?
    requires s.link.broken || !ClearAhead(s) || s.vcs.i + Rounds(s.ctrl, |Outstanding(s)|) > DMA_WAIT_ROUNDS
    ensures Hopeless(s, s.vcs.op)
  {
    DownHolds(s);
    NumbersHold(s);
    var out := Outstanding(s);
    assert Proper(out[|out| - 1], s.count);
    if !ClearAhead(s) && s.vcs.op.IsRead() {
      var o :| o in out && Unwelcome(o);
      var i :| 0 <= i < |out| && out[i] == o;
    }
  }

  lemma TagIsOwn(s: State)
    requires Inv(s) && ClearAhead(s) && (s.vcs.op.IsRead() ==> s.count.rd <= 0x1_0000_0000)
    ensures TagUnique(s, s.vcs.op)
  {
    DownHolds(s);
    NumbersHold(s);
    var out := Outstanding(s);
    assert out[|out| - 1] == s.vcs.op;
    if s.vcs.op.IsRead() { ReadTagUnique(s, s.vcs.op); }
  }

  /** A waiting call (a read: one of the first 2^32) can take its own completion and return 0 exactly when
      no poll has ever thrown a DMA notification away, the connection is alive, a read waits behind
      nothing but reads that fit the receive buffer, itself included, and a write behind nothing,
      and the rounds left suffice to get past the messages in front of its notification.  Then the
      poller and the wait loop get there by themselves; otherwise no run of the system does. */
  lemma CallCanSucceed(s: State)
    requires Reachable(s) && s.vcs.VWait? && (s.vcs.op.IsRead() ==> s.count.rd <= 0x1_0000_0000)
    ensures CanTakeOwn(s, s.vcs.op) <==>
      && s.down.discarded == 0 && !s.link.broken && ClearAhead(s)
      && s.vcs.i + Rounds(s.ctrl, |Outstanding(s)|) <= 1000
  {
    ReachableInv(s);
    if s.down.discarded == 0 && !s.link.broken && ClearAhead(s) && s.vcs.i + Rounds(s.ctrl, |Outstanding(s)|) <= DMA_WAIT_ROUNDS {
      TagIsOwn(s);
      var run := Succeeds(s);
    } else {
      if s.down.discarded == 0 { WaitsInVain(s); }
      NeverOwn(s, s.vcs.op);
    }
  }
}
