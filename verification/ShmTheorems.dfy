/** What every run of the shared-memory protocol guarantees. */
module ShmTheorems {
  import opened GuestMemory
  import opened ShmProtocol
  import opened ShmInvariants
  import Tcp = TcpProtocol
  import TcpInvariants

  /** TLPs come out in the order they were sent, each once.  A pending announcement always finds
      its TLP in the ring, so the counter is never reset; the same holds for completions. */
  ghost predicate InOrder(s: State) {
    && s.tlp.sent == s.tlp.delivered + s.tlp.ring && s.tlp.resets == 0
    && |s.tlp.ring| >= s.tlp.pending + Count(s.notes, TlpReady)
    && (s.tlp.silent == 0 && s.vcpu == VcIdle && s.vcs == VIdle ==> |s.tlp.ring| == s.tlp.pending + Count(s.notes, TlpReady))
    && s.cpl.missing == 0 && s.dma.missing == 0
  }

  lemma TlpsInOrder(z: Sizes, run: seq<Action>)
    requires Legal(z, Initial(), run)
    ensures InOrder(Exec(z, Initial(), run))
  {
    var s := RunInv(z, run);
    InOrderAt(s);
  }

  lemma InOrderAt(s: State)
    requires Inv(s)
    ensures InOrder(s)
  {
    assert All(s);
  }

  // ---------- whose completion a call takes ----------

  /** No other completion that is owed carries the tag waited for. */
  ghost predicate TagUnique(s: State)
    requires Waiting(s.vcs)
  {
    forall o :: o in s.dma.owed && o.Tag() == s.vcs.op.Tag() ==> o == s.vcs.op
  }

  lemma Head(s: State)
    requires Inv(s) && s.vcs.VTake?
    ensures s.dma.completions != [] && s.dma.owed != [] && s.dma.owed[0] == s.dma.completions[0]
    ensures s.dma.completions[0] in s.dma.applied && Rising(s.dma.owed, s.dma.started)
    ensures s.vcs.op.n + 1 == s.dma.started && (s.dma.dropped == 0 ==> EndsWith(s.dma.owed, s.vcs.op))
  {
    assert All(s);
  }

  lemma FirstIsOnly(ops: seq<Op>, op: Op, top: nat)
    requires Rising(ops, top) && op.n + 1 == top && ops != [] && ops[0] == op
    ensures ops == [op]
  {
    var last := |ops| - 1;
    assert ops[last].n <= op.n;
  }

  /** With that, a call returns 0 exactly when no other completion is owed; and then its request
      has been carried out. */
  lemma SuccessExactly(s: State)
    requires Inv(s) && s.vcs.VTake? && TagUnique(s)
    ensures s.dma.completions != []
    ensures Succeeds(s) <==> Alone(s)
    ensures Alone(s) ==> s.vcs.op in s.dma.applied && s.dma.completions[0] == s.vcs.op
  {
    Head(s);
    var d := s.dma;
    if Succeeds(s) {
      assert d.owed[0] in d.owed && d.owed[0] == s.vcs.op;
      FirstIsOnly(d.owed, s.vcs.op, d.started);
    }
  }

  /** The completion a waiting call is about to take: its own exactly when no call has given up
      so far, and then the request has been carried out; otherwise that of an earlier call.  As
      long as tags do not repeat it returns 0 in the first case only. */
  ghost predicate OwnOrNever(s: State, gaveUp: nat)
    requires s.vcs.VTake?
  {
    && s.dma.completions != []
    && (s.dma.completions[0] == s.vcs.op <==> gaveUp == 0)
    && (gaveUp == 0 ==> Succeeds(s) && s.vcs.op in s.dma.applied)
    && (gaveUp > 0 ==> s.dma.completions[0].n < s.vcs.op.n)
    && (TagUnique(s) ==> (Succeeds(s) <==> gaveUp == 0))
  }

  lemma OwnOrNeverAt(s: State)
    requires Inv(s) && s.vcs.VTake? && s.dma.dropped == 0 && Debt(s) >= 0
    ensures OwnOrNever(s, Debt(s))
  {
    Head(s);
    if TagUnique(s) { SuccessExactly(s); }
  }

  lemma GivingUpIsForever(z: Sizes, run: seq<Action>)
    requires Legal(z, Initial(), run)
    requires var s := Exec(z, Initial(), run); s.vcs.VTake? && s.dma.dropped == 0
    ensures OwnOrNever(Exec(z, Initial(), run), GaveUp(run))
  {
    var s := RunInv(z, run);
    OwnOrNeverAt(s);
  }

  /** Whichever way a call fails, by giving up, on a foreign completion or on a full request ring,
      a completion is owed from then on that no call waits for. */
  lemma FailedCallOwes(z: Sizes, s: State, a: Action)
    requires Inv(s) && Enabled(s, a) && s.dma.dropped == 0 && Debt(s) >= 0
    requires a.GiveUp? || (a.TakeDmaCpl? && s.dma.completions != [] && !Succeeds(s)) || (a.StartDma? && |s.dma.requests| >= z.dmaReq)
    ensures Debt(Do(z, s, a)) > 0
  {
    assert All(s);
    DebtStep(z, s, a);
    if a.TakeDmaCpl? { Head(s); }
  }

  /** After that no call returns 0 in any run, as long as no full ring swallows a completion and
      tags do not repeat. */
  lemma NothingSucceedsAfter(z: Sizes, s: State, run: seq<Action>)
    requires Inv(s) && Debt(s) > 0 && Legal(z, s, run)
    requires var s' := Exec(z, s, run); s'.vcs.VTake? && s'.dma.dropped == 0 && TagUnique(s')
    ensures var s' := Exec(z, s, run); s'.dma.completions != [] && !Succeeds(s')
  {
    RunKeeps(z, s, run);
    OwnOrNeverAt(Exec(z, s, run));
  }

  /** When a call returns 0, its data has been moved: a write's bytes were stored at its address
      at one moment since the call began; what a read finds in its part of the buffer is guest
      memory of one such moment.  This holds after calls have given up, too, and after full rings
      have swallowed completions. */
  lemma DataMoved(z: Sizes, run: seq<Action>)
    requires Legal(z, Initial(), run)
    requires var s := Exec(z, Initial(), run); s.vcs.VTake? && TagUnique(s) && s.dma.completions != [] && Succeeds(s)
    ensures var s := Exec(z, Initial(), run); Outcome(s.data, s.vcs.op)
  {
    var s := RunInv(z, run);
    DataMovedAt(s);
  }

  lemma DataMovedAt(s: State)
    requires Inv(s) && s.vcs.VTake? && TagUnique(s) && s.dma.completions != [] && Succeeds(s)
    ensures Outcome(s.data, s.vcs.op)
  {
    SuccessExactly(s);
    assert All(s);
  }

  // ---------- interrupt after data ----------

  ghost predicate AllIn(xs: seq<Op>, k: nat, ys: seq<Op>)
    requires k <= |xs|
  {
    forall i :: 0 <= i < k ==> xs[i] in ys
  }

  lemma AllInGrows(xs: seq<Op>, k: nat, ys: seq<Op>, y: Op, m: nat)
    requires k <= |xs| && m <= |ys| && AllIn(xs, k, ys[..m])
    ensures AllIn(xs, k, (ys + [y])[..m])
  {
    assert (ys + [y])[..m] == ys[..m];
  }

  /** The interrupts themselves: marks never run ahead. */
  ghost predicate Marks(m: MsiPath, finished: nat, applied: nat) {
    && (forall i :: 0 <= i < |m.ring| ==> m.ring[i].mark <= finished)
    && (forall i :: 0 <= i < |m.seen| ==> m.seen[i].msi.mark <= finished && m.seen[i].applied <= applied)
  }

  ghost predicate DataFirst(m: MsiPath, finished: seq<Op>, applied: seq<Op>)
    requires Marks(m, |finished|, |applied|)
  {
    && AllIn(finished, |finished|, applied)
    && forall i {:trigger m.seen[i]} :: 0 <= i < |m.seen| ==> AllIn(finished, m.seen[i].msi.mark, applied[..m.seen[i].applied])
  }

  ghost predicate Safe(s: State) {
    Marks(s.msi, |s.dma.finished|, |s.dma.applied|) && DataFirst(s.msi, s.dma.finished, s.dma.applied)
  }

  lemma DataFirstApplied(m: MsiPath, finished: seq<Op>, applied: seq<Op>, op: Op)
    requires Marks(m, |finished|, |applied|) && DataFirst(m, finished, applied)
    ensures DataFirst(m, finished, applied + [op])
  {
    forall i | 0 <= i < |m.seen| ensures AllIn(finished, m.seen[i].msi.mark, (applied + [op])[..m.seen[i].applied]) {
      AllInGrows(finished, m.seen[i].msi.mark, applied, op, m.seen[i].applied);
    }
  }

  lemma DataFirstFinished(m: MsiPath, finished: seq<Op>, applied: seq<Op>, op: Op)
    requires Marks(m, |finished|, |applied|) && DataFirst(m, finished, applied) && op in applied
    ensures DataFirst(m, finished + [op], applied)
  {
    assert forall i :: 0 <= i < |m.seen| ==> AllIn(finished, m.seen[i].msi.mark, applied[..m.seen[i].applied]);
  }

  lemma DataFirstSeen(m: MsiPath, finished: seq<Op>, applied: seq<Op>)
    requires Marks(m, |finished|, |applied|) && DataFirst(m, finished, applied) && m.ring != []
    ensures DataFirst(MsiPath(m.ring[1..], m.seen + [Delivery(m.ring[0], |applied|)]), finished, applied)
  {
    assert applied[..|applied|] == applied;
  }

  lemma MarksFinished(m: MsiPath, finished: nat, applied: nat)
    requires Marks(m, finished, applied)
    ensures Marks(m, finished + 1, applied) && Marks(m, finished, applied + 1)
  {
  }

  lemma SafePoller(z: Sizes, s: State, a: Action)
    requires Safe(s) && Enabled(s, a)
    ensures Safe(DoPoller(z, s, a))
  {
    match a {
      case Serve =>
        MarksFinished(s.msi, |s.dma.finished|, |s.dma.applied|);
        DataFirstApplied(s.msi, s.dma.finished, s.dma.applied, s.poller.op);
      case TakeMsi => DataFirstSeen(s.msi, s.dma.finished, s.dma.applied);
      case _ =>
    }
  }

  /** What the VCS thread does to interrupts and finished calls, taking a completion aside. */
  lemma VcsRaises(z: Sizes, s: State, a: Action)
    requires Enabled(s, a) && !a.TakeDmaCpl?
    ensures var s' := DoVcs(z, s, a);
      && s'.dma.applied == s.dma.applied && s'.dma.finished == s.dma.finished && s'.msi.seen == s.msi.seen
      && (s'.msi.ring == s.msi.ring || (a.RaiseMsi? && s'.msi.ring == s.msi.ring + [Interrupt(a.vector, |s.dma.finished|)]))
  {
  }

  lemma DataFirstRaised(m: MsiPath, m': MsiPath, finished: seq<Op>, applied: seq<Op>)
    requires Marks(m, |finished|, |applied|) && m'.seen == m.seen && (m'.ring == m.ring || exists v :: m'.ring == m.ring + [Interrupt(v, |finished|)])
    requires DataFirst(m, finished, applied)
    ensures Marks(m', |finished|, |applied|) && DataFirst(m', finished, applied)
  {
  }

  lemma SafeTake(z: Sizes, s: State)
    requires Inv(s) && Safe(s) && s.vcs.VTake? && TagUnique(s)
    ensures Safe(DoVcs(z, s, TakeDmaCpl))
  {
    SuccessExactly(s);
    if Succeeds(s) {
      MarksFinished(s.msi, |s.dma.finished|, |s.dma.applied|);
      DataFirstFinished(s.msi, s.dma.finished, s.dma.applied, s.vcs.op);
    }
  }

  lemma SafeStep(z: Sizes, s: State, a: Action)
    requires Inv(s) && Safe(s) && Enabled(s, a) && (a.TakeDmaCpl? ==> TagUnique(s))
    ensures Safe(Do(z, s, a))
  {
    if ByPoller(a) {
      SafePoller(z, s, a);
    } else if a.TakeDmaCpl? {
      SafeTake(z, s);
    } else if !ByVcpu(a) {
      VcsRaises(z, s, a);
      var s' := DoVcs(z, s, a);
      DataFirstRaised(s.msi, s'.msi, s.dma.finished, s.dma.applied);
    }
  }

  /** Whenever a call takes a completion, no other that is owed carries its tag. */
  ghost predicate AlwaysUnique(z: Sizes, s: State, run: seq<Action>)
    requires Legal(z, s, run)
    decreases |run|
  {
    run != [] ==> (run[0].TakeDmaCpl? ==> TagUnique(s)) && AlwaysUnique(z, Do(z, s, run[0]), run[1..])
  }

  lemma {:induction false} RunSafe(z: Sizes, s: State, run: seq<Action>)
    requires Inv(s) && Safe(s) && Legal(z, s, run) && AlwaysUnique(z, s, run)
    ensures Safe(Exec(z, s, run))
    decreases |run|
  {
    if run != [] {
      Step(z, s, run[0]);
      SafeStep(z, s, run[0]);
      RunSafe(z, Do(z, s, run[0]), run[1..]);
    }
  }

  /** Every call that returned 0 before an interrupt was raised had been carried out when the
      poller delivered the interrupt. */
  ghost predicate AfterData(s: State) {
    forall i, k :: 0 <= i < |s.msi.seen| && 0 <= k < s.msi.seen[i].msi.mark ==>
      && s.msi.seen[i].msi.mark <= |s.dma.finished| && s.msi.seen[i].applied <= |s.dma.applied|
      && s.dma.finished[k] in s.dma.applied[..s.msi.seen[i].applied]
  }

  /** In every run, whatever gives up or is swallowed, as long as tags do not repeat. */
  lemma InterruptAfterData(z: Sizes, run: seq<Action>)
    requires Legal(z, Initial(), run) && AlwaysUnique(z, Initial(), run)
    ensures AfterData(Exec(z, Initial(), run))
  {
    InitialInv(Initial());
    RunSafe(z, Initial(), run);
  }

  // ---------- when tags do not repeat ----------

  /** Numbers within a kind count up, and the request waited for is the latest of its kind. */
  ghost predicate Counted(d: DmaPath, v: VcsPc) {
    && (forall i :: 0 <= i < |d.owed| ==> d.owed[i].k < d.count.Of(d.owed[i].kind))
    && (Waiting(v) ==> v.op.k < d.count.Of(v.op.kind) && OnlyOne(d.owed, v.op))
  }

  ghost predicate OnlyOne(owed: seq<Op>, op: Op) {
    forall i :: 0 <= i < |owed| && owed[i].kind == op.kind && owed[i].k == op.k ==> owed[i] == op
  }

  lemma CountedLess(d: DmaPath, d': DmaPath, v: VcsPc, v': VcsPc, i: nat)
    requires Counted(d, v) && d'.count == d.count && (Waiting(v') ==> Waiting(v) && v'.op == v.op)
    requires d'.owed == d.owed || d'.owed == Without(d.owed, i)
    ensures Counted(d', v')
  {
  }

  lemma CountedStart(z: Sizes, s: State, a: Action)
    requires Counted(s.dma, s.vcs) && Enabled(s, a) && a.StartDma?
    ensures Counted(DoVcs(z, s, a).dma, DoVcs(z, s, a).vcs)
  {
  }

  lemma OwesLess(z: Sizes, s: State, a: Action) returns (i: nat)
    requires Enabled(s, a) && !a.StartDma?
    ensures var s' := Do(z, s, a);
      && s'.dma.count == s.dma.count && (Waiting(s'.vcs) ==> Waiting(s.vcs) && s'.vcs.op == s.vcs.op)
      && (s'.dma.owed == s.dma.owed || s'.dma.owed == Without(s.dma.owed, i))
  {
    i := if a.Complete? then |s.dma.completions| else 0;
  }

  lemma CountedStep(z: Sizes, s: State, a: Action)
    requires Counted(s.dma, s.vcs) && Enabled(s, a)
    ensures Counted(Do(z, s, a).dma, Do(z, s, a).vcs)
  {
    if a.StartDma? {
      CountedStart(z, s, a);
    } else {
      var i := OwesLess(z, s, a);
      CountedLess(s.dma, Do(z, s, a).dma, s.vcs, Do(z, s, a).vcs, i);
    }
  }

  /** So few requests of each kind that no tag is used twice. */
  predicate Few(c: Counters) {
    c.readSync <= 1000 && c.writeSync <= 2000 && c.readBytes <= 1000 && c.writeBytes <= 0x1_0000_0000 - 4000
  }

  /** Only the last counter can wrap, and then it stays below the start of the first. */
  lemma TagIs(c: Counters, o: Op)
    requires Few(c) && o.k < c.Of(o.kind)
    ensures var t := TagBase(o.kind) + o.k;
      if t < 0x1_0000_0000 then o.Tag() == t else o.kind == WriteBytes && o.Tag() == t - 0x1_0000_0000 < 2000
  {
  }

  /** Within these bounds two requests share a tag exactly when they are the same of one kind. */
  lemma TagsDiffer(c: Counters, o: Op, p: Op)
    requires Few(c) && o.k < c.Of(o.kind) && p.k < c.Of(p.kind)
    ensures o.Tag() == p.Tag() <==> o.kind == p.kind && o.k == p.k
  {
    TagIs(c, o);
    TagIs(c, p);
  }

  lemma FewUnique(s: State)
    requires Counted(s.dma, s.vcs) && Waiting(s.vcs) && Few(s.dma.count)
    ensures TagUnique(s)
  {
    forall o | o in s.dma.owed && o.Tag() == s.vcs.op.Tag() ensures o == s.vcs.op {
      var i :| 0 <= i < |s.dma.owed| && s.dma.owed[i] == o;
      TagsDiffer(s.dma.count, o, s.vcs.op);
    }
  }

  lemma CountGrows(z: Sizes, s: State, a: Action)
    requires Enabled(s, a)
    ensures Few(Do(z, s, a).dma.count) ==> Few(s.dma.count)
  {
    if !a.StartDma? { var i := OwesLess(z, s, a); }
  }

  lemma {:induction false} FewStaysUnique(z: Sizes, s: State, run: seq<Action>)
    requires Legal(z, s, run) && Counted(s.dma, s.vcs) && Few(Exec(z, s, run).dma.count)
    ensures AlwaysUnique(z, s, run) && Few(s.dma.count)
    decreases |run|
  {
    if run != [] {
      var s' := Do(z, s, run[0]);
      CountedStep(z, s, run[0]);
      FewStaysUnique(z, s', run[1..]);
      CountGrows(z, s, run[0]);
      if run[0].TakeDmaCpl? { FewUnique(s); }
    }
  }

  /** Nor can tags be confused as long as no call has given up, however long the run. */
  lemma {:induction false} NoGiveUpsUnique(z: Sizes, s: State, run: seq<Action>)
    requires Inv(s) && Debt(s) == 0 && Legal(z, s, run) && GaveUp(run) == 0
    ensures AlwaysUnique(z, s, run)
    decreases |run|
  {
    if run != [] {
      Step(z, s, run[0]);
      if run[0].TakeDmaCpl? { Head(s); }
      NoGiveUpsUnique(z, Do(z, s, run[0]), run[1..]);
    }
  }

  /** Two conditions under which interrupts never overtake finished calls. */
  lemma InterruptsInOrder(z: Sizes, run: seq<Action>)
    requires Legal(z, Initial(), run) && (GaveUp(run) == 0 || Few(Exec(z, Initial(), run).dma.count))
    ensures AfterData(Exec(z, Initial(), run))
  {
    InitialInv(Initial());
    if GaveUp(run) == 0 { NoGiveUpsUnique(z, Initial(), run); } else { FewStaysUnique(z, Initial(), run); }
    InterruptAfterData(z, run);
  }

}
