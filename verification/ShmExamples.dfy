/** Runs of the shared-memory protocol in which a call that gave up does harm. */
module ShmExamples {
  import opened GuestMemory
  import opened ShmProtocol
  import opened ShmInvariants
  import opened ShmTheorems
  import Progress = ShmProgress

  lemma Extend(z: Sizes, s: State, run: seq<Action>, a: Action)
    requires Legal(z, s, run) && Enabled(Exec(z, s, run), a)
    ensures Legal(z, s, run + [a]) && Exec(z, s, run + [a]) == Do(z, Exec(z, s, run), a)
    decreases |run|
  {
    if run == [] {
      assert run + [a] == [a];
      assert Legal(z, Do(z, s, a), [a][1..]);
    } else {
      assert (run + [a])[1..] == run[1..] + [a];
      Extend(z, Do(z, s, run[0]), run[1..], a);
    }
  }

  /** A legal run from the start, and the state it ends in. */
  ghost predicate Reaches(z: Sizes, run: seq<Action>, s: State) {
    Legal(z, Initial(), run) && Exec(z, Initial(), run) == s
  }

  /** One action more. */
  lemma Then(z: Sizes, run: seq<Action>, s: State, a: Action) returns (run': seq<Action>, s': State)
    requires Reaches(z, run, s) && Enabled(s, a)
    ensures Reaches(z, run', s') && s' == Do(z, s, a) && run' == run + [a]
  {
    Extend(z, Initial(), run, a);
    run', s' := run + [a], Do(z, s, a);
  }

  /** Nothing arrives in time, until all rounds are used up and the call gives up. */
  lemma {:induction false} TimesOut(z: Sizes, run: seq<Action>, s: State) returns (run': seq<Action>, s': State)
    requires Reaches(z, run, s) && s.vcs.VWait? && s.vcs.i <= DMA_WAIT_ROUNDS && s.notes == [] && !s.down
    ensures Reaches(z, run', s') && s' == s.(vcs := VIdle)
    decreases DMA_WAIT_ROUNDS - s.vcs.i
  {
    if s.vcs.i == DMA_WAIT_ROUNDS {
      run', s' := Then(z, run, s, GiveUp);
    } else {
      run', s' := Then(z, run, s, Timeout);
      run', s' := TimesOut(z, run', s');
    }
  }

  /** An interrupt can overtake a write that was given up, which no call ever reported as done:
      the poller looks at the interrupt ring after it found the request ring empty.  (Over TCP
      the shared connection rules this out.) */
  lemma Overtaken() returns (z: Sizes, run: seq<Action>, s: State)
    ensures Reaches(z, run, s) && |s.msi.seen| == 1 && s.dma.applied == []
    ensures |s.dma.owed| == 1 && s.dma.owed[0].IsWrite()
  {
    z, run, s := Slots(4, 4, 4, 4, 4), [], Initial();
    run, s := Then(z, run, s, NextPhase);
    run, s := Then(z, run, s, StartDma(WriteBytes, 0, 1, [7], 0));
    run, s := TimesOut(z, run, s);
    run, s := Then(z, run, s, RaiseMsi(0));
    run, s := Then(z, run, s, TakeMsi);
  }

  // ---------- too many TLPs ----------

  /** TLPs are sent and announced, and none waits for a completion. */
  lemma {:induction false} ManyTlps(z: Sizes, run: seq<Action>, s: State, n: nat) returns (run': seq<Action>, s': State)
    requires Reaches(z, run, s) && s.vcpu == VcIdle && s.vcs == VIdle && !s.down && |s.tlp.ring| + n <= z.req
    requires forall i :: 0 <= i < |s.notes| ==> s.notes[i] == TlpReady
    ensures Reaches(z, run', s') && s'.vcpu == VcIdle && s'.vcs == VIdle && !s'.down && |s'.notes| == |s.notes| + n
    ensures (forall i :: 0 <= i < |s'.notes| ==> s'.notes[i] == TlpReady) && s'.dma == s.dma && s'.poller == s.poller
    decreases n
  {
    run', s' := run, s;
    if n > 0 {
      run', s' := Then(z, run, s, SendTlp(0, false, 0));
      run', s' := Then(z, run', s', AnnounceTlp(true));
      run', s' := ManyTlps(z, run', s', n - 1);
    }
  }

  lemma {:induction false} AllRounds(notes: seq<Note>)
    requires forall i :: 0 <= i < |notes| ==> notes[i] == TlpReady
    ensures Progress.Rounds(notes) == |notes| + 1
  {
    if notes != [] { AllRounds(notes[1..]); }
  }

  /** A thousand announced TLPs in front of it make a write give up although nothing has failed. */
  lemma MustGiveUp(z: Sizes) returns (run: seq<Action>, s: State)
    requires z.req >= 1000
    ensures Reaches(z, run, s) && s.vcs.VWait? && s.vcs.i == 0 && !s.down && s.dma.dropped == 0
    ensures Debt(s) == 0 && !Progress.CanTake(z, s, s.vcs.op)
  {
    run, s := ManyTlps(z, [], Initial(), 1000);
    AllRounds(s.notes);
    run, s := Then(z, run, s, StartDma(WriteBytes, 0, 1, [7], 0));
    ReachesInv(z, run, s);
    Progress.NeverTakes(z, s);
  }

  lemma ReachesInv(z: Sizes, run: seq<Action>, s: State)
    requires Reaches(z, run, s)
    ensures Inv(s)
  {
    var s' := RunInv(z, run);
  }

  // ---------- tags that repeat ----------

  /** One slot in the request ring. */
  const Z: Sizes := Slots(4, 4, 1, 4, 4)

  const W0: Op := Op(WriteBytes, 0, 0, 1, [7], 0, 0, 0)
  const W1: Op := Op(WriteBytes, 1, 0, 1, [7], 0, 1, 0)
  const SYNC: Action := StartDma(WriteSync, 8, 1, [9], 0)

  /** Two writes given up: the first with the poller, the second fills the request ring. */
  lemma TwoGivenUp() returns (run: seq<Action>, s: State)
    ensures Reaches(Z, run, s) && !s.down && s.vcs == VIdle && s.poller == PServe(W0) && s.notes == []
    ensures s.dma == DmaPath([W1], [], [W0, W1], [], [], Counters(0, 0, 0, 2), 2, 0, 0) && s.msi == MsiPath([], [])
  {
    run, s := [], Initial();
    run, s := Then(Z, run, s, StartDma(WriteBytes, 0, 1, [7], 0));
    run, s := Then(Z, run, s, TakeRequest);
    run, s := TimesOut(Z, run, s);
    run, s := Then(Z, run, s, StartDma(WriteBytes, 0, 1, [7], 0));
    run, s := TimesOut(Z, run, s);
  }

  /** Refused for a full ring, a call still uses up a tag. */
  lemma {:induction false} Refused(run: seq<Action>, s: State, n: nat) returns (run': seq<Action>, s': State)
    requires Reaches(Z, run, s) && s.vcs == VIdle && |s.dma.requests| == 1
    ensures Reaches(Z, run', s') && s'.dma.count == s.dma.count.(writeSync := s.dma.count.writeSync + n)
    ensures s' == s.(data := s'.data, dma := s.dma.(count := s'.dma.count, started := s'.dma.started))
    decreases n
  {
    run', s' := run, s;
    if n > 0 {
      run', s' := Then(Z, run, s, SYNC);
      run', s' := Refused(run', s', n - 1);
    }
  }

  lemma FirstDone(run: seq<Action>, s: State) returns (run': seq<Action>, s': State)
    requires Reaches(Z, run, s) && !s.down && s.vcs == VIdle && s.poller == PServe(W0) && s.notes == []
    requires s.dma.requests == [W1] && s.dma.completions == [] && s.dma.applied == []
    ensures Reaches(Z, run', s') && !s'.down && s'.poller == PServe(W1) && s'.vcs == VIdle && s'.notes == [DmaDone] && s'.msi == s.msi
    ensures s'.dma == s.dma.(requests := [], completions := [W0], applied := [W0])
  {
    run', s' := Then(Z, run, s, Serve);
    run', s' := Then(Z, run', s', Complete);
    run', s' := Then(Z, run', s', AnnounceDma);
    run', s' := Then(Z, run', s', TakeRequest);
  }

  /** Both writes are carried out and announced, and the poller turns to the interrupts. */
  lemma BothDone(run: seq<Action>, s: State) returns (run': seq<Action>, s': State)
    requires Reaches(Z, run, s) && !s.down && s.vcs == VIdle && s.poller == PServe(W0) && s.notes == []
    requires s.dma.requests == [W1] && s.dma.completions == [] && s.dma.applied == []
    ensures Reaches(Z, run', s') && !s'.down && s'.poller == PMsi && s'.vcs == VIdle && s'.notes == [DmaDone, DmaDone] && s'.msi == s.msi
    ensures s'.dma == s.dma.(requests := [], completions := [W0, W1], applied := [W0, W1])
  {
    run', s' := FirstDone(run, s);
    run', s' := Then(Z, run', s', Serve);
    run', s' := Then(Z, run', s', Complete);
    run', s' := Then(Z, run', s', AnnounceDma);
    run', s' := Then(Z, run', s', NextPhase);
  }

  /** The 3001st synchronous write carries the tag of the first other write, takes its completion
      for its own and returns 0, although nothing has been stored. */
  lemma TakesOther(run: seq<Action>, s: State) returns (run': seq<Action>, s': State)
    requires Reaches(Z, run, s) && !s.down && s.poller == PMsi && s.vcs == VIdle && s.notes == [DmaDone, DmaDone]
    requires s.dma.completions == [W0, W1] && s.dma.requests == [] && s.dma.count.writeSync == 3000
    ensures Reaches(Z, run', s') && s'.poller == PMsi && s'.vcs.VTake? && s'.vcs.op.Tag() == W0.Tag() && s'.vcs.op.addr == 8
    ensures s'.dma.completions == [W0, W1] && Succeeds(s') && s'.dma.applied == s.dma.applied && s'.dma.finished == s.dma.finished
    ensures s'.msi == s.msi
  {
    run', s' := Then(Z, run, s, SYNC);
    run', s' := Then(Z, run', s', WaitRound);
  }

  /** An interrupt raised after that is delivered before the write is carried out. */
  lemma RaisesAndTakes(run: seq<Action>, s: State) returns (run': seq<Action>, s': State)
    requires Reaches(Z, run, s) && s.poller == PMsi && s.vcs.VTake? && s.dma.completions != [] && Succeeds(s)
    requires s.msi == MsiPath([], []) && s.dma.finished == [] && s.vcs.op !in s.dma.applied
    ensures Reaches(Z, run', s') && !AfterData(s')
  {
    run', s' := Then(Z, run, s, TakeDmaCpl);
    run', s' := Then(Z, run', s', RaiseMsi(0));
    run', s' := Then(Z, run', s', TakeMsi);
    assert s'.msi.seen[0] == Delivery(Interrupt(0, 1), |s.dma.applied|) && s'.dma.finished[0] == s.vcs.op;
  }

  /** So the tags must not repeat: a run in which they do, and in which an interrupt is delivered
      ahead of a write that returned 0. */
  lemma TagsCollide() returns (run: seq<Action>, s: State)
    ensures Reaches(Z, run, s) && !AfterData(s)
  {
    run, s := TwoGivenUp();
    run, s := Refused(run, s, 3000);
    run, s := BothDone(run, s);
    run, s := TakesOther(run, s);
    run, s := RaisesAndTakes(run, s);
  }

  // ---------- nothing out of the ordinary ----------

  /** Request, completion and interrupt: a run that does what it should, for every tag, body and
      vector. */
  lemma Exchange(z: Sizes, tag: nat, body: int, vector: nat) returns (run: seq<Action>, s: State)
    ensures Reaches(z, run, s) && s.vcpu == VcIdle && s.vcs == VIdle
    ensures s.tlp.delivered == [body] && s.cpl.received == [tag] && s.msi.seen == [Delivery(Interrupt(vector, 0), 0)]
  {
    run, s := [], Initial();
    run, s := Then(z, run, s, SendTlp(body, true, tag));
    run, s := Then(z, run, s, AnnounceTlp(true));
    run, s := Then(z, run, s, PollSocket);
    run, s := Then(z, run, s, PollTake);
    run, s := Then(z, run, s, SendCpl(tag));
    run, s := Then(z, run, s, AnnounceCpl);
    run, s := Then(z, run, s, RecvCplReady);
    run, s := Then(z, run, s, TakeCpl);
    run, s := Then(z, run, s, RaiseMsi(vector));
    run, s := Then(z, run, s, NextPhase);
    run, s := Then(z, run, s, TakeMsi);
  }
}
