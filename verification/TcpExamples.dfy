/** Runs of the three-connection protocol in which a call that gave up does harm.  A connection that
    is alive makes a call give up only after 1000 notifications that are not its own. */
module TcpExamples {
  import opened GuestMemory
  import opened TcpProtocol
  import opened TcpInvariants
  import opened TcpTheorems
  import opened TcpProgress

  /** A legal run from the start, and the state it ends in. */
  ghost predicate Reaches(run: seq<Action>, s: State) {
    Legal(Initial(true), run) && Exec(Initial(true), run) == s
  }

  lemma Then(run: seq<Action>, s: State, a: Action) returns (run': seq<Action>, s': State)
    requires Reaches(run, s) && Enabled(s, a)
    ensures Reaches(run', s') && s' == Do(s, a)
  {
    Extend(Initial(true), run, a);
    run', s' := run + [a], Do(s, a);
  }

  /** Nothing is on its way to the VCS thread on the ctrl and data connections. */
  predicate Quiet(s: State) {
    s.ctrl == [] && s.tlp.wire == [] && s.vcpu == VcIdle && !s.link.broken
  }

  /** One TLP after the other uses up a round of the wait loop, until the call gives up. */
  lemma {:induction false} Exhaust(run: seq<Action>, s: State) returns (run': seq<Action>, s': State)
    requires Reaches(run, s) && Quiet(s) && s.vcs.VWait? && s.vcs.i <= DMA_WAIT_ROUNDS
    ensures Reaches(run', s') && Quiet(s') && s' == s.(vcs := VIdle, tlp := s'.tlp)
    decreases DMA_WAIT_ROUNDS - s.vcs.i
  {
    if s.vcs.i == DMA_WAIT_ROUNDS {
      run', s' := Then(run, s, Dma(Abandon));
    } else {
      run', s' := OneRound(run, s);
      run', s' := Exhaust(run', s');
    }
  }

  lemma OneRound(run: seq<Action>, s: State) returns (run': seq<Action>, s': State)
    requires Reaches(run, s) && Quiet(s) && s.vcs.VWait? && s.vcs.i < DMA_WAIT_ROUNDS
    ensures Reaches(run', s') && Quiet(s') && s' == s.(vcs := VWait(s.vcs.op, s.vcs.i + 1), tlp := s'.tlp)
  {
    run', s' := Then(run, s, Vcpu(SendTlp(false, 0, 0)));
    run', s' := Then(run', s', Vcpu(SendTlpReady));
    run', s' := Then(run', s', Dma(RecvSync));
    run', s' := Then(run', s', Dma(RecvTlp));
  }

  // ---------- a read that was given up ----------

  const R0: Op := Op(ReadBytes, 0, 0, 1, [], 0)

  lemma GivenUp() returns (run: seq<Action>, s: State)
    ensures Reaches(run, s) && Quiet(s) && s.link.initialized && s.vcs == VIdle && s.poller == PIdle
    ensures s.up.wire == [DmaReq(R0)] && s.up.queued == [OpItem(R0)] && s.down == DownPath([], [], 0) && s.ram == Ram(map[], [])
  {
    run, s := [], Initial(true);
    run, s := Then(run, s, Dma(StartDma(ReadBytes, 0, 1, [])));
    run, s := Exhaust(run, s);
  }

  /** Its answer arrives after all. */
  lemma Orphaned() returns (run: seq<Action>, s: State)
    ensures Reaches(run, s) && s.link == Link(true, false) && s.vcs == VIdle && s.ctrl == [DmaDone] && s.poller == PIdle
    ensures s.down == DownPath([DownData(R0, [0]), DownCpl(R0)], [Answer(R0, 0, [0])], 0)
  {
    run, s := GivenUp();
    assert Load(map[], 0, 1) == [0];
    run, s := Then(run, s, Poller(Take));
    run, s := Then(run, s, Poller(SendDownData));
    run, s := Then(run, s, Poller(SendDownCpl));
    run, s := Then(run, s, Poller(SendDmaDone));
  }

  /** Mixing directions does happen: read, give up, write. */
  lemma MixedHappens() returns (run: seq<Action>, s: State)
    ensures Reaches(run, s) && s.vcs.VBroken?
  {
    run, s := Orphaned();
    run, s := Then(run, s, Dma(StartDma(WriteBytes, 0, 1, [7])));
    run, s := Then(run, s, Dma(SendUpData));
    run, s := Then(run, s, Dma(RecvSync));
    run, s := Then(run, s, Dma(RecvDownCpl));
  }

  /** Polls hand out what is in the cache. */
  lemma {:induction false} EmptyCache(run: seq<Action>, s: State) returns (run': seq<Action>, s': State)
    requires Reaches(run, s) && s.vcs == VIdle
    ensures Reaches(run', s') && s' == s.(tlp := s'.tlp) && s'.tlp.cache == []
    decreases |s.tlp.cache|
  {
    run', s' := run, s;
    if s.tlp.cache != [] {
      run', s' := Then(run, s, Poll(PollStart));
      run', s' := EmptyCache(run', s');
    }
  }

  /** A poll does throw notifications away: the same late answer, met by a poll. */
  lemma DiscardHappens() returns (run: seq<Action>, s: State)
    ensures Reaches(run, s) && s.down.discarded == 1
  {
    run, s := Orphaned();
    run, s := EmptyCache(run, s);
    run, s := Then(run, s, Poll(PollStart));
    run, s := Then(run, s, Poll(DrainSync));
  }

  // ---------- two writes with one tag ----------

  const W0: Op := Op(WriteBytes, 0, 0, 1, [7], 0)

  /** Nothing is going on, `n` synchronous writes have been made, and address 16 was never
      written. */
  ghost predicate Calm(s: State, n: nat) {
    && Quiet(s) && s.link.initialized && s.vcs == VIdle && s.poller == PIdle && s.down == DownPath([], [], 0)
    && s.up.wire == [] && s.up.queued == [] && s.count == Counters(0, 0, n)
    && Untouched(s.ram)
  }

  ghost predicate Untouched(r: Ram) {
    forall i :: 0 <= i < |r.log| ==> r.log[i].addr != 16
  }

  /** The poller carries out and answers the write at the head of its connection. */
  lemma Carried(run: seq<Action>, s: State, op: Op) returns (run': seq<Action>, s': State)
    requires Reaches(run, s) && s.poller == PIdle && s.ctrl == [] && s.down == DownPath([], [], 0) && !op.IsRead()
    requires |s.up.wire| >= 2 && s.up.wire[0] == DmaReq(op) && s.up.wire[1] == UpData(op, op.bytes) && s.up.queued != []
    ensures Reaches(run', s') && s'.ctrl == [DmaDone] && s'.down == DownPath([DownCpl(op)], [Answer(op, |s.ram.log|, [])], 0)
    ensures s' == s.(ctrl := s'.ctrl, down := s'.down, up := s'.up, ram := Write(s.ram, op.addr, op.bytes))
    ensures s'.up.wire == s.up.wire[2..] && s'.up.queued == s.up.queued[1..]
  {
    run', s' := Then(run, s, Poller(Take));
    run', s' := Then(run', s', Poller(RecvUpData));
    run', s' := Then(run', s', Poller(SendDownCpl));
    run', s' := Then(run', s', Poller(SendDmaDone));
  }

  /** A synchronous write that succeeds. */
  lemma SyncWrite(run: seq<Action>, s: State, n: nat) returns (run': seq<Action>, s': State)
    requires Reaches(run, s) && Calm(s, n)
    ensures Reaches(run', s') && Calm(s', n + 1)
  {
    run', s' := Then(run, s, Dma(StartDma(WriteSync, 8, 1, [9])));
    run', s' := Then(run', s', Dma(SendUpData));
    run', s' := Carried(run', s', s'.vcs.op);
    run', s' := Then(run', s', Dma(RecvSync));
    run', s' := Then(run', s', Dma(RecvDownCpl));
  }

  lemma {:induction false} SyncWrites(run: seq<Action>, s: State, from: nat, n: nat) returns (run': seq<Action>, s': State)
    requires Reaches(run, s) && Calm(s, from)
    ensures Reaches(run', s') && Calm(s', from + n)
    decreases n
  {
    run', s' := run, s;
    if n > 0 {
      run', s' := SyncWrite(run, s, from);
      run', s' := SyncWrites(run', s', from + 1, n - 1);
    }
  }

  /** One write of the other counter, given up before the poller sees it. */
  lemma OtherGivenUp(run: seq<Action>, s: State, n: nat) returns (run': seq<Action>, s': State, op: Op)
    requires Reaches(run, s) && Calm(s, n)
    ensures Reaches(run', s') && Quiet(s') && s'.link.initialized && s'.vcs == VIdle && s'.poller == PIdle && s'.down == DownPath([], [], 0)
    ensures s'.count == Counters(0, 1, n) && Untouched(s'.ram)
    ensures op.Tag() == 6000 && !op.IsRead() && op.addr != 16
    ensures s'.up.wire == [DmaReq(op), UpData(op, op.bytes)] && s'.up.queued == [OpItem(op)]
  {
    run', s' := Then(run, s, Dma(StartDma(WriteBytes, 0, 1, [7])));
    op := s'.vcs.op;
    run', s' := Then(run', s', Dma(SendUpData));
    run', s' := Exhaust(run', s');
  }

  /** The 3001st synchronous write carries the tag of the first other write, which was given up,
      and returns 0 with that one's completion, although nothing has been stored at its address. */
  lemma WritesCollide() returns (run: seq<Action>, s: State)
    ensures Reaches(run, s) && DmaEnabled(s, RecvDownCpl) && Matches(s) && !s.vcs.op.IsRead()
    ensures s.vcs.op.addr == 16 && Untouched(s.ram)
  {
    run, s := [], Initial(true);
    run, s := SyncWrites(run, s, 0, 3000);
    var op: Op;
    run, s, op := OtherGivenUp(run, s, 3000);
    run, s := Then(run, s, Dma(StartDma(WriteSync, 16, 1, [9])));
    run, s := Then(run, s, Dma(SendUpData));
    run, s := Carried(run, s, op);
    run, s := Then(run, s, Dma(RecvSync));
  }

  // ---------- nothing out of the ordinary ----------

  /** The vCPU sends a TLP and waits, and a poll hands it out. */
  lemma TlpPolled(tag: nat, body: int) returns (run: seq<Action>, s: State)
    ensures Reaches(run, s) && s == Initial(true).(vcpu := VcWait(tag, 256), tlp := TlpPath([], [], [DataTlp(tag, body)], [DataTlp(tag, body)], 0))
  {
    run, s := [], Initial(true);
    run, s := Then(run, s, Vcpu(SendTlp(true, tag, body)));
    run, s := Then(run, s, Vcpu(SendTlpReady));
    run, s := Then(run, s, Poll(PollStart));
    run, s := Then(run, s, Poll(DrainSync));
    run, s := Then(run, s, Poll(DrainTlp));
    run, s := Then(run, s, Poll(DrainEnd));
  }

  /** Request, completion and interrupt: a run that does what it should, for every tag, body, answer
      and vector. */
  lemma Exchange(tag: nat, body: int, answer: int, vector: nat) returns (run: seq<Action>, s: State)
    ensures Reaches(run, s) && s.vcpu == VcIdle && s.vcs == VIdle && s.poller == PIdle
    ensures s.tlp.delivered == [DataTlp(tag, body)] && s.cpl.received == [DataCpl(tag, answer)]
    ensures s.up.interrupts == [Delivery(vector, 0, 0)] && s.up.wire == []
  {
    run, s := TlpPolled(tag, body);
    run, s := Then(run, s, Notify(SendCpl(tag, answer)));
    run, s := Then(run, s, Notify(SendCplReady));
    run, s := Then(run, s, Vcpu(RecvCplReady));
    run, s := Then(run, s, Vcpu(RecvCpl));
    run, s := Then(run, s, Notify(RaiseMsi(vector)));
    run, s := Then(run, s, Poller(Take));
  }
}
