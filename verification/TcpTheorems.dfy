/** The main results about the three-connection protocol, for every reachable state. */
module TcpTheorems {
  import opened GuestMemory
  import opened Subsequences
  import opened TcpProtocol
  import opened TcpInvariants

  // ---------- 1. every receive finds the message type it expects ----------

  /** Unconditionally so for the vCPU thread, the poller and TLP reception; a message that
      is announced is also already there.  An idle poller never has a DMA_DATA in front of
      it, so its two peeks never jam. */
  lemma ReceivesMatch(s: State)
    requires Reachable(s)
    ensures s.vcpu.VcWait? && s.cpl.ctrl != [] ==> s.cpl.ctrl[0] == CplReady
    ensures s.vcpu.VcCpl? ==> s.cpl.data != [] && s.cpl.data[0].DataCpl?
    ensures TlpDue(s.vcs) ==> s.tlp.wire != [] && s.tlp.wire[0].DataTlp?
    ensures s.poller == PIdle && s.up.wire != [] ==> !s.up.wire[0].UpData?
    ensures s.poller.PWrite? && s.up.wire != [] ==> s.up.wire[0] == UpData(s.poller.op, s.poller.op.bytes)
    ensures !s.vcpu.VcBroken? && !s.poller.PBroken?
  {
    ReachableInv(s);
    assert All(s);
    if s.up.wire != [] { UpHead(s); }
  }

  lemma UpHead(s: State)
    requires InvUp(s) && s.up.wire != []
    ensures s.poller.PWrite? ==> s.up.wire[0] == UpData(s.poller.op, s.poller.op.bytes)
    ensures !s.poller.PWrite? ==> !s.up.wire[0].UpData?
  {
    var all := s.up.wire + UpOwed(s.vcs);
    assert s.up.wire[0] == all[0];
    assert all == UpExpected(s.poller) + FlatUp(s.up.queued);
  }

  lemma ReachableDown(s: State)
    requires Reachable(s)
    ensures InvDown(s)
  {
    ReachableInv(s);
    assert All(s);
  }

  /** The answer to `o` goes the way the VCS thread waits for and fits its receive buffer. */
  predicate Welcome(o: Op, waiting: Op) {
    o.IsRead() == waiting.IsRead() && (o.IsRead() ==> o.len <= 4096)
  }

  /** What follows a DMA notification is already there, and it is received as expected exactly
      when the oldest outstanding DMA has the direction the VCS thread waits for and, if it is a
      read, at most the length of the receive buffer. */
  lemma DmaAnswerMatches(s: State)
    requires Reachable(s) && Got(s.vcs)
    ensures s.down.wire != [] && Outstanding(s) != []
    ensures s.vcs.VData? ==>
      (DoDma(s, RecvDownData).vcs.VBroken? <==> !Welcome(Outstanding(s)[0], s.vcs.op))
    ensures s.vcs.VCpl? ==>
      (DoDma(s, RecvDownCpl).vcs.VBroken? <==> Outstanding(s)[0].IsRead() != s.vcs.op.IsRead())
  {
    ReachableInv(s);
    DownHolds(s);
    WireHead(s);
    if s.vcs.VCpl? {
      AfterCplBroken(s);
    } else {
      assert s.vcs.op.IsRead();
      FirstAnswer(s);
    }
  }

  /** How long the oldest answer is. */
  lemma FirstAnswer(s: State)
    requires Inv(s) && s.down.served != []
    ensures var x := s.down.served[0]; x.op.IsRead() ==> |x.data| == Served(x.op.len)
  {
    MemHolds(s);
    assert Linearized(s.ram.log, s.down.served[0]);
  }

  lemma AfterCplBroken(s: State)
    requires DmaEnabled(s, RecvDownCpl)
    ensures AfterCpl(s).VBroken? <==> !s.down.wire[0].DownCpl?
    ensures DoDma(s, RecvDownCpl).vcs == AfterCpl(s)
  {
  }

  lemma WireHead(s: State)
    requires InvDown(s) && Got(s.vcs)
    ensures s.down.served != [] && s.down.wire != []
    ensures Outstanding(s) != [] && Outstanding(s)[0] == s.down.served[0].op
    ensures s.vcs.VData? || !s.vcs.op.IsRead() ==> s.down.wire[0] == DownMsgs(s.down.served[0])[0]
    ensures s.vcs.VCpl? && s.vcs.op.IsRead() ==>
      s.down.served[0].op.IsRead() && s.vcs.got[0] == DownMsgs(s.down.served[0])[0]
      && s.down.wire[0] == DownMsgs(s.down.served[0])[1]
  {
    OldestAnswer(s);
    var m, all := DownMsgs(s.down.served[0]), DownTaken(s.vcs) + s.down.wire;
    assert all[0] == m[0];
    if s.vcs.VCpl? && s.vcs.op.IsRead() { assert all[1] == m[1]; }
    assert s.down.wire[0] == all[|DownTaken(s.vcs)|];
  }

  // ---------- 2. linearizability of DMA ----------

  /** Tags of outstanding DMAs of one direction do not repeat the tag waited for. */
  ghost predicate TagUnique(s: State, op: Op) {
    forall o :: o in Outstanding(s) && o.IsRead() == op.IsRead() && o.Tag() == op.Tag() ==> o == op
  }

  /** A read's tag is its own as long as at most 2^32 reads have been started. */
  lemma ReadTagUnique(s: State, op: Op)
    requires InvNumbers(s) && op in Outstanding(s) && op.IsRead()
    requires s.count.rd <= 0x1_0000_0000
    ensures TagUnique(s, op)
  {
    var out := Outstanding(s);
    var i :| 0 <= i < |out| && out[i] == op;
    forall o | o in out && o.IsRead() == op.IsRead() && o.Tag() == op.Tag() ensures o == op {
      var j :| 0 <= j < |out| && out[j] == o;
      ReadTagsDiffer(out[i], out[j], s.count);
      assert i == j;
    }
  }

  lemma ReadTagsDiffer(o1: Op, o2: Op, count: Counters)
    requires Proper(o1, count) && Proper(o2, count) && o1.IsRead() && o2.IsRead()
    requires count.rd <= 0x1_0000_0000
    ensures o1.Tag() == o2.Tag() ==> o1.n == o2.n
  {
  }

  /** Below the wrap, two different writes share a tag exactly when they come from the two
      different counters and the distance of the counters' start values has been made up. */
  lemma WriteTagsCollide(count: Counters, o1: Op, o2: Op)
    requires Proper(o1, count) && Proper(o2, count) && !o1.IsRead() && !o2.IsRead()
    requires count.wr <= 0x1_0000_0000 - 6000 && count.sync <= 0x1_0000_0000 - 3000
    ensures o1.Tag() == o2.Tag() <==>
      (o1.kind == o2.kind && o1.n == o2.n) ||
      (o1.kind == WriteBytes && o2.kind == WriteSync && o2.n == o1.n + 3000) ||
      (o2.kind == WriteBytes && o1.kind == WriteSync && o1.n == o2.n + 3000)
  {
  }

  /** bridge_dma_read_bytes returns 0: what it copies out is guest memory as it stood at one
      moment between its start and now, whatever abandoned reads came before. */
  lemma ReadLinearized(s: State)
    requires Reachable(s) && DmaEnabled(s, RecvDownCpl) && s.vcs.op.IsRead() && Matches(s)
    requires TagUnique(s, s.vcs.op)
    ensures var op := s.vcs.op;
      && op.len <= 4096 && s.vcs.got != [] && s.vcs.got[0].DownData?
      && exists at :: op.since <= at <= |s.ram.log|
          && s.vcs.got[0].bytes == Load(Replay(s.ram.log[..at]), op.addr, op.len)
  {
    ReachableInv(s);
    assert All(s);
    WireHead(s);
    var x := s.down.served[0];
    assert Outstanding(s)[0] in Outstanding(s);
    assert Linearized(s.ram.log, x);
    assert Proper(Outstanding(s)[0], s.count);
  }

  /** bridge_dma_write_bytes (or bridge_vcs_dma_write_sync) returns 0: exactly its bytes were
      stored at its address, at one moment after it was started. */
  lemma WriteLinearized(s: State)
    requires Reachable(s) && DmaEnabled(s, RecvDownCpl) && !s.vcs.op.IsRead() && Matches(s)
    requires TagUnique(s, s.vcs.op)
    ensures var op := s.vcs.op;
      exists at :: op.since <= at < |s.ram.log| && s.ram.log[at] == MemEvent(op.addr, op.bytes)
  {
    ReachableInv(s);
    assert All(s);
    WireHead(s);
    var x := s.down.served[0];
    assert Outstanding(s)[0] in Outstanding(s);
    assert Linearized(s.ram.log, x);
  }

  /** Guest memory is at every moment the result of the logged stores, in order. */
  lemma MemoryIsLog(s: State)
    requires Reachable(s)
    ensures s.ram.mem == Replay(s.ram.log)
  {
    ReachableInv(s);
    assert All(s);
  }

  // ---------- 3. TLPs come out in order, each once ----------

  lemma TlpsInOrder(s: State)
    requires Reachable(s)
    ensures IsSubseq(s.tlp.delivered + (s.tlp.cache + s.tlp.wire), s.tlp.sent)
    ensures s.tlp.delivered + (s.tlp.cache + s.tlp.wire) == s.tlp.sent <==> s.tlp.drops == 0
  {
    ReachableInv(s);
    assert All(s);
    FullLength(s.tlp.delivered + (s.tlp.cache + s.tlp.wire), s.tlp.sent);
  }

  /** Only the two actions that cache a TLP can lose one, and only when the cache holds
      1023 entries. */
  lemma DropOnlyWhenFull(s: State, next: VcsPc)
    requires Reachable(s) && TlpDue(s.vcs)
    ensures s.tlp.wire != []
    ensures Cache(s, next).tlp.drops == if |s.tlp.cache| == 1023 then s.tlp.drops + 1 else s.tlp.drops
  {
    ReachableInv(s);
    assert All(s);
  }

  // ---------- 4. interrupt after data ----------

  /** When the poller takes an MSI, every DMA write started before the MSI was raised (the
      first `mark` ones) has already been stored in guest memory. */
  lemma InterruptAfterData(s: State)
    requires Reachable(s) && PollerEnabled(s, Take) && s.up.wire[0].Msi?
    ensures var mark := s.up.wire[0].mark;
      mark <= |s.up.issued| && forall k :: 0 <= k < mark ==>
        exists at :: 0 <= at < |s.ram.log| && s.ram.log[at] == MemEvent(s.up.issued[k].addr, s.up.issued[k].bytes)
  {
    ReachableInv(s);
    assert All(s);
    MsiHead(s);
    AnsweredLength(s.up.applied);
    forall k | 0 <= k < |s.up.applied|
      ensures exists at :: 0 <= at < |s.ram.log| && s.ram.log[at] == MemEvent(s.up.issued[k].addr, s.up.issued[k].bytes)
    {
      AnsweredAt(s.up.applied, k);
      assert Answered(s.up.applied)[k] == s.up.issued[k];
      assert Linearized(s.ram.log, s.up.applied[k]);
    }
  }

  lemma AnsweredAt(xs: seq<Answer>, k: nat)
    requires k < |xs|
    ensures |Answered(xs)| == |xs| && Answered(xs)[k] == xs[k].op
  {
    AnsweredLength(xs);
    if k > 0 { AnsweredAt(xs[1..], k - 1); }
  }
}
