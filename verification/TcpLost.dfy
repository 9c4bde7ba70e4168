/** What a write that failed does to the reads after it. */
module TcpLost {
  import opened TcpProtocol
  import opened TcpInvariants
  import opened TcpTheorems
  import opened TcpProgress

  /** A write is unanswered that nobody waits for. */
  ghost predicate Owes(out: seq<Op>, v: VcsPc) {
    exists i :: 0 <= i < |out| && !out[i].IsRead() && (Waiting(v) ==> out[i] != v.op)
  }

  /** The same, unless a message has been mistaken already. */
  ghost predicate LostWrite(s: State) {
    s.vcs.VBroken? || Owes(Outstanding(s), s.vcs)
  }

  lemma SameOwes(s: State, s': State)
    requires LostWrite(s) && Outstanding(s') == Outstanding(s)
    requires s'.vcs.VBroken? || (!s.vcs.VBroken? && (Waiting(s'.vcs) ==> Waiting(s.vcs) && s'.vcs.op == s.vcs.op))
    ensures LostWrite(s')
  {
  }

  lemma Begins(s: State, op: Op)
    ensures var s' := Start(s, op); Outstanding(s') == Outstanding(s) + [op] && Waiting(s'.vcs) && s'.vcs.op == op
  {
    OpsOfAppend(s.up.queued, OpItem(op));
    Assoc(Answered(s.down.served) + Pending(s.poller), OpsOf(s.up.queued), [op]);
    assert OpsOf([OpItem(op)]) == [op];
  }

  lemma OwesMore(out: seq<Op>, count: Counters, op: Op, v: VcsPc)
    requires Numbered(out, count) && op.n == count.Of(op.kind) && Owes(out, VIdle) && Waiting(v) && v.op == op
    ensures Owes(out + [op], v)
  {
    var i :| 0 <= i < |out| && !out[i].IsRead();
    assert (out + [op])[i] == out[i] && Proper(out[i], count);
  }

  lemma StartOwes(s: State, op: Op)
    requires Inv(s) && LostWrite(s) && s.vcs == VIdle && op.n == s.count.Of(op.kind)
    ensures LostWrite(Start(s, op))
  {
    NumbersHold(s);
    Begins(s, op);
    OwesMore(Outstanding(s), s.count, op, Start(s, op).vcs);
  }

  /** What is left when a completion has been received. */
  lemma Consumes(s: State)
    requires Inv(s) && DmaEnabled(s, RecvDownCpl) && s.down.wire[0].DownCpl?
    ensures Outstanding(s) != [] && Outstanding(DoDma(s, RecvDownCpl)) == Outstanding(s)[1..]
    ensures Outstanding(s)[0].IsRead() == s.vcs.op.IsRead() && s.down.wire[0] == DownCpl(Outstanding(s)[0])
    ensures Outstanding(s)[|Outstanding(s)| - 1] == s.vcs.op
  {
    OldestTaken(s);
    DownHolds(s);
    WireHead(s);
    OutHead(s.down.served, Pending(s.poller), OpsOf(s.up.queued));
  }

  /** A write that takes the completion of an older one stays unanswered itself. */
  lemma OlderOwes(s: State)
    requires Inv(s) && DmaEnabled(s, RecvDownCpl) && s.down.wire[0].DownCpl?
    requires !s.vcs.op.IsRead() && s.down.wire[0].op != s.vcs.op
    ensures LostWrite(DoDma(s, RecvDownCpl))
  {
    Consumes(s);
    var out := Outstanding(s);
    assert out[1..][|out| - 2] == s.vcs.op;
  }

  /** The oldest one goes; if that is the write nobody waits for, the one waited for is left. */
  lemma OwesRest(out: seq<Op>, op: Op, v: VcsPc, v': VcsPc)
    requires Waiting(v) && out != [] && out[|out| - 1] == op == v.op && Owes(out, v) && out[0].IsRead() == op.IsRead()
    requires !Waiting(v') || (op.IsRead() && v'.op == op)
    ensures Owes(out[1..], v')
  {
    var i :| 0 <= i < |out| && !out[i].IsRead() && out[i] != op;
    if i > 0 { assert out[1..][i - 1] == out[i]; } else { assert out[1..][|out| - 2] == op; }
  }

  lemma CplOwes(s: State)
    requires Inv(s) && LostWrite(s) && DmaEnabled(s, RecvDownCpl)
    ensures LostWrite(DoDma(s, RecvDownCpl))
  {
    if s.down.wire[0].DownCpl? {
      Consumes(s);
      OwesRest(Outstanding(s), s.vcs.op, s.vcs, AfterCpl(s));
    }
  }

  lemma DmaOwes(s: State, a: DmaAct)
    requires Inv(s) && LostWrite(s) && DmaEnabled(s, a)
    ensures LostWrite(DoDma(s, a))
  {
    match a {
      case StartDma(k, addr, len, bytes) => StartOwes(s, Op(k, s.count.Of(k), addr, len, bytes, |s.ram.log|));
      case RecvDownCpl => CplOwes(s);
      case _ => SameOwes(s, DoDma(s, a));
    }
  }

  lemma StillOwes(s: State, a: Action)
    requires Inv(s) && LostWrite(s) && Enabled(s, a)
    ensures LostWrite(Do(s, a))
  {
    UpHolds(s);
    match a {
      case Vcpu(_) => QemuKeepsOutstanding(s, a);
      case Poller(_) => QemuKeepsOutstanding(s, a);
      case Dma(d) => DmaOwes(s, d);
      case Poll(q) => PollKeepsOutstanding(s, q); PollLeaves(s, q); SameOwes(s, DoPoll(s, q));
      case Notify(t) => OutNotify(s, t);
      case LinkFails => SameOwes(s, Do(s, a));
    }
  }

  lemma {:induction false} OwesForever(s: State, run: seq<Action>)
    requires Inv(s) && LostWrite(s) && Legal(s, run)
    ensures Inv(Exec(s, run)) && LostWrite(Exec(s, run))
    decreases |run|
  {
    if run != [] {
      Step(s, run[0]);
      StillOwes(s, run[0]);
      OwesForever(Do(s, run[0]), run[1..]);
    }
  }

  lemma NotMatched(s: State)
    requires Inv(s) && LostWrite(s) && DmaEnabled(s, RecvDownCpl) && s.vcs.op.IsRead() && s.count.rd <= 0x1_0000_0000
    ensures !Matches(s)
  {
    if Matches(s) {
      Consumes(s);
      NumbersHold(s);
      ReadTagUnique(s, s.vcs.op);
      OwnNeedsAll(s);
    }
  }

  /** Once a write is unanswered that nobody waits for any more, no read returns 0 in any run,
      up to 2^32 of them: the answers come in order, and the write's comes first. */
  lemma NoReadAfterLostWrite(s: State, run: seq<Action>)
    requires Reachable(s) && LostWrite(s) && Legal(s, run)
    ensures var s' := Exec(s, run);
      DmaEnabled(s', RecvDownCpl) && s'.vcs.op.IsRead() && s'.count.rd <= 0x1_0000_0000 ==> !Matches(s')
  {
    ReachableInv(s);
    OwesForever(s, run);
    var s' := Exec(s, run);
    if DmaEnabled(s', RecvDownCpl) && s'.vcs.op.IsRead() && s'.count.rd <= 0x1_0000_0000 { NotMatched(s'); }
  }

  /** Giving up a write leaves such a state. */
  lemma GivingUpLoses(s: State)
    requires Inv(s) && DmaEnabled(s, Abandon) && !s.vcs.op.IsRead()
    ensures LostWrite(DoDma(s, Abandon))
  {
    DownHolds(s);
    var out := Outstanding(s);
    assert Outstanding(DoDma(s, Abandon)) == out && out[|out| - 1] == s.vcs.op;
  }
}
