/** The entry points of bridge_vcs.c over TCP, as the code runs them: straight-line calls and
    wait loops on the VCS thread, with the QEMU threads running in between.  Every step is an
    action of TcpProtocol, so each call is a piece of a run of the whole system. */
module VcsBridge {
  import opened GuestMemory
  import opened Subsequences
  import opened TcpProtocol
  import opened TcpInvariants
  import opened TcpTheorems
  import opened TcpProgress
  import opened TcpLost
  import opened TlpCache

  /** What the VCS thread can rely on across a stretch of a run. */
  ghost predicate Later(s: State, s': State) {
    && s'.link.initialized == s.link.initialized && s'.count == s.count && |s.ram.log| <= |s'.ram.log|
    && Outstanding(s') == Outstanding(s)
  }

  /** The QEMU threads leave the VCS thread where it stands, and its cache alone. */
  lemma QemuLater(s: State, a: Action)
    requires Reachable(s) && Enabled(s, a) && (a.Vcpu? || a.Poller?)
    ensures var s' := Do(s, a); Later(s, s') && s'.vcs == s.vcs && s'.tlp.delivered == s.tlp.delivered && s'.tlp.cache == s.tlp.cache
  {
    ReachableInv(s);
    UpHolds(s);
    QemuKeepsOutstanding(s, a);
    match a {
      case Vcpu(v) => VcpuLeaves(s, v);
      case Poller(p) => PollerLeaves(s, p);
    }
  }

  lemma DmaLater(s: State, a: DmaAct)
    requires DmaEnabled(s, a) && (a.RecvSync? || a.RecvTlp? || a.RecvDownData? || a.Abandon?)
    ensures Later(s, DoDma(s, a)) && DoDma(s, a).ram == s.ram && (!a.RecvTlp? ==> DoDma(s, a).tlp == s.tlp)
  {
  }

  lemma FailLater(s: State)
    requires !s.link.broken
    ensures Later(s, Do(s, LinkFails))
  {
  }

  /** An unanswered write that nobody waits for stays one. */
  lemma LostStays(initialized: bool, run: seq<Action>, run': seq<Action>)
    requires run <= run' && Legal(Initial(initialized), run) && Legal(Initial(initialized), run')
    ensures LostWrite(Exec(Initial(initialized), run)) ==> LostWrite(Exec(Initial(initialized), run'))
  {
    if LostWrite(Exec(Initial(initialized), run)) {
      var rest := run'[|run|..];
      assert run + rest == run';
      Apart(Initial(initialized), run, rest);
      InitialInv(initialized);
      RunKeeps(Initial(initialized), run);
      OwesForever(Exec(Initial(initialized), run), rest);
    }
  }

  lemma {:induction false} Apart(s: State, a: seq<Action>, b: seq<Action>)
    requires Legal(s, a) && Legal(s, a + b)
    ensures Legal(Exec(s, a), b) && Exec(s, a + b) == Exec(Exec(s, a), b)
    decreases |a|
  {
    if a == [] {
      assert a + b == b;
    } else {
      assert (a + b)[0] == a[0] && (a + b)[1..] == a[1..] + b;
      Apart(Do(s, a[0]), a[1..], b);
    }
  }

  /** A read that returns 0 leaves nothing unanswered. */
  lemma NothingLost(s: State)
    requires Reachable(s) && DmaEnabled(s, RecvDownCpl) && s.vcs.op.IsRead() && Matches(s) && s.count.rd <= 0x1_0000_0000
    ensures !LostWrite(DoDma(s, RecvDownCpl))
  {
    ReachableInv(s);
    Consumes(s);
    NumbersHold(s);
    ReadTagUnique(s, s.vcs.op);
    OwnNeedsAll(s);
    assert Outstanding(DoDma(s, RecvDownCpl)) == [];
  }

  /** Notifications the wait loops have taken. */
  function Syncs(run: seq<Action>): nat {
    if run == [] then 0 else Syncs(run[..|run| - 1]) + if run[|run| - 1] == Dma(RecvSync) then 1 else 0
  }

  lemma SyncsGrow(run: seq<Action>, a: Action)
    ensures Syncs(run + [a]) == Syncs(run) + if a == Dma(RecvSync) then 1 else 0
  {
    assert (run + [a])[..|run|] == run;
  }

  datatype Round = Failed | Again | Done

  class VcsThread {
    const initialized: bool
    const cache: Cache
    var st: State
    ghost var trace: seq<Action>
    /** How often a connection has failed. */
    ghost var faults: nat

    /** The state is where the recorded run has led. */
    ghost predicate OnRun()
      reads this
    {
      Legal(Initial(initialized), trace) && Exec(Initial(initialized), trace) == st
    }

    /** And the cache holds what it holds there. */
    ghost predicate Valid()
      reads this, cache, cache.slots
    {
      OnRun() && cache.Valid() && cache.contents == st.tlp.cache
    }

    constructor (initialized: bool)
      ensures Valid() && trace == [] && faults == 0 && this.initialized == initialized && fresh(cache) && fresh(cache.slots)
    {
      this.initialized := initialized;
      cache := new Cache();
      st := Initial(initialized);
      trace, faults := [], 0;
    }

    lemma Known()
      requires OnRun()
      ensures Reachable(st)
    {
      assert Legal(Initial(initialized), trace) && Exec(Initial(initialized), trace) == st;
    }

    method Act(a: Action)
      requires OnRun() && Enabled(st, a)
      modifies this`st, this`trace
      ensures OnRun() && st == Do(old(st), a) && trace == old(trace) + [a]
      ensures Syncs(trace) == Syncs(old(trace)) + if a == Dma(RecvSync) then 1 else 0
    {
      Extend(Initial(initialized), trace, a);
      SyncsGrow(trace, a);
      st := Do(st, a);
      trace := trace + [a];
    }

    /** The vCPU and poller threads run for a while, any way they like. */
    method OthersRun()
      requires OnRun()
      modifies this`st, this`trace
      ensures OnRun() && old(trace) <= trace && Syncs(trace) == Syncs(old(trace)) && Later(old(st), st)
      ensures st.vcs == old(st).vcs && st.tlp.delivered == old(st).tlp.delivered && st.tlp.cache == old(st).tlp.cache
    {
      var n: nat := *;
      while n > 0
        invariant OnRun() && old(trace) <= trace && Syncs(trace) == Syncs(old(trace)) && Later(old(st), st)
        invariant st.vcs == old(st).vcs && st.tlp.delivered == old(st).tlp.delivered && st.tlp.cache == old(st).tlp.cache
      {
        var a: Action := *;
        if (a.Vcpu? || a.Poller?) && Enabled(st, a) {
          Known();
          QemuLater(st, a);
          Act(a);
        }
        n := n - 1;
      }
    }

    /** A receive fails: the connection is broken from now on. */
    method Fail()
      requires OnRun()
      modifies this
      ensures OnRun() && old(trace) <= trace && Syncs(trace) == Syncs(old(trace)) && Later(old(st), st)
      ensures faults == old(faults) + 1 && st == old(st).(link := st.link) && st.link.broken
    {
      faults := faults + 1;
      if !st.link.broken {
        FailLater(st);
        Act(LinkFails);
      }
    }

    /** recv_sync; false if the connection fails instead. */
    method RecvSyncOrFail() returns (ok: bool, msg: Ctrl)
      requires Valid() && st.vcs.VWait? && st.vcs.i < DMA_WAIT_ROUNDS
      modifies this
      ensures Valid() && old(trace) <= trace && Later(old(st), st)
      ensures faults == if ok then old(faults) else old(faults) + 1
      ensures ok ==> Syncs(trace) == Syncs(old(trace)) + 1
      ensures st.vcs == if ok then AfterSync(old(st).vcs.op, old(st).vcs.i, msg) else VIdle
      ensures cache.contents == old(cache.contents) && st.tlp.delivered == old(st).tlp.delivered
    {
      OthersRun();
      var fails: bool := *;
      if fails || st.ctrl == [] || st.link.broken {
        Fail();
        DmaLater(st, Abandon);
        Act(Dma(Abandon));
        return false, CplReady;
      }
      ok, msg := true, st.ctrl[0];
      DmaLater(st, RecvSync);
      Act(Dma(RecvSync));
    }

    /** recv_tlp after a TLP_READY, and tlp_cache_push_ctx. */
    method RecvTlpToCache() returns (tlp: Data)
      requires Valid() && st.vcs.VTlp?
      modifies this`st, this`trace, cache, cache.slots
      ensures Valid() && old(trace) <= trace && Syncs(trace) == Syncs(old(trace)) && Later(old(st), st)
      ensures st.vcs == VWait(old(st).vcs.op, old(st).vcs.i + 1) && st.tlp.delivered == old(st).tlp.delivered
      ensures cache.contents == Pushed(old(cache.contents), tlp)
    {
      OthersRun();
      Known();
      ReceivesMatch(st);
      DmaLater(st, RecvTlp);
      tlp := st.tlp.wire[0];
      var kept := cache.Push(tlp);
      Act(Dma(RecvTlp));
    }

    /** recv_dma_data after a DMA_CPL notification. */
    method RecvData() returns (m: Down)
      requires Valid() && st.vcs.VData?
      modifies this`st, this`trace
      ensures Valid() && old(trace) <= trace && Syncs(trace) == Syncs(old(trace)) && Later(old(st), st)
      ensures st.vcs == if Received(m) then VCpl(old(st).vcs.op, old(st).vcs.i, [m]) else VBroken
    {
      OthersRun();
      Known();
      DmaAnswerMatches(st);
      m := st.down.wire[0];
      DmaLater(st, RecvDownData);
      Act(Dma(RecvDownData));
    }

    /** recv_dma_cpl; `matches` tells whether it is the completion waited for. */
    method RecvCplEntry() returns (matches: bool, ghost before: State)
      requires Valid() && st.vcs.VCpl?
      modifies this`st, this`trace
      ensures Valid() && old(trace) <= trace && Syncs(trace) == Syncs(old(trace))
      ensures Later(old(st), before) && before.vcs == old(st).vcs
      ensures Reachable(before) && DmaEnabled(before, RecvDownCpl) && st == DoDma(before, RecvDownCpl)
      ensures matches == Matches(before)
    {
      OthersRun();
      Known();
      DmaAnswerMatches(st);
      before := st;
      var m := st.down.wire[0];
      matches := m.DownCpl? && m.op.Tag() == st.vcs.op.Tag();
      Act(Dma(RecvDownCpl));
    }

    /** One round of a wait loop up to the test for SYNC_MSG_DMA_CPL: a TLP_READY is followed
        by its TLP, which goes to the cache as far as there is room; nothing else does. */
    method WaitRound() returns (r: Round, ghost tlps: seq<Data>)
      requires Valid() && st.vcs.VWait? && st.vcs.i < DMA_WAIT_ROUNDS
      modifies this, cache, cache.slots
      ensures Valid() && old(trace) <= trace && Later(old(st), st)
      ensures faults == if r == Failed then old(faults) + 1 else old(faults)
      ensures r != Failed ==> Syncs(trace) == Syncs(old(trace)) + 1
      ensures var op, i := old(st).vcs.op, old(st).vcs.i;
        st.vcs == match r
                  case Failed => VIdle
                  case Again => VWait(op, i + 1)
                  case Done => if op.IsRead() then VData(op, i) else VCpl(op, i, [])
      ensures st.tlp.delivered == old(st).tlp.delivered && (r != Again ==> tlps == [])
      ensures |tlps| <= 1 && cache.contents == if tlps == [] then old(cache.contents) else Pushed(old(cache.contents), tlps[0])
    {
      tlps := [];
      var ok, msg := RecvSyncOrFail();
      if !ok { return Failed, []; }
      match msg {
        case TlpReady =>
          var tlp := RecvTlpToCache();
          return Again, [tlp];
        case DmaDone => return Done, [];
        case CplReady => return Again, [];
      }
    }

    /** Start a DMA: count its tag, send the request and, for a write, the data. */
    method Begin(kind: Kind, addr: nat, len: nat, bytes: seq<byte>)
      requires Valid() && st.vcs == VIdle && st.link.initialized && DmaArguments(kind, len, bytes)
      modifies this`st, this`trace
      ensures Valid() && old(trace) <= trace && Syncs(trace) == Syncs(old(trace))
      ensures st.count == old(st).count.Next(kind) && st.ram == old(st).ram
      ensures var op := Op(kind, old(st).count.Of(kind), addr, len, bytes, |old(st).ram.log|);
        st.vcs == VWait(op, 0) && Outstanding(st) == Outstanding(old(st)) + [op]
    {
      Begins(st, Op(kind, st.count.Of(kind), addr, len, bytes, |st.ram.log|));
      Act(Dma(StartDma(kind, addr, len, bytes)));
      if kind != ReadBytes { Act(Dma(SendUpData)); }
    }

    /** recv_dma_data and recv_dma_cpl of a read: its own answer, an older one, which is dropped,
        or messages of the wrong type. */
    method ReadAnswer(ghost op: Op, len: nat) returns (r: Round, buf: seq<byte>)
      requires Valid() && op.IsRead() && op.len == len && st.vcs.VData? && st.vcs.op == op
      modifies this`st, this`trace
      ensures Valid() && old(trace) <= trace && Syncs(trace) == Syncs(old(trace)) && st.count == old(st).count
      ensures st.vcs == match r
                        case Failed => VBroken
                        case Again => VWait(op, old(st).vcs.i + 1)
                        case Done => VIdle
      ensures r == Done ==> |buf| <= len
      ensures r == Done && st.count.rd <= 0x1_0000_0000 ==> len <= READ_BUFFER && !LostWrite(st) && exists at ::
        op.since <= at <= |st.ram.log| && buf == Load(Replay(st.ram.log[..at]), op.addr, op.len)
    {
      buf := [];
      var m := RecvData();
      if !Received(m) { return Failed, []; }
      var matches, before := RecvCplEntry();
      if matches {
        if st.count.rd <= 0x1_0000_0000 { ReadOver(before, op, len, m.bytes); }
        return Done, m.bytes[..if |m.bytes| < len then |m.bytes| else len];
      }
      r := if st.vcs.VBroken? then Failed else Again;
    }

    /** bridge_dma_read_bytes.  On success the buffer holds guest memory as it stood at one
        moment during the call; there is none if a write is unanswered that nobody waits for, or
        for more than 4096 bytes.  It fails only for a reason: it is refused, a connection fails,
        1000 notifications were not enough, or an answer of the wrong type, or one that overruns
        the receive buffer, was next. */
    method DmaReadBytes(addr: nat, len: nat) returns (rc: int, buf: seq<byte>)
      requires Valid() && st.vcs == VIdle
      modifies this, cache, cache.slots
      ensures Valid() && old(trace) <= trace
      ensures !old(st).link.initialized || len == 0 ==> rc == -1 && st == old(st)
      ensures rc == 0 || rc == -1
      ensures LostWrite(old(st)) ==> LostWrite(st) && (st.count.rd <= 0x1_0000_0000 ==> rc == -1)
      ensures rc == 0 ==> |buf| <= len
      ensures rc == 0 && st.count.rd <= 0x1_0000_0000 ==> len <= 4096 && exists at ::
        |old(st).ram.log| <= at <= |st.ram.log| && buf == Load(Replay(st.ram.log[..at]), addr, len)
      ensures st.vcs == VIdle || (rc == -1 && st.vcs == VBroken)
      ensures rc == -1 ==>
        (!old(st).link.initialized || len == 0 || faults > old(faults) || st.vcs == VBroken || Syncs(trace) == Syncs(old(trace)) + 1000)
    {
      if !st.link.initialized || len == 0 { return -1, []; }
      ghost var op := Op(ReadBytes, st.count.Of(ReadBytes), addr, len, [], |st.ram.log|);
      Begin(ReadBytes, addr, len, []);
      rc, buf := AwaitRead(op, len);
      LostStays(initialized, old(trace), trace);
    }

    /** Its wait loop. */
    method AwaitRead(ghost op: Op, len: nat) returns (rc: int, buf: seq<byte>)
      requires Valid() && op.IsRead() && op.len == len && st.vcs == VWait(op, 0)
      modifies this, cache, cache.slots
      ensures Valid() && old(trace) <= trace && st.count == old(st).count
      ensures rc == 0 || rc == -1
      ensures rc == 0 ==> |buf| <= len
      ensures rc == 0 && st.count.rd <= 0x1_0000_0000 ==> len <= READ_BUFFER && !LostWrite(st) && exists at ::
        op.since <= at <= |st.ram.log| && buf == Load(Replay(st.ram.log[..at]), op.addr, op.len)
      ensures st.vcs == VIdle || (rc == -1 && st.vcs == VBroken)
      ensures rc == -1 ==> faults > old(faults) || st.vcs == VBroken || Syncs(trace) == Syncs(old(trace)) + DMA_WAIT_ROUNDS
    {
      buf := [];
      var i := 0;
      while i < DMA_WAIT_ROUNDS
        invariant 0 <= i <= DMA_WAIT_ROUNDS
        invariant Valid() && old(trace) <= trace && st.vcs == VWait(op, i) && st.count == old(st).count
        invariant Syncs(trace) == Syncs(old(trace)) + i && faults == old(faults)
      {
        var r, tlps := WaitRound();
        if r == Failed { return -1, []; }
        if r == Done {
          r, buf := ReadAnswer(op, len);
          if r == Failed { return -1, []; }
          if r == Done { return 0, buf; }
        }
        i := i + 1;
      }
      GiveUp();
      rc := -1;
    }

    /** All rounds are used up. */
    method GiveUp()
      requires Valid() && st.vcs.VWait? && st.vcs.i == DMA_WAIT_ROUNDS
      modifies this`st, this`trace
      ensures Valid() && old(trace) <= trace && Syncs(trace) == Syncs(old(trace))
      ensures st == old(st).(vcs := VIdle)
    {
      Act(Dma(Abandon));
    }

    /** bridge_dma_write_bytes and bridge_vcs_dma_write_sync.  On success exactly these bytes
        were stored at this address at one moment during the call, if no older write with this
        tag is unanswered.  It fails only for a reason: besides those of a read, the completion
        of an older write came first, which `last` witnesses. */
    method DmaWriteBytes(kind: Kind, addr: nat, buf: seq<byte>) returns (rc: int, ghost last: State)
      requires Valid() && st.vcs == VIdle && |buf| <= 65536 && kind != ReadBytes
      modifies this, cache, cache.slots
      ensures Valid() && old(trace) <= trace
      ensures !old(st).link.initialized || buf == [] ==> rc == -1 && st == old(st)
      ensures rc == 0 || rc == -1
      ensures LostWrite(old(st)) ==> LostWrite(st)
      ensures rc == -1 && old(st).link.initialized && buf != [] ==> LostWrite(st)
      ensures rc == 0 && NoneWithTag(old(st), Op(kind, old(st).count.Of(kind), addr, |buf|, buf, |old(st).ram.log|)) ==> exists at ::
        |old(st).ram.log| <= at < |st.ram.log| && st.ram.log[at] == MemEvent(addr, buf)
      ensures st.vcs == VIdle || (rc == -1 && st.vcs == VBroken)
      ensures rc == -1 ==>
        (!old(st).link.initialized || buf == [] || faults > old(faults) || st.vcs == VBroken || Syncs(trace) == Syncs(old(trace)) + 1000
         || OlderAnswered(last, Op(kind, old(st).count.Of(kind), addr, |buf|, buf, |old(st).ram.log|), st))
    {
      last := st;
      if !st.link.initialized || buf == [] { return -1, last; }
      ghost var op := Op(kind, st.count.Of(kind), addr, |buf|, buf, |st.ram.log|);
      Begin(kind, addr, |buf|, buf);
      rc, last := AwaitWrite(op);
      LostStays(initialized, old(trace), trace);
      if rc == 0 && NoneWithTag(old(st), op) { WriteDone(old(st), last, op, st); }
    }

    /** recv_dma_cpl of a write: its own completion, an older one, or a message of the wrong type. */
    method WriteAnswer(ghost op: Op) returns (rc: int, ghost last: State)
      requires Valid() && !op.IsRead() && st.vcs.VCpl? && st.vcs.op == op
      modifies this`st, this`trace
      ensures Valid() && old(trace) <= trace && (rc == 0 || rc == -1)
      ensures rc == 0 ==> OwnAnswered(last, op, st) && Later(old(st), last)
      ensures rc == 0 ==> st.vcs == VIdle
      ensures rc == -1 ==> LostWrite(st) && (st.vcs == VBroken || (st.vcs == VIdle && OlderAnswered(last, op, st)))
    {
      var matches;
      matches, last := RecvCplEntry();
      rc := if matches then 0 else -1;
      if !matches && st.vcs == VIdle { OlderLoses(last, op, st); }
    }

    /** How a write call ends; `spent` tells that all rounds are used up. */
    ghost predicate WriteOver(rc: int, last: State, op: Op, failed: bool, spent: bool)
      reads this
    {
      && (rc == 0 || rc == -1) && (st.vcs == VIdle || (rc == -1 && st.vcs == VBroken))
      && (rc == 0 ==> OwnAnswered(last, op, st))
      && (rc == -1 ==> LostWrite(st) && (failed || st.vcs == VBroken || spent || OlderAnswered(last, op, st)))
    }

    /** One round of its wait loop; `last` is the state in which a completion came. */
    method WriteRound(ghost op: Op, i: nat) returns (over: bool, rc: int, ghost last: State)
      requires Valid() && !op.IsRead() && st.vcs == VWait(op, i) && i < DMA_WAIT_ROUNDS && EndsWith(Outstanding(st), op)
      modifies this, cache, cache.slots
      ensures Valid() && old(trace) <= trace
      ensures over ==> WriteOver(rc, last, op, faults > old(faults), false) && (rc == 0 ==> Later(old(st), last))
      ensures !over ==> st.vcs == VWait(op, i + 1) && Later(old(st), st) && faults == old(faults)
      ensures !over ==> Syncs(trace) == Syncs(old(trace)) + 1
    {
      rc, last := -1, st;
      var r, tlps := WaitRound();
      over := r != Again;
      if r == Failed {
        WriteLost(st, op);
      } else if r == Done {
        rc, last := WriteAnswer(op);
      }
    }

    /** Its wait loop. */
    method AwaitWrite(ghost op: Op) returns (rc: int, ghost last: State)
      requires Valid() && !op.IsRead() && st.vcs == VWait(op, 0) && EndsWith(Outstanding(st), op)
      modifies this, cache, cache.slots
      ensures Valid() && old(trace) <= trace && (rc == 0 ==> Later(old(st), last))
      ensures WriteOver(rc, last, op, faults > old(faults), Syncs(trace) == Syncs(old(trace)) + DMA_WAIT_ROUNDS)
    {
      last := st;
      var i := 0;
      while i < DMA_WAIT_ROUNDS
        invariant 0 <= i <= DMA_WAIT_ROUNDS
        invariant Valid() && old(trace) <= trace && st.vcs == VWait(op, i)
        invariant Syncs(trace) == Syncs(old(trace)) + i && faults == old(faults)
        invariant Later(old(st), st)
      {
        var over;
        over, rc, last := WriteRound(op, i);
        if over { return; }
        i := i + 1;
      }
      GiveUp();
      WriteLost(st, op);
      rc := -1;
    }

    /** One message of the drain loop: a TLP_READY is followed by its TLP. */
    method DrainOne()
      requires Valid() && st.vcs == VDrain && st.ctrl != [] && !st.link.broken
      modifies this`st, this`trace, cache, cache.slots
      ensures Valid() && old(trace) <= trace && st.vcs == VDrain
      ensures st.tlp.delivered == old(st).tlp.delivered && |st.ctrl| < |old(st).ctrl|
    {
      Act(Poll(DrainSync));
      if st.vcs == VDrainTlp {
        Known();
        ReceivesMatch(st);
        var kept := cache.Push(st.tlp.wire[0]);
        Act(Poll(DrainTlp));
      }
    }

    /** Phase 2 of a poll: cache what has arrived; a message sent may still be on its way.  The
        QEMU threads may run between the messages, though not so often that it never ends. */
    method Drain() returns (ok: bool)
      requires Valid() && st.vcs == VDrain
      modifies this, cache, cache.slots
      ensures Valid() && old(trace) <= trace && st.vcs == if ok then VDrain else VIdle
      ensures st.tlp.delivered == old(st).tlp.delivered && faults == if ok then old(faults) else old(faults) + 1
    {
      OthersRun();
      var bursts: nat, arrived: bool, fails: bool := *, *, *;
      while st.ctrl != [] && arrived && !st.link.broken
        invariant Valid() && old(trace) <= trace && st.vcs == VDrain && faults == old(faults)
        invariant st.tlp.delivered == old(st).tlp.delivered
        decreases bursts, |st.ctrl|
      {
        DrainOne();
        arrived := *;
        if bursts > 0 {
          OthersRun();
          bursts := bursts - 1;
        }
      }
      ok := !fails;
      if fails {
        Fail();
        Act(Poll(PollFails));
      }
    }

    /** Phase 4 of a poll: one wait, and the TLP it announces, bypassing the empty cache. */
    method TimedWait() returns (rc: int, tlp: Data)
      requires Valid() && st.vcs == VTimed
      modifies this
      ensures Valid() && old(trace) <= trace && st.vcs == VIdle && (rc == 0 || rc == 1 || rc == -1)
      ensures cache.contents == old(cache.contents) && faults == if rc == -1 then old(faults) + 1 else old(faults)
      ensures st.tlp.delivered == if rc == 0 then old(st).tlp.delivered + [tlp] else old(st).tlp.delivered
      ensures rc == 1 ==> trace != [] && trace[|trace| - 1] in {Poll(Timeout), Poll(TimedSync)}
    {
      rc, tlp := 1, DataTlp(0, 0);
      OthersRun();
      var arrived: bool, fails: bool := *, *;
      if fails {
        Fail();
        Act(Poll(PollFails));
        return -1, tlp;
      }
      if st.ctrl == [] || !arrived || st.link.broken {
        Act(Poll(Timeout));
        return;
      }
      Act(Poll(TimedSync));
      if st.vcs == VIdle { return; }
      tlp := TimedTake();
      rc := 0;
    }

    /** Its TLP. */
    method TimedTake() returns (tlp: Data)
      requires Valid() && st.vcs == VTimedTlp
      modifies this`st, this`trace
      ensures Valid() && old(trace) <= trace && st.vcs == VIdle
      ensures cache.contents == old(cache.contents) && st.tlp.delivered == old(st).tlp.delivered + [tlp]
    {
      OthersRun();
      Known();
      ReceivesMatch(st);
      tlp := st.tlp.wire[0];
      Act(Poll(TimedTlp));
    }

    /** Phases 1 and 3: hand out the oldest cached TLP, if there is one. */
    method FromCache(a: PollAct) returns (ok: bool, tlp: Data)
      requires Valid() && (a.PollStart? || a.DrainEnd?) && PollEnabled(st, a)
      modifies this`st, this`trace, cache
      ensures Valid() && old(trace) <= trace && ok == (old(cache.contents) != [])
      ensures ok ==> st.vcs == VIdle && st.tlp.delivered == old(st).tlp.delivered + [tlp]
      ensures ok ==> tlp == old(cache.contents)[0] && cache.contents == old(cache.contents)[1..]
      ensures !ok ==> st.vcs == (if a.PollStart? then VDrain else VTimed) && st.tlp.delivered == old(st).tlp.delivered
      ensures !ok ==> cache.contents == []
    {
      ok, tlp := cache.Pop();
      Act(Poll(a));
    }

    /** poll_tlp_ctx: cache first, then drain what has arrived into the cache, then one wait.
        0 hands out one TLP, from the cache if it held one; 1 hands out none, after the wait ended
        without a TLP, and leaves none in the cache; -1 after the connection failed. */
    method PollTlp() returns (rc: int, tlp: Data)
      requires Valid() && st.vcs == VIdle
      modifies this, cache, cache.slots
      ensures Valid() && old(trace) <= trace && st.vcs == VIdle && (rc == 0 || rc == 1 || rc == -1)
      ensures st.tlp.delivered == if rc == 0 then old(st).tlp.delivered + [tlp] else old(st).tlp.delivered
      ensures old(cache.contents) != [] ==>
        rc == 0 && tlp == old(cache.contents)[0] && cache.contents == old(cache.contents)[1..]
      ensures rc == 1 ==> cache.contents == [] && trace != [] && trace[|trace| - 1] in {Poll(Timeout), Poll(TimedSync)}
      ensures rc == -1 <==> faults > old(faults)
    {
      var ok: bool;
      ok, tlp := FromCache(PollStart);
      if ok { return 0, tlp; }
      ok := Drain();
      if !ok { return -1, tlp; }
      ok, tlp := FromCache(DrainEnd);
      if ok { return 0, tlp; }
      rc, tlp := TimedWait();
    }
  }

  /** No older write with this tag is unanswered. */
  ghost predicate NoneWithTag(s: State, op: Op) {
    forall o :: o in Outstanding(s) && !o.IsRead() ==> o.Tag() != op.Tag()
  }

  predicate EndsWith(out: seq<Op>, op: Op) { out != [] && out[|out| - 1] == op }

  lemma WriteLost(s: State, op: Op)
    requires s.vcs == VIdle && !op.IsRead() && EndsWith(Outstanding(s), op)
    ensures LostWrite(s)
  {
    var out := Outstanding(s);
    assert out[|out| - 1] == op;
  }

  lemma OlderLoses(s: State, op: Op, s': State)
    requires OlderAnswered(s, op, s') && !op.IsRead()
    ensures LostWrite(s')
  {
    ReachableInv(s);
    OlderOwes(s);
  }

  /** A completion with the tag of `op` came. */
  ghost predicate OwnAnswered(s: State, op: Op, s': State) {
    && Reachable(s) && DmaEnabled(s, RecvDownCpl) && s.vcs.op == op && Matches(s) && s' == DoDma(s, RecvDownCpl)
  }

  /** The call for `op` ended because the completion of an older write came first. */
  ghost predicate OlderAnswered(s: State, op: Op, s': State) {
    && Reachable(s) && DmaEnabled(s, RecvDownCpl) && s.vcs.op == op && s.down.wire[0].DownCpl?
    && s.down.wire[0].op.Tag() != op.Tag() && s' == DoDma(s, RecvDownCpl)
  }

  lemma ReadDone(s: State)
    requires Reachable(s) && DmaEnabled(s, RecvDownCpl) && s.vcs.op.IsRead() && Matches(s)
    requires s.count.rd <= 0x1_0000_0000
    ensures var op := s.vcs.op;
      && op.len <= READ_BUFFER && s.vcs.got != [] && s.vcs.got[0].DownData?
      && exists at :: op.since <= at <= |s.ram.log|
          && s.vcs.got[0].bytes == Load(Replay(s.ram.log[..at]), op.addr, op.len)
  {
    ReachableInv(s);
    DownHolds(s);
    NumbersHold(s);
    var out := Outstanding(s);
    assert out[|out| - 1] in out;
    ReadTagUnique(s, s.vcs.op);
    ReadLinearized(s);
  }

  /** What the call then copies, and the state it leaves. */
  lemma ReadOver(s: State, op: Op, len: nat, bs: seq<byte>)
    requires Reachable(s) && DmaEnabled(s, RecvDownCpl) && s.vcs.op == op && op.IsRead() && op.len == len && Matches(s)
    requires s.count.rd <= 0x1_0000_0000 && s.vcs.got != [] && s.vcs.got[0].DownData? && s.vcs.got[0].bytes == bs
    ensures len <= READ_BUFFER && |bs| == len && bs[..len] == bs && !LostWrite(DoDma(s, RecvDownCpl))
    ensures exists at :: op.since <= at <= |s.ram.log| && bs == Load(Replay(s.ram.log[..at]), op.addr, op.len)
  {
    ReadDone(s);
    NothingLost(s);
  }

  lemma WriteDone(start: State, s: State, op: Op, s': State)
    requires OwnAnswered(s, op, s') && !op.IsRead()
    requires Outstanding(s) == Outstanding(start) + [op] && NoneWithTag(start, op)
    ensures exists at :: op.since <= at < |s'.ram.log| && s'.ram.log[at] == MemEvent(op.addr, op.bytes)
  {
    WriteLinearized(s);
  }
}
