/** What every run of the two guests guarantees: which payloads arrive, where they end up, when
    one arrives twice and when none is missing. */
module EndToEndTheorems {
  import opened GuestMemory
  import VirtqueueChain
  import opened Subsequences
  import opened LinkModel
  import opened GuestSending
  import opened EndToEnd
  import opened VirtqueueScatter
  import EthWire
  import VirtqueueRing
  import Virtqueues
  import Tx = VirtqueueTx
  import TxRuns = VirtqueueTxRuns
  import Rx = VirtqueueRx

  function Last(run: seq<System>): System
    requires run != []
  {
    run[|run| - 1]
  }

  lemma GotIsOffered(s: System)
    requires Inv(s)
    ensures IsSubseq(s.b.r.got, s.a.s.offered)
  {
    var taken, accepted := EthWire.Payloads(s.wire.taken), EthWire.Payloads(EthWire.Accepted(s.wire));
    assert taken <= accepted;
    Prefix(taken, accepted, s.a.s.offered);
    Transitive(s.b.r.got, taken, s.a.s.offered);
  }

  // ---------- what arrives, and where ----------

  /** Every frame delivered is a payload guest A posted, in the order of posting, and it is the
      frame the buffers of the chain it went back with still hold, until guest B consumes it. */
  ghost predicate InBuffers(b: Receiver, payloads: seq<seq<byte>>, origin: seq<nat>) {
    && |origin| == |b.r.got| == |b.r.q.returned| <= |b.r.chains|
    && (forall i :: 0 <= i < |origin| ==> origin[i] < |payloads| && b.r.got[i] == payloads[origin[i]])
    && forall i {:trigger b.r.chains[i]} :: b.r.q.consumed <= i < |origin| ==>
         && Rx.Holds(b.mem, b.r.chains[i], payloads[origin[i]], b.r.q.returned[i].len)
         && Rx.FrameAt(b.mem, b.r.chains[i], payloads[origin[i]], b.r.q.returned[i].len)
  }

  lemma BuffersHold(b: Receiver, payloads: seq<seq<byte>>, origin: seq<nat>)
    requires Sound(b) && |origin| == |b.r.got|
    requires forall i :: 0 <= i < |origin| ==> origin[i] < |payloads| && b.r.got[i] == payloads[origin[i]]
    ensures InBuffers(b, payloads, origin)
  {
    assert Rx.RxInv(b.g, b.mem, b.r);
    forall i | b.r.q.consumed <= i < |origin|
      ensures Rx.Holds(b.mem, b.r.chains[i], payloads[origin[i]], b.r.q.returned[i].len)
      ensures Rx.FrameAt(b.mem, b.r.chains[i], payloads[origin[i]], b.r.q.returned[i].len)
    {
      assert Rx.Holds(b.mem, b.r.chains[i], b.r.got[i], b.r.q.returned[i].len);
      Rx.FrameInBuffers(b.mem, b.r.chains[i], b.r.got[i], b.r.q.returned[i].len);
    }
  }

  /** In every run, whatever fails, is dropped, refused or retried: what arrives are payloads of
      guest A, in order, and they are in guest B's buffers. */
  lemma Delivered(c: Config, run: seq<System>, steps: seq<Step>) returns (origin: seq<nat>)
    requires IsRun(c, run, steps)
    ensures InBuffers(Last(run).b, Last(run).a.payloads, origin)
    ensures forall i, j :: 0 <= i < j < |origin| ==> origin[i] <= origin[j]
    ensures Last(run).retries == 0 ==> StrictlyRising(origin)
  {
    RunInv(c, run, steps);
    var s := Last(run);
    GotIsOffered(s);
    var at := Positions(s.b.r.got, s.a.s.offered);
    origin := seq(|at|, i requires 0 <= i < |at| => if at[i] < |s.source| then s.source[at[i]] else 0);
    BuffersHold(s.b, s.a.payloads, origin);
  }

  // ---------- frames on the link ----------

  /** Frames as vcs_eth_mac_recv_raw hands them over in full: as long as their length field says,
      and no longer than its buffer. */
  ghost predicate WholeFrames(w: EthWire.Wire) {
    forall f :: f in EthWire.Accepted(w) ==> f.len == |f.data| <= 9216
  }

  lemma SendWhole(c: Config, w: EthWire.Wire, p: seq<byte>)
    requires WholeFrames(w) && |p| <= 9216
    ensures WholeFrames(EthWire.Send(c, w, FrameOf(p), 0).1)
  {
  }

  lemma {:induction false} SendAllWhole(c: Config, w: EthWire.Wire, ps: seq<seq<byte>>)
    requires WholeFrames(w) && forall p :: p in ps ==> |p| <= 9216
    ensures WholeFrames(SendAll(c, w, ps))
  {
    if ps != [] {
      var front, p := ps[..|ps| - 1], ps[|ps| - 1];
      SendAllWhole(c, w, front);
      assert p in ps;
      SendWhole(c, SendAll(c, w, front), p);
    }
  }

  lemma NewsFit(a: Sender, n: nat)
    requires Fine(a) && |a.q.returned| + n <= |a.payloads|
    ensures forall p :: p in News(a, n) ==> |p| <= 9216
  {
    var r := |a.q.returned|;
    var ps := a.payloads[r..r + n];
    NonEmptyMeans(ps);
    assert SenderOk(a);
    forall i | r <= i < r + n ensures |a.payloads[i]| <= 9216 {
      assert VirtqueueChain.Packet(a.s.mem, Virtqueues.ChainAt(a.g, a.s.mem, a.q.posted[i])) == a.payloads[i];
    }
    forall p | p in News(a, n) ensures |p| <= 9216 {
      assert multiset(News(a, n))[p] > 0 && p in multiset(ps);
    }
  }

  /** Of a step only what it does to the link. */
  lemma TxWire(c: Config, s: System, s': System, rc: int, k: nat, entryFailed: bool) returns (n: nat)
    requires TxStep(c, s, s', rc, k, entryFailed)
    ensures |s.a.q.returned| + n <= |s.a.payloads| && s'.wire == SendAll(c, s.wire, News(s.a, n))
  {
    n := k + TxRuns.One(entryFailed);
  }

  lemma StepWire(c: Config, s: System, e: Step, s': System) returns (n: nat)
    requires Goes(c, s, e, s')
    ensures e.TxCall? ==> |s.a.q.returned| + n <= |s.a.payloads| && s'.wire == SendAll(c, s.wire, News(s.a, n))
    ensures e.RxCall? ==> n <= |s.wire.ring| && s'.wire == TakeN(c, s.wire, n)
    ensures !e.TxCall? && !e.RxCall? ==> s'.wire == s.wire || s'.wire == EthWire.Do(c, s.wire, EthWire.Complete)
  {
    n := 0;
    assert Next(c, s, e, s');
    match e
    case TxCall(rc, k, entryFailed) => n := TxWire(c, s, s', rc, k, entryFailed);
    case RxCall(injected, faulty) => n :| RxStep(c, s, s', injected, faulty, n);
    case _ =>
  }

  lemma TxWhole(c: Config, a: Sender, w: EthWire.Wire, n: nat)
    requires Fine(a) && WholeFrames(w) && |a.q.returned| + n <= |a.payloads|
    ensures WholeFrames(SendAll(c, w, News(a, n)))
  {
    NewsFit(a, n);
    SendAllWhole(c, w, News(a, n));
  }

  lemma StepWhole(c: Config, s: System, e: Step, s': System)
    requires Fine(s.a) && WholeFrames(s.wire) && Goes(c, s, e, s')
    ensures WholeFrames(s'.wire)
  {
    var n := StepWire(c, s, e, s');
    if e.TxCall? {
      TxWhole(c, s.a, s.wire, n);
    } else if e.RxCall? {
      TakeNMoves(c, s.wire, n);
    }
  }

  /** In every run the frames on the link are received in full. */
  lemma {:induction false} FramesWhole(c: Config, run: seq<System>, steps: seq<Step>)
    requires IsRun(c, run, steps)
    ensures WholeFrames(Last(run).wire)
    decreases |run|
  {
    if |run| > 1 {
      var n := |steps| - 1;
      FramesWhole(c, run[..n + 1], steps[..n]);
      RunInv(c, run[..n + 1], steps[..n]);
      StepWhole(c, run[n], steps[n], run[n + 1]);
    }
  }

  // ---------- once ----------

  lemma FirstPackets(ps: seq<seq<byte>>, k: nat)
    requires k <= |ps|
    ensures NonEmpty(ps[..k]) <= NonEmpty(ps)
  {
    Halves(ps, k);
    PacketsOf(ps[..k], ps[k..], ps);
  }

  lemma Halves(ps: seq<seq<byte>>, k: nat)
    requires k <= |ps|
    ensures ps == ps[..k] + ps[k..]
  {
  }

  lemma PacketsOf(a: seq<seq<byte>>, b: seq<seq<byte>>, ps: seq<seq<byte>>)
    requires ps == a + b
    ensures NonEmpty(a) <= NonEmpty(ps)
  {
    NonEmptyAppend(a, b);
    var x, y := NonEmpty(a), NonEmpty(b);
    assert NonEmpty(ps) == x + y;
    assert x <= x + y;
  }

  lemma WholeIsPrefix(ps: seq<seq<byte>>, r: nat, offered: seq<seq<byte>>, ahead: bool)
    requires r <= |ps| && Whole(ps, r, offered, ahead)
    ensures offered <= NonEmpty(ps) && (r == |ps| ==> offered == NonEmpty(ps))
  {
    if ahead {
      FirstPackets(ps, r + 1);
    } else {
      FirstPackets(ps, r);
      if r == |ps| { assert ps[..r] == ps; }
    }
  }

  /** The packets handed over are payloads in strictly rising order exactly when no head was
      served whose packet was out already; then no payload arrives twice. */
  lemma DeliveredOnce(c: Config, run: seq<System>, steps: seq<Step>)
    requires IsRun(c, run, steps)
    ensures var s := Last(run);
      && Traced(s.a.s.offered, s.source, s.a.payloads)
      && (StrictlyRising(s.source) <==> s.retries == 0)
      && (s.retries == 0 ==> IsSubseq(s.b.r.got, NonEmpty(s.a.payloads)))
  {
    RunInv(c, run, steps);
    var s := Last(run);
    if s.retries == 0 {
      GotIsOffered(s);
      WholeIsPrefix(s.a.payloads, |s.a.q.returned|, s.a.s.offered, s.ahead);
      Reflexive(NonEmpty(s.a.payloads));
      Prefix(s.a.s.offered, NonEmpty(s.a.payloads), NonEmpty(s.a.payloads));
      Transitive(s.b.r.got, s.a.s.offered, NonEmpty(s.a.payloads));
    }
  }

  /** A packet is out ahead of its head only after the write of a used entry failed. */
  lemma {:induction false} OnlyAfterFailedEntry(c: Config, run: seq<System>, steps: seq<Step>)
    requires IsRun(c, run, steps)
    requires forall i {:trigger steps[i]} :: 0 <= i < |steps| && steps[i].TxCall? ==> !steps[i].entryFailed
    ensures !Last(run).ahead && Last(run).retries == 0
    decreases |run|
  {
    if |run| > 1 {
      var n := |steps| - 1;
      OnlyAfterFailedEntry(c, run[..n + 1], steps[..n]);
      NoneAhead(c, run[n], steps[n], run[n + 1]);
    }
  }

  lemma NoneAhead(c: Config, s: System, e: Step, s': System)
    requires Goes(c, s, e, s') && (e.TxCall? ==> !e.entryFailed) && !s.ahead && s.retries == 0
    ensures !s'.ahead && s'.retries == 0
  {
    assert Next(c, s, e, s');
  }

  /** A step on a DMA port that does not recover: a failed write of a used entry is a failed write,
      and after one every transmit call does nothing and fails. */
  ghost predicate Bars(was: bool, e: Step, now: bool) {
    && (was ==> now)
    && (e.TxCall? ==> (e.entryFailed ==> now) && (was ==> e.rc == -1 && e.served == 0 && !e.entryFailed))
  }

  /** This is what the calls on such a port do. */
  lemma CallBars(n: nat, was: bool, s: Tx.Tx, rc: int, served: nat, s': Tx.Tx, entryFailed: bool, now: bool)
    requires Tx.Barred(false, n, was, s, rc, served, s', entryFailed, now)
    ensures Bars(was, TxCall(rc, served, entryFailed), now)
  {
  }

  /** `lost` tells after which steps a write has failed. */
  ghost predicate OnBarringPort(steps: seq<Step>, lost: seq<bool>) {
    |lost| == |steps| + 1 && forall i :: 0 <= i < |steps| ==> Bars(lost[i], steps[i], lost[i + 1])
  }

  lemma BarredStep(c: Config, s: System, e: Step, s': System, was: bool, now: bool)
    requires Goes(c, s, e, s') && Bars(was, e, now) && s.retries == 0 && (s.ahead ==> was)
    ensures s'.retries == 0 && (s'.ahead ==> now)
  {
    assert Next(c, s, e, s');
  }

  lemma {:induction false} NeverAgain(c: Config, run: seq<System>, steps: seq<Step>, lost: seq<bool>)
    requires IsRun(c, run, steps) && OnBarringPort(steps, lost)
    ensures Last(run).retries == 0 && (Last(run).ahead ==> lost[|lost| - 1])
    decreases |run|
  {
    if |run| > 1 {
      var n := |steps| - 1;
      NeverAgain(c, run[..n + 1], steps[..n], lost[..n + 1]);
      BarredStep(c, run[n], steps[n], run[n + 1], lost[n], lost[n + 1]);
    }
  }

  /** On a DMA port that does not recover from a failed write, no packet is handed over twice and no
      payload arrives twice, whatever else fails. */
  lemma NeverTwice(c: Config, run: seq<System>, steps: seq<Step>, lost: seq<bool>)
    requires IsRun(c, run, steps) && OnBarringPort(steps, lost)
    ensures StrictlyRising(Last(run).source) && IsSubseq(Last(run).b.r.got, NonEmpty(Last(run).a.payloads))
  {
    NeverAgain(c, run, steps, lost);
    DeliveredOnce(c, run, steps);
  }

  // ---------- nothing missing ----------

  /** The packets of the heads that wait when a transmit call starts. */
  function WaitingPackets(a: Sender): seq<seq<byte>> {
    if |a.q.returned| <= |a.payloads| then NonEmpty(a.payloads[|a.q.returned|..]) else []
  }

  ghost predicate Buffered(r: Rx.Rx) {
    |r.q.returned| <= |r.chains| && forall ch :: ch in r.chains[|r.q.returned|..] ==> Rx.NoEmptyBuffer(ch)
  }

  /** Nothing goes wrong in a step: a transmit call succeeds, and ring and window have room for
      the packets that wait when it starts; no DMA call of a receive call fails, and no posted
      buffer is empty. */
  ghost predicate Healthy(c: Config, s: System, e: Step) {
    match e
    case TxCall(rc, _, _) => rc >= 0 && LinkTakes(c, s.wire, |WaitingPackets(s.a)|)
    case RxCall(_, faulty) => !faulty && Buffered(s.b.r)
    case _ => true
  }

  ghost predicate HealthyRun(c: Config, run: seq<System>, steps: seq<Step>) {
    && c.dropRatePpm == 0 && c.fcWindow < U32
    && IsRun(c, run, steps) && forall i :: 0 <= i < |steps| ==> Healthy(c, run[i], steps[i])
  }

  predicate NothingLost(s: System) {
    !s.ahead && s.retries == 0 && s.refused == 0 && s.lost == 0 && s.wire.dice.burst == 0
  }

  lemma ServedWaited(a: Sender, k: nat)
    requires |a.q.returned| + k <= |a.payloads|
    ensures |News(a, k)| <= |WaitingPackets(a)|
  {
    var r, ps := |a.q.returned|, a.payloads;
    NonEmptyAppend(ps[r..r + k], ps[r + k..]);
    assert ps[r..] == ps[r..r + k] + ps[r + k..];
  }

  lemma LinkTakesServed(c: Config, w: EthWire.Wire, a: Sender, k: nat)
    requires c.dropRatePpm == 0 && c.fcWindow < U32 && w.dice.burst == 0
    requires |a.q.returned| + k <= |a.payloads| && LinkTakes(c, w, |WaitingPackets(a)|)
    ensures Unsent(c, w, News(a, k)) == 0 && SendAll(c, w, News(a, k)).dice == w.dice
  {
    var ps := News(a, k);
    ServedWaited(a, k);
    LinkTakesAll(c, w, ps);
  }

  lemma NoEntryFailed(a: Sender, a': Sender, rc: int, k: nat, entryFailed: bool)
    requires Processes(a, a', rc, k, entryFailed) && rc >= 0
    ensures !entryFailed
  {
  }

  lemma MovesOn(c: Config, s: System, s': System, k: nat)
    requires c.dropRatePpm == 0 && c.fcWindow < U32 && NothingLost(s) && LinkTakes(c, s.wire, |WaitingPackets(s.a)|)
    requires Moved(s, s', k, 0) && s'.wire == SendAll(c, s.wire, News(s.a, k))
    requires s'.refused == s.refused + Unsent(c, s.wire, News(s.a, k)) && s'.lost == s.lost
    ensures NothingLost(s')
  {
    LinkTakesServed(c, s.wire, s.a, k);
  }

  lemma TxLosesNothing(c: Config, s: System, s': System, rc: int, k: nat, entryFailed: bool)
    requires c.dropRatePpm == 0 && c.fcWindow < U32 && NothingLost(s)
    requires TxStep(c, s, s', rc, k, entryFailed) && rc >= 0 && LinkTakes(c, s.wire, |WaitingPackets(s.a)|)
    ensures NothingLost(s')
  {
    NoEntryFailed(s.a, s'.a, rc, k, entryFailed);
    MovesOn(c, s, s', k);
  }

  lemma {:induction false} Members(a: seq<seq<byte>>, b: seq<seq<byte>>)
    requires IsSubseq(a, b)
    ensures forall p :: p in a ==> p in b
    decreases |b|
  {
    if a != [] {
      assert forall p :: p in a ==> p == a[0] || p in a[1..];
      if a[0] == b[0] && IsSubseq(a[1..], b[1..]) { Members(a[1..], b[1..]); } else { Members(a, b[1..]); }
    }
  }

  lemma NoEmptyFrames(s: System)
    requires Inv(s)
    ensures forall p :: p in EthWire.Payloads(s.wire.ring) ==> p != []
  {
    var all := EthWire.Accepted(s.wire);
    assert Packets(s.a.s.offered);
    Members(EthWire.Payloads(all), s.a.s.offered);
    forall p | p in EthWire.Payloads(s.wire.ring) ensures p in EthWire.Payloads(all) {
      var i :| 0 <= i < |s.wire.ring| && EthWire.Payloads(s.wire.ring)[i] == p;
      assert EthWire.Payloads(all)[|s.wire.taken| + i] == p;
    }
  }

  lemma RxLosesNothing(c: Config, s: System, s': System, injected: nat, n: nat)
    requires Inv(s) && NothingLost(s) && RxStep(c, s, s', injected, false, n) && Buffered(s.b.r)
    ensures NothingLost(s')
  {
    var pending := EthWire.Payloads(s.wire.ring);
    NoEmptyFrames(s);
    Rx.AllDelivered(s.b.r, pending, injected, s'.b.r, pending[n..]);
    assert |pending[n..]| == |pending[injected..]|;
    TakeNDice(c, s.wire, n);
  }

  /** The invariant, with nothing lost so far; taken apart only where Inv is mentioned. */
  ghost predicate Sane(s: System) {
    forall x {:trigger Inv(x)} :: x == s ==> Inv(x) && NothingLost(x)
  }

  lemma HealthyKeeps(c: Config, s: System, e: Step, s': System)
    requires c.dropRatePpm == 0 && c.fcWindow < U32 && Sane(s) && Goes(c, s, e, s') && Healthy(c, s, e)
    ensures Sane(s')
  {
    assert Inv(s) && Next(c, s, e, s');
    NextInv(c, s, e, s');
    match e
    case TxCall(rc, k, entryFailed) => TxLosesNothing(c, s, s', rc, k, entryFailed);
    case RxCall(injected, faulty) =>
      var n :| RxStep(c, s, s', injected, faulty, n);
      RxLosesNothing(c, s, s', injected, n);
    case _ =>
  }

  lemma {:induction false} HealthyLosesNothing(c: Config, run: seq<System>, steps: seq<Step>)
    requires HealthyRun(c, run, steps)
    ensures Sane(Last(run))
    decreases |run|
  {
    if |run| == 1 {
      StartInv(run[0]);
    } else {
      var n := |steps| - 1;
      HealthyLosesNothing(c, run[..n + 1], steps[..n]);
      assert Goes(c, run[n], steps[n], run[n + 1]) && Healthy(c, run[n], steps[n]);
      HealthyKeeps(c, run[n], steps[n], run[n + 1]);
    }
  }

  /** Where no frame is dropped at random, every transmit call succeeds and finds room in ring and
      window, no DMA call of a receive call fails and no posted buffer is empty, guest B has
      exactly the first payloads guest A posted, each once and none skipped; all of them once
      every head is back and the ring is empty. */
  lemma DeliveredAll(c: Config, run: seq<System>, steps: seq<Step>)
    requires HealthyRun(c, run, steps)
    ensures var s := Last(run);
      && s.b.r.got <= NonEmpty(s.a.payloads)
      && (s.wire.ring == [] && |s.a.q.returned| == |s.a.payloads| ==> s.b.r.got == NonEmpty(s.a.payloads))
  {
    HealthyLosesNothing(c, run, steps);
    var s := Last(run);
    assert Inv(s);
    var taken, accepted := EthWire.Payloads(s.wire.taken), EthWire.Payloads(EthWire.Accepted(s.wire));
    FullLength(accepted, s.a.s.offered);
    FullLength(s.b.r.got, taken);
    assert taken <= accepted;
    WholeIsPrefix(s.a.payloads, |s.a.q.returned|, s.a.s.offered, s.ahead);
  }
}
