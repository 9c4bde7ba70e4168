/** A run in which one payload goes out twice, on a DMA port that recovers from a failed write: the
    write of its used entry fails, and the next call serves the same head again. */
module EndToEndRetry {
  import opened GuestMemory
  import opened VirtqueueChain
  import opened VirtqueueRing
  import opened Virtqueues
  import opened LinkModel
  import opened GuestSending
  import opened EndToEnd
  import opened EndToEndSteps
  import EthWire
  import Subsequences
  import Tx = VirtqueueTx
  import TxRuns = VirtqueueTxRuns

  // ---------- one failing call and the next one, from any state with one head waiting ----------

  ghost predicate OneWaits(g: Geometry, s: Tx.Tx, q: Queue, packet: nat -> seq<byte>, fits: nat -> bool) {
    TxRuns.Fair(g, s, q, packet, fits) && |q.posted| == |q.returned| + 1 && fits(q.posted[|q.returned|])
  }

  lemma HeadCan(g: Geometry, s: Tx.Tx, q: Queue, next: Tx.Tx -> Tx.Tx, can: Tx.Tx -> bool, packet: nat -> seq<byte>, fits: nat -> bool)
    requires OneWaits(g, s, q, packet, fits) && Tx.Serves(g, next, can)
    ensures can(s)
  {
    TxRuns.OneTurn(g, s, q, 0, next, can, packet, fits);
  }

  lemma FailsAtEntry(g: Geometry, s: Tx.Tx, next: Tx.Tx -> Tx.Tx, can: Tx.Tx -> bool, n: nat)
    requires can(s) && n == 1
    ensures Tx.Processed(g, next, can, n, s, s, 0, s.(offered := next(s).offered), -1, true, true)
  {
  }

  lemma ServesOne(g: Geometry, s: Tx.Tx, next: Tx.Tx -> Tx.Tx, can: Tx.Tx -> bool, n: nat)
    requires can(s) && n == 1
    ensures Tx.Processed(g, next, can, n, s, next(s), 1, Tx.Publish(g, next(s)), 1, false, false)
  {
    assert Tx.Turns(next, s, 0) == s && Tx.Turns(next, s, 1) == next(s);
    assert Tx.AllCan(next, can, s, 0) && Tx.AllCan(next, can, s, 1);
  }

  /** One head is waiting, and its chain fits. */
  ghost predicate Waits(a: Sender) {
    |a.q.posted| == |a.q.returned| + 1 && Accepted(ChainAt(a.g, a.s.mem, a.q.posted[|a.q.returned|]), a.s.limit)
  }

  lemma WaitingHead(a: Sender)
    requires Fine(a) && Waits(a)
    ensures a.g.size > 0 && a.s.at < WRAP && Tx.CanOf(a.g)(a.s)
    ensures Behind(a.s.at, Word(a.s.mem, AvailIdxAddr(a.g))) == 1
  {
    var packet, fits := FineIsFair(a);
    TxRuns.Available(a.g, a.s, a.q);
    TxRuns.ServesItself(a.g);
    HeadCan(a.g, a.s, a.q, Tx.NextOf(a.g), Tx.CanOf(a.g), packet, fits);
  }

  lemma CallFails(g: Geometry, s: Tx.Tx) returns (s': Tx.Tx)
    requires g.size > 0 && s.at < WRAP && Tx.CanOf(g)(s) && Behind(s.at, Word(s.mem, AvailIdxAddr(g))) == 1
    ensures Tx.ProcessedTx(g, s, s, 0, s', -1, true, true) && s'.mem == s.mem && s'.limit == s.limit
  {
    s' := s.(offered := Tx.NextOf(g)(s).offered);
    FailsAtEntry(g, s, Tx.NextOf(g), Tx.CanOf(g), Behind(s.at, Word(s.mem, AvailIdxAddr(g))));
  }

  lemma CallServes(g: Geometry, s: Tx.Tx) returns (last: Tx.Tx, s': Tx.Tx)
    requires g.size > 0 && s.at < WRAP && Tx.CanOf(g)(s) && Behind(s.at, Word(s.mem, AvailIdxAddr(g))) == 1
    ensures Tx.ProcessedTx(g, s, last, 1, s', 1, false, false)
  {
    last := Tx.NextOf(g)(s);
    s' := Tx.Publish(g, last);
    ServesOne(g, s, Tx.NextOf(g), Tx.CanOf(g), Behind(s.at, Word(s.mem, AvailIdxAddr(g))));
  }

  /** After the failing call the head still waits, its packet being out. */
  lemma StillWaits(a: Sender, a': Sender)
    requires Waits(a) && Transmits(a, a', 0, TxRuns.One(true)) && a'.s.mem == a.s.mem && a'.s.limit == a.s.limit
    ensures Waits(a') && Fine(a')
  {
  }

  /** The packet goes out, and the write of the used entry fails. */
  lemma FailingCall(a: Sender) returns (a': Sender)
    requires Fine(a) && Waits(a)
    ensures Called(a, a', -1, 0, true) && Fine(a') && Waits(a')
  {
    WaitingHead(a);
    var s' := CallFails(a.g, a.s);
    var extra;
    a', extra := CallTransmits(a, a.s, 0, s', -1, true, true);
    StillWaits(a, a');
  }

  /** The head is served. */
  lemma ServingCall(a: Sender) returns (a': Sender)
    requires Fine(a) && Waits(a)
    ensures Called(a, a', 1, 1, false)
  {
    WaitingHead(a);
    var last, s' := CallServes(a.g, a.s);
    var extra;
    a', extra := CallTransmits(a, last, 1, s', 1, false, false);
  }

  // ---------- a queue of size one ----------

  const SMALL: Geometry := Geometry(0, 16, 24, 1)

  /** Descriptor 0: 13 bytes at address 100, nothing follows.  Twelve header bytes, then a 7. */
  const PREPARED: Memory := map[0 := 100, 8 := 13, 112 := 7]

  lemma {:induction false} LeSmall(bs: seq<byte>)
    requires bs != [] && forall i :: 1 <= i < |bs| ==> bs[i] == 0
    ensures Le(bs) == bs[0]
  {
    LeZero(bs[1..]);
  }

  lemma PreparedChain()
    ensures ChainAt(SMALL, PREPARED, 0) == [Desc(100, 13, false, false, 0)]
    ensures Inside(TableAt(0, PREPARED), 0, MAX_CHAIN, 1)
  {
    var bs := Load(PREPARED, 0, 16);
    LeSmall(bs[..8]);
    LeSmall(bs[8..12]);
    LeZero(bs[12..14]);
    LeZero(bs[14..]);
    assert TableAt(0, PREPARED)(0) == Desc(100, 13, false, false, 0);
  }

  lemma PreparedPacket()
    ensures var ch := [Desc(100, 13, false, false, 0)]; Packet(PREPARED, ch) == [7] && Accepted(ch, 4096)
  {
    var d := Desc(100, 13, false, false, 0);
    GatheredGrows(PREPARED, [], d);
    assert [] + [d] == [d] && Gathered(PREPARED, []) == [];
    assert Gathered(PREPARED, [d]) == Load(PREPARED, 100, 13);
    FitsIsAccepted([d], 4096);
  }

  const HEADS: seq<nat> := [0]

  lemma PreparedIsGood()
    ensures Layout(SMALL) && TxRuns.AllSecluded(SMALL, PREPARED, HEADS, 0) && AllOffAvail(SMALL, PREPARED, HEADS, 0)
    ensures Described(SMALL, PREPARED, HEADS, [[7]], 0) && Accepted(ChainAt(SMALL, PREPARED, 0), 4096)
  {
    PreparedChain();
    PreparedPacket();
    assert TxRuns.Secluded(SMALL, PREPARED, 0);
  }

  /** The guest once it has made head 0, prepared in memory `m`, available. */
  function OnePosted(g: Geometry, m: Memory, payload: seq<byte>): Sender
    requires g.size > 0
  {
    Sender(g, Tx.Tx(Posted(g, m, 0, 0), 0, [], 4096), Queue(HEADS, [], 0, 0), [payload])
  }

  lemma PostedChain(g: Geometry, m: Memory)
    requires Layout(g) && TxRuns.Secluded(g, m, 0) && OffAvail(g, ChainAt(g, m, 0)) && Accepted(ChainAt(g, m, 0), 4096)
    ensures Accepted(ChainAt(g, Posted(g, m, 0, 0), 0), 4096)
  {
    var m' := Posted(g, m, 0, 0);
    PostFrame(g, m, 0, 0);
    forall x: nat | !InAvail(g, x) ensures At(m', x) == At(m, x) { }
    AvailWriteKeeps(g, m, m', 0);
  }

  lemma PostOne(g: Geometry, m: Memory, payload: seq<byte>) returns (a: Sender)
    requires Fine(FreshSender(g, 4096)) && Layout(g) && g.size > 0
    requires forall x: nat :: InAvail(g, x) || InUsed(g, x) ==> At(m, x) == 0
    requires TxRuns.AllSecluded(g, m, HEADS, 0) && AllOffAvail(g, m, HEADS, 0) && Described(g, m, HEADS, [payload], 0)
    requires Accepted(ChainAt(g, m, 0), 4096)
    ensures Fine(a) && Waits(a) && a.payloads == [payload] && a.q.returned == [] && a.s.offered == []
  {
    a := OnePosted(g, m, payload);
    assert TxRuns.Secluded(g, m, HEADS[0]) && OffAvail(g, ChainAt(g, m, HEADS[0]));
    PostedChain(g, m);
    PostIsFine(FreshSender(g, 4096), m, payload, a);
  }

  lemma PostIsFine(none: Sender, m: Memory, payload: seq<byte>, a: Sender)
    requires none == FreshSender(none.g, 4096) && Fine(none) && Layout(none.g) && a == OnePosted(none.g, m, payload)
    requires forall x: nat :: InAvail(none.g, x) || InUsed(none.g, x) ==> At(m, x) == 0
    requires TxRuns.AllSecluded(none.g, m, HEADS, 0) && AllOffAvail(none.g, m, HEADS, 0) && Described(none.g, m, HEADS, [payload], 0)
    ensures Fine(a)
  {
    assert none.q.posted + [0] == HEADS && none.payloads + [payload] == [payload];
    PreparedPosts(none, m, 0, payload);
  }

  /** What a call that sends the one packet changes. */
  ghost predicate SendsSeven(c: Config, s: System, s': System) {
    && s'.a.s.offered == s.a.s.offered + [[7]] && s'.source == s.source + [0]
    && s'.wire == SendAll(c, s.wire, [[7]]) && s'.refused == s.refused + Unsent(c, s.wire, [[7]])
  }

  lemma OneMoved(c: Config, s: System, a': Sender, k: nat, extra: nat)
    requires s.a.payloads == a'.payloads == [[7]] && s.a.q.returned == [] && k + extra == 1 && a'.s.offered == s.a.s.offered + News(s.a, 1)
    ensures SendsSeven(c, s, AfterTx(c, s, a', k, extra))
  {
    OneSeven();
  }

  lemma FirstCall(c: Config, s: System) returns (s': System)
    requires Fine(s.a) && Waits(s.a) && s.a.payloads == [[7]] && s.a.q.returned == [] && !s.ahead && s.retries == 0
    ensures Goes(c, s, TxCall(-1, 0, true), s') && Fine(s'.a) && Waits(s'.a) && s'.a.payloads == [[7]] && s'.a.q.returned == []
    ensures SendsSeven(c, s, s') && s'.ahead && s'.retries == 0
  {
    var a := FailingCall(s.a);
    s' := CallIsStep(c, s, a, -1, 0, true);
    OneMoved(c, s, a, 0, 1);
  }

  lemma SecondCall(c: Config, s: System) returns (s': System)
    requires Fine(s.a) && Waits(s.a) && s.a.payloads == [[7]] && s.a.q.returned == [] && s.ahead && s.retries == 0
    ensures Goes(c, s, TxCall(1, 1, false), s') && SendsSeven(c, s, s') && s'.retries == 1
  {
    var a := ServingCall(s.a);
    s' := CallIsStep(c, s, a, 1, 1, false);
    OneMoved(c, s, a, 1, 0);
  }

  lemma OneSeven()
    ensures NonEmpty([[7]][0..1]) == [[7]] && Origins([[7]], 0, 1) == [0]
  {
    NonEmptyGrows([], [7]);
    assert [] + [[7]] == [[7]] == [[7]][0..1];
  }

  lemma RingsEmpty()
    ensures forall x: nat :: InAvail(SMALL, x) || InUsed(SMALL, x) ==> At(PREPARED, x) == 0
  {
  }

  lemma PostSeven() returns (a: Sender)
    requires Fine(FreshSender(SMALL, 4096))
    ensures Fine(a) && Waits(a) && a.payloads == [[7]] && a.q.returned == [] && a.s.offered == []
  {
    PreparedIsGood();
    RingsEmpty();
    a := PostOne(SMALL, PREPARED, [7]);
  }

  lemma PostedStart(c: Config, dice: Dice) returns (s0: System, s1: System)
    requires dice.burst == 0
    ensures Start(s0) && Goes(c, s0, Post, s1) && Fine(s1.a) && Waits(s1.a) && s1.a.payloads == [[7]] && s1.a.q.returned == []
    ensures s1.a.s.offered == [] && s1.source == [] && !s1.ahead && s1.retries == 0 && s1.refused == 0
    ensures s1.wire == EthWire.Fresh(dice)
  {
    assert Layout(SMALL);
    s0 := FreshStart(SMALL, SMALL, 4096, dice);
    var a := PostSeven();
    s1 := s0.(a := a);
    PostGoes(c, s0, s1);
  }

  lemma BothTaken(c: Config, w: EthWire.Wire, w': EthWire.Wire)
    requires c.dropRatePpm == 0 && c.fcWindow == 0 && w.dice.burst == 0 && w.ring == [] && w' == SendAll(c, w, [[7]])
    ensures Unsent(c, w, [[7]]) == 0 && Unsent(c, w', [[7]]) == 0
    ensures SendAll(c, w', [[7]]).taken == w.taken
  {
    LinkTakesAll(c, w, [[7]]);
    LinkTakesAll(c, w', [[7]]);
    SendAllAdds(c, w, [[7]]);
    SendAllAdds(c, w', [[7]]);
  }

  lemma TakenIsOffered(c: Config, run: seq<System>, steps: seq<Step>)
    requires IsRun(c, run, steps)
    ensures var s := run[|run| - 1]; s.refused == 0 && s.wire.taken == [] ==> EthWire.Payloads(s.wire.ring) == s.a.s.offered
  {
    RunInv(c, run, steps);
    var s := run[|run| - 1];
    if s.refused == 0 && s.wire.taken == [] {
      assert EthWire.Accepted(s.wire) == s.wire.ring;
      Subsequences.FullLength(EthWire.Payloads(s.wire.ring), s.a.s.offered);
    }
  }

  lemma Longer(c: Config, run: seq<System>, steps: seq<Step>, e: Step, s: System, s': System)
    requires IsRun(c, run, steps) && s == run[|run| - 1] && Goes(c, s, e, s')
    ensures IsRun(c, run + [s'], steps + [e])
  {
    var longer, all := run + [s'], steps + [e];
    forall i | 0 <= i < |all| ensures Goes(c, longer[i], all[i], longer[i + 1]) {
      if i < |steps| { assert longer[i] == run[i] && longer[i + 1] == run[i + 1] && all[i] == steps[i]; }
    }
  }

  lemma RunOf(c: Config, s0: System, s1: System, s2: System, s3: System, e1: Step, e2: Step, e3: Step)
    returns (run: seq<System>, steps: seq<Step>)
    requires Start(s0) && Goes(c, s0, e1, s1) && Goes(c, s1, e2, s2) && Goes(c, s2, e3, s3)
    ensures IsRun(c, run, steps) && run[|run| - 1] == s3 && steps == [e1, e2, e3]
    ensures s3.refused == 0 && s3.wire.taken == [] ==> EthWire.Payloads(s3.wire.ring) == s3.a.s.offered
  {
    run, steps := [s0, s1, s2, s3], [e1, e2, e3];
    Longer(c, [s0], [], e1, s0, s1);
    assert [s0] + [s1] == [s0, s1] && [] + [e1] == [e1];
    Longer(c, [s0, s1], [e1], e2, s1, s2);
    assert [s0, s1] + [s2] == [s0, s1, s2] && [e1] + [e2] == [e1, e2];
    Longer(c, [s0, s1, s2], [e1, e2], e3, s2, s3);
    assert [s0, s1, s2] + [s3] == [s0, s1, s2, s3] && [e1, e2] + [e3] == [e1, e2, e3];
    TakenIsOffered(c, run, steps);
  }

  lemma FailThenServe(c: Config, s: System) returns (s': System, s'': System)
    requires c.dropRatePpm == 0 && c.fcWindow == 0 && s.wire.dice.burst == 0 && s.wire.ring == [] && s.wire.taken == [] && s.refused == 0
    requires Fine(s.a) && Waits(s.a) && s.a.payloads == [[7]] && s.a.q.returned == [] && !s.ahead && s.retries == 0
    ensures Goes(c, s, TxCall(-1, 0, true), s') && Goes(c, s', TxCall(1, 1, false), s'')
    ensures s''.a.s.offered == s.a.s.offered + [[7]] + [[7]] && s''.source == s.source + [0] + [0] && s''.retries == 1
    ensures s''.refused == 0 && s''.wire.taken == []
  {
    s' := FirstCall(c, s);
    BothTaken(c, s.wire, s'.wire);
    s'' := SecondCall(c, s');
  }

  /** Over a link that drops nothing the same payload is in the ring twice: if reads succeed again
      after a failed write, packets are repeated although the driver follows every rule. */
  lemma RetryHappens(c: Config, dice: Dice) returns (run: seq<System>, steps: seq<Step>)
    requires c.dropRatePpm == 0 && c.fcWindow == 0 && dice.burst == 0
    ensures IsRun(c, run, steps) && steps == [Post, TxCall(-1, 0, true), TxCall(1, 1, false)]
    ensures var s := run[|run| - 1];
      && s.retries == 1 && s.source == [0, 0] && s.a.s.offered == [[7], [7]] && EthWire.Payloads(s.wire.ring) == [[7], [7]]
  {
    var s0, s1 := PostedStart(c, dice);
    var s2, s3 := FailThenServe(c, s1);
    run, steps := RunOf(c, s0, s1, s2, s3, Post, TxCall(-1, 0, true), TxCall(1, 1, false));
  }
}
