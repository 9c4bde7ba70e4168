/** The calls of both devices are steps of the whole system: whatever one call of
    vcs_vq_process_tx or vcs_vq_process_rx does, by the contracts of the methods, the system can do. */
module EndToEndSteps {
  import opened GuestMemory
  import opened LinkModel
  import opened GuestSending
  import opened EndToEnd
  import EthWire
  import VirtqueueRing
  import Tx = VirtqueueTx
  import TxRuns = VirtqueueTxRuns
  import Rx = VirtqueueRx

  /** A call took place, taken apart only where Processes is mentioned. */
  ghost predicate Called(a: Sender, a': Sender, rc: int, k: nat, entryFailed: bool) {
    forall x {:trigger Processes(x, a', rc, k, entryFailed)} :: x == a ==>
      Processes(x, a', rc, k, entryFailed) && Transmits(x, a', k, TxRuns.One(entryFailed))
  }

  function AfterTx(c: Config, s: System, a': Sender, k: nat, extra: nat): System
    requires |s.a.q.returned| + k + extra <= |s.a.payloads|
  {
    var r, ps := |s.a.q.returned|, s.a.payloads;
    System(a', SendAll(c, s.wire, News(s.a, k + extra)), s.b, s.source + Origins(ps, r, r + k + extra),
           AheadAfter(ps, r, k, extra, s.ahead), s.retries + Again(k, extra, s.ahead),
           s.refused + Unsent(c, s.wire, News(s.a, k + extra)), s.lost)
  }

  lemma MovesTo(c: Config, s: System, a': Sender, k: nat, extra: nat)
    requires extra <= 1 && |s.a.q.returned| + k + extra <= |s.a.payloads| && a'.payloads == s.a.payloads
    requires |a'.q.returned| == |s.a.q.returned| + k && a'.s.offered == s.a.s.offered + News(s.a, k + extra)
    ensures Moved(s, AfterTx(c, s, a', k, extra), k, extra)
  {
  }

  lemma CalledMeans(a: Sender, a': Sender, rc: int, k: nat, entryFailed: bool)
    requires Called(a, a', rc, k, entryFailed)
    ensures |a.q.returned| + k + TxRuns.One(entryFailed) <= |a.payloads| && a'.payloads == a.payloads
    ensures |a'.q.returned| == |a.q.returned| + k && a'.s.offered == a.s.offered + News(a, k + TxRuns.One(entryFailed))
  {
    assert Processes(a, a', rc, k, entryFailed);
  }

  lemma Takes(c: Config, s: System, s': System, rc: int, k: nat, entryFailed: bool)
    requires Called(s.a, s'.a, rc, k, entryFailed)
    requires |s.a.q.returned| + k + TxRuns.One(entryFailed) <= |s.a.payloads| && s' == AfterTx(c, s, s'.a, k, TxRuns.One(entryFailed))
    requires Moved(s, s', k, TxRuns.One(entryFailed))
    ensures TxStep(c, s, s', rc, k, entryFailed)
  {
    assert Processes(s.a, s'.a, rc, k, entryFailed);
  }

  lemma TxGoes(c: Config, s: System, s': System, rc: int, k: nat, entryFailed: bool)
    requires TxStep(c, s, s', rc, k, entryFailed)
    ensures Goes(c, s, TxCall(rc, k, entryFailed), s')
  {
  }

  lemma PostGoes(c: Config, s: System, s': System)
    requires s' == s.(a := s'.a) && Fine(s'.a) && s.a.payloads <= s'.a.payloads
    requires s'.a.s.offered == s.a.s.offered && s'.a.q.returned == s.a.q.returned
    ensures Goes(c, s, Post, s')
  {
  }

  lemma CallIsStep(c: Config, s: System, a': Sender, rc: int, k: nat, entryFailed: bool) returns (s': System)
    requires Called(s.a, a', rc, k, entryFailed)
    ensures Goes(c, s, TxCall(rc, k, entryFailed), s')
    ensures |s.a.q.returned| + k + TxRuns.One(entryFailed) <= |s.a.payloads| && s' == AfterTx(c, s, a', k, TxRuns.One(entryFailed))
    ensures a'.payloads == s.a.payloads && |a'.q.returned| == |s.a.q.returned| + k && a'.s.offered == s.a.s.offered + News(s.a, k + TxRuns.One(entryFailed))
  {
    CalledMeans(s.a, a', rc, k, entryFailed);
    MovesTo(c, s, a', k, TxRuns.One(entryFailed));
    s' := AfterTx(c, s, a', k, TxRuns.One(entryFailed));
    assert s'.a == a';
    Takes(c, s, s', rc, k, entryFailed);
    TxGoes(c, s, s', rc, k, entryFailed);
  }

  lemma IsCalled(a: Sender, last: Tx.Tx, k: nat, a': Sender, rc: int, faulty: bool, entryFailed: bool)
    requires a.g.size > 0 && a.s.at < VirtqueueRing.WRAP && Tx.ProcessedTx(a.g, a.s, last, k, a'.s, rc, faulty, entryFailed)
    requires Transmits(a, a', k, TxRuns.One(entryFailed))
    ensures Called(a, a', rc, k, entryFailed)
  {
  }

  /** Every transmit call, from any state guest A can be in, is a step. */
  lemma TxCallIsStep(c: Config, s: System, last: Tx.Tx, k: nat, after: Tx.Tx, rc: int, faulty: bool, entryFailed: bool) returns (s': System)
    requires Fine(s.a) && s.a.g.size > 0 && s.a.s.at < VirtqueueRing.WRAP
    requires Tx.ProcessedTx(s.a.g, s.a.s, last, k, after, rc, faulty, entryFailed)
    ensures Goes(c, s, TxCall(rc, k, entryFailed), s') && s'.a.s == after && s'.b == s.b
  {
    var a', extra := CallTransmits(s.a, last, k, after, rc, faulty, entryFailed);
    IsCalled(s.a, last, k, a', rc, faulty, entryFailed);
    s' := CallIsStep(c, s, a', rc, k, entryFailed);
  }

  lemma RxGoes(c: Config, s: System, s': System, injected: nat, faulty: bool, n: nat)
    requires RxStep(c, s, s', injected, faulty, n)
    ensures Goes(c, s, RxCall(injected, faulty), s')
  {
    forall x | x == s ensures Next(c, x, RxCall(injected, faulty), s') {
      assert RxStep(c, x, s', injected, faulty, n);
    }
  }

  lemma RingAfter(c: Config, w: EthWire.Wire, n: nat)
    requires n <= |w.ring|
    ensures EthWire.Payloads(TakeN(c, w, n).ring) == EthWire.Payloads(w.ring)[n..]
  {
    TakeNMoves(c, w, n);
  }

  function AfterRx(c: Config, s: System, b: Receiver, n: nat, lost: nat): System {
    s.(b := b, wire := TakeN(c, s.wire, n), lost := s.lost + lost)
  }

  lemma Counted(r: Rx.Rx, frames: seq<seq<byte>>, injected: nat, r': Rx.Rx, pending: seq<seq<byte>>, faulty: bool) returns (n: nat)
    requires Rx.RxCalled(r, frames, injected, r', pending, faulty)
    ensures n <= |frames| && pending == frames[n..] && |r.got| <= |r'.got| <= |r.got| + n
  {
    var k;
    k, n := CallReceives(r, frames, injected, r', pending, faulty);
    assert |r'.got| == |r.got| + k;
  }

  lemma RxTakes(c: Config, s: System, b: Receiver, injected: nat, pending: seq<seq<byte>>, faulty: bool, n: nat)
    requires Rx.RxCalled(s.b.r, EthWire.Payloads(s.wire.ring), injected, b.r, pending, faulty) && Sound(b)
    requires n <= |s.wire.ring| && pending == EthWire.Payloads(s.wire.ring)[n..] && |s.b.r.got| <= |b.r.got| <= |s.b.r.got| + n
    ensures RxStep(c, s, AfterRx(c, s, b, n, n - (|b.r.got| - |s.b.r.got|)), injected, faulty, n)
  {
  }

  /** Every receive call, on the frames that are in the ring, is a step: it takes them out of the
      ring, and what it took and did not deliver is lost. */
  lemma RxCallIsStep(c: Config, s: System, b: Receiver, injected: nat, pending: seq<seq<byte>>, faulty: bool) returns (s': System)
    requires Rx.RxCalled(s.b.r, EthWire.Payloads(s.wire.ring), injected, b.r, pending, faulty) && Sound(b)
    ensures Goes(c, s, RxCall(injected, faulty), s') && s'.b == b && s'.a == s.a
    ensures EthWire.Payloads(s'.wire.ring) == pending && s'.lost == s.lost + (|s.wire.ring| - |pending|) - (|b.r.got| - |s.b.r.got|)
  {
    var n := Counted(s.b.r, EthWire.Payloads(s.wire.ring), injected, b.r, pending, faulty);
    var lost := n - (|b.r.got| - |s.b.r.got|);
    RingAfter(c, s.wire, n);
    RxTakes(c, s, b, injected, pending, faulty, n);
    s' := AfterRx(c, s, b, n, lost);
    RxGoes(c, s, s', injected, faulty, n);
  }
}
