/** From the transmit queue of one guest to the receive queue of another: virtqueue_dma.c on both
    sides, with eth_port.c and eth_shm.c in between. */
module EndToEnd {
  import opened GuestMemory
  import opened Subsequences
  import opened LinkModel
  import opened EthWire
  import opened GuestSending
  import VirtqueueRing
  import Tx = VirtqueueTx
  import TxRuns = VirtqueueTxRuns
  import Rx = VirtqueueRx

  /** The receiving guest and its device. */
  datatype Receiver = Receiver(g: VirtqueueRing.Geometry, mem: Memory, r: Rx.Rx)

  /** History: `source` tells for every packet handed to the MAC which payload it is; `ahead` that
      the packet of the first waiting head is out already; `retries` counts how often the packet
      of such a head was handed over again; `refused` counts packets the link did not take, `lost`
      frames taken from the ring but not delivered. */
  datatype System = System(a: Sender, wire: Wire, b: Receiver, source: seq<nat>, ahead: bool, retries: nat, refused: nat, lost: nat)

  // ---------- payloads and where they come from ----------

  /** Positions of the payloads that make a packet. */
  function Origins(ps: seq<seq<byte>>, lo: nat, hi: nat): (at: seq<nat>)
    requires lo <= hi <= |ps|
    decreases hi
  {
    if lo == hi then [] else Origins(ps, lo, hi - 1) + if ps[hi - 1] == [] then [] else [hi - 1]
  }

  ghost predicate Traced(offered: seq<seq<byte>>, source: seq<nat>, ps: seq<seq<byte>>) {
    |source| == |offered| && forall j :: 0 <= j < |source| ==> source[j] < |ps| && ps[source[j]] == offered[j]
  }

  ghost predicate StrictlyRising(source: seq<nat>) {
    forall i, j :: 0 <= i < j < |source| ==> source[i] < source[j]
  }

  /** Packets go out in the order of their payloads. */
  ghost predicate Rising(source: seq<nat>, top: nat) {
    (forall i, j :: 0 <= i <= j < |source| ==> source[i] <= source[j]) && (forall j :: 0 <= j < |source| ==> source[j] <= top)
  }

  lemma {:induction false} OriginsBetween(ps: seq<seq<byte>>, lo: nat, hi: nat)
    requires lo <= hi <= |ps|
    ensures forall j :: 0 <= j < |Origins(ps, lo, hi)| ==> lo <= Origins(ps, lo, hi)[j] < hi
    ensures StrictlyRising(Origins(ps, lo, hi))
    ensures lo < hi && ps[lo] != [] ==> Origins(ps, lo, hi) != [] && Origins(ps, lo, hi)[0] == lo
    decreases hi
  {
    if lo < hi { OriginsBetween(ps, lo, hi - 1); }
  }

  lemma LastOf(ps: seq<seq<byte>>, lo: nat, hi: nat)
    requires lo < hi <= |ps|
    ensures ps[lo..hi] == ps[lo..hi - 1] + [ps[hi - 1]]
  {
  }

  lemma {:induction false} OriginsTrace(ps: seq<seq<byte>>, lo: nat, hi: nat)
    requires lo <= hi <= |ps|
    ensures Traced(NonEmpty(ps[lo..hi]), Origins(ps, lo, hi), ps)
    decreases hi
  {
    if lo < hi {
      OriginsTrace(ps, lo, hi - 1);
      var front := ps[lo..hi - 1];
      LastOf(ps, lo, hi);
      NonEmptyGrows(front, ps[hi - 1]);
    }
  }

  lemma TracedAppend(a: seq<seq<byte>>, sa: seq<nat>, b: seq<seq<byte>>, sb: seq<nat>, ps: seq<seq<byte>>)
    requires Traced(a, sa, ps) && Traced(b, sb, ps)
    ensures Traced(a + b, sa + sb, ps)
  {
  }

  // ---------- the link ----------

  /** vcs_eth_mac_send_raw: the frame for a packet. */
  function FrameOf(p: seq<byte>): EthFrame { EthFrame(|p|, 0, 0, 0, p) }

  function SendAll(c: Config, w: Wire, ps: seq<seq<byte>>): Wire {
    if ps == [] then w else Send(c, SendAll(c, w, ps[..|ps| - 1]), FrameOf(ps[|ps| - 1]), 0).1
  }

  function Unsent(c: Config, w: Wire, ps: seq<seq<byte>>): nat {
    if ps == [] then 0
    else Unsent(c, w, ps[..|ps| - 1])
         + if Send(c, SendAll(c, w, ps[..|ps| - 1]), FrameOf(ps[|ps| - 1]), 0).0 == Sent then 0 else 1
  }

  function TakeN(c: Config, w: Wire, n: nat): Wire {
    if n == 0 then w else Do(c, TakeN(c, w, n - 1), PeerTakes)
  }

  lemma {:induction false} SendAllInOrder(c: Config, w: Wire, ps: seq<seq<byte>>, offered: seq<seq<byte>>)
    requires IsSubseq(Payloads(Accepted(w)), offered)
    ensures IsSubseq(Payloads(Accepted(SendAll(c, w, ps))), offered + ps)
    decreases |ps|
  {
    if ps == [] {
      assert offered + ps == offered;
    } else {
      var front, p := ps[..|ps| - 1], ps[|ps| - 1];
      SendAllInOrder(c, w, front, offered);
      assert offered + ps == (offered + front) + [p];
      SendInOrder(c, SendAll(c, w, front), FrameOf(p), 0, offered + front);
    }
  }

  lemma {:induction false} SendAllAdds(c: Config, w: Wire, ps: seq<seq<byte>>)
    ensures SendAll(c, w, ps).taken == w.taken
    ensures |Accepted(SendAll(c, w, ps))| + Unsent(c, w, ps) == |Accepted(w)| + |ps|
    decreases |ps|
  {
    if ps != [] {
      var front := ps[..|ps| - 1];
      SendAllAdds(c, w, front);
      SendAdds(c, SendAll(c, w, front), FrameOf(ps[|ps| - 1]), 0);
    }
  }

  lemma {:induction false} TakeNMoves(c: Config, w: Wire, n: nat)
    requires n <= |w.ring|
    ensures TakeN(c, w, n).taken == w.taken + w.ring[..n] && TakeN(c, w, n).ring == w.ring[n..]
    ensures Accepted(TakeN(c, w, n)) == Accepted(w)
  {
    if n > 0 {
      TakeNMoves(c, w, n - 1);
      assert w.ring[..n] == w.ring[..n - 1] + [w.ring[n - 1]];
      TakeMoves(c, TakeN(c, w, n - 1));
    }
  }

  /** What the link needs to take `n` more packets: room in the ring and in the window. */
  predicate LinkTakes(c: Config, w: Wire, n: nat) {
    |w.ring| + n < RING_DEPTH && (c.fcWindow == 0 || w.outstanding + n <= c.fcWindow)
  }

  lemma OneSent(c: Config, w: Wire, f: EthFrame, now: nat)
    requires c.dropRatePpm == 0 && w.dice.burst == 0 && LinkTakes(c, w, 1) && c.fcWindow < U32
    ensures Send(c, w, f, now).0 == Sent
    ensures var w' := Send(c, w, f, now).1;
      w'.dice == w.dice && |w'.ring| == |w.ring| + 1 && (c.fcWindow > 0 ==> w'.outstanding == w.outstanding + 1)
  {
  }

  /** A link that drops nothing and has the room takes everything. */
  lemma {:induction false} LinkTakesAll(c: Config, w: Wire, ps: seq<seq<byte>>)
    requires c.dropRatePpm == 0 && w.dice.burst == 0 && LinkTakes(c, w, |ps|) && c.fcWindow < U32
    ensures Unsent(c, w, ps) == 0
    ensures var w' := SendAll(c, w, ps);
      w'.dice == w.dice && |w'.ring| == |w.ring| + |ps| && (c.fcWindow > 0 ==> w'.outstanding == w.outstanding + |ps|)
    decreases |ps|
  {
    if ps != [] {
      var front := ps[..|ps| - 1];
      LinkTakesAll(c, w, front);
      OneSent(c, SendAll(c, w, front), FrameOf(ps[|ps| - 1]), 0);
    }
  }

  lemma {:induction false} TakeNDice(c: Config, w: Wire, n: nat)
    ensures TakeN(c, w, n).dice == w.dice
  {
    if n > 0 { TakeNDice(c, w, n - 1); }
  }

  // ---------- the receiving side ----------

  ghost predicate Sound(b: Receiver) {
    forall r {:trigger Rx.RxInv(b.g, b.mem, r)} :: r == b.r ==> Rx.RxInv(b.g, b.mem, r)
  }

  /** What one receive call took and delivered: `n` frames left the ring, and the first `k` of them
      were delivered. */
  lemma CallReceives(r: Rx.Rx, pending: seq<seq<byte>>, injected: nat, r': Rx.Rx, pending': seq<seq<byte>>, faulty: bool)
    returns (k: nat, n: nat)
    requires Rx.RxCalled(r, pending, injected, r', pending', faulty)
    ensures k <= n <= |pending| && n <= k + 1 && injected <= k <= injected + 1
    ensures r'.got == r.got + pending[..k] && pending' == pending[n..]
    ensures !faulty ==> k == injected
    ensures n > k ==> Rx.BufferWaiting(Rx.Deliveries(r, pending, k)) && (faulty || !Rx.CanTake(Rx.Deliveries(r, pending, k), pending[k..]))
  {
    var last := Rx.Deliveries(r, pending, injected);
    var rest := pending[injected..];
    n := if pending' == rest then injected else injected + 1;
    k := if r' == last then injected else injected + 1;
    if k > injected { assert pending[..k] == pending[..injected] + [rest[0]]; }
    assert pending' == pending[n..];
  }

  // ---------- the whole system ----------

  /** What happens: guest A makes chains available, guest A's device processes its transmit queue
      (with this return code, serving this many heads, and perhaps failing at the write of a used
      entry) or learns of a completion, guest B posts buffers or consumes frames, guest B's device
      processes its receive queue (injecting this many frames, perhaps with a failed DMA call). */
  datatype Step =
    | Post
    | TxCall(rc: int, served: nat, entryFailed: bool)
    | Completion
    | Buffers
    | RxCall(injected: nat, faulty: bool)

  ghost predicate PostStep(s: System, s': System) {
    && s' == s.(a := s'.a) && Fine(s'.a) && s.a.payloads <= s'.a.payloads
    && s'.a.s.offered == s.a.s.offered && s'.a.q.returned == s.a.q.returned
  }

  ghost predicate Processes(a: Sender, a': Sender, rc: int, served: nat, entryFailed: bool) {
    && a.g.size > 0 && a.s.at < VirtqueueRing.WRAP
    && exists last, faulty :: Tx.ProcessedTx(a.g, a.s, last, served, a'.s, rc, faulty, entryFailed)
  }

  ghost predicate TxStep(c: Config, s: System, s': System, rc: int, k: nat, entryFailed: bool) {
    var extra := TxRuns.One(entryFailed);
    && Processes(s.a, s'.a, rc, k, entryFailed) && Transmits(s.a, s'.a, k, extra) && Moved(s, s', k, extra)
    && s'.wire == SendAll(c, s.wire, News(s.a, k + extra)) && s'.refused == s.refused + Unsent(c, s.wire, News(s.a, k + extra))
    && s'.b == s.b && s'.lost == s.lost
  }

  /** What a transmit call that served `k` heads, and sent `extra` packets more than that, changes
      on the sending side. */
  ghost predicate Moved(s: System, s': System, k: nat, extra: nat) {
    var r, ps := |s.a.q.returned|, s.a.payloads;
    && s'.a.payloads == ps && r + k + extra <= |ps| && extra <= 1 && |s'.a.q.returned| == r + k
    && s'.a.s.offered == s.a.s.offered + NonEmpty(ps[r..r + k + extra]) && s'.source == s.source + Origins(ps, r, r + k + extra)
    && s'.ahead == AheadAfter(ps, r, k, extra, s.ahead) && s'.retries == s.retries + Again(k, extra, s.ahead)
  }

  /** The packet of the first waiting head is out after a call that served `k` heads, and `extra`
      packets more than that. */
  function AheadAfter(ps: seq<seq<byte>>, r: nat, k: nat, extra: nat, ahead: bool): bool
    requires r + k + extra <= |ps|
  {
    if extra == 1 && ps[r + k] != [] then true else ahead && k == 0
  }

  /** A packet that was out already is handed over once more. */
  function Again(k: nat, extra: nat, ahead: bool): nat {
    if ahead && k + extra > 0 then 1 else 0
  }

  ghost predicate CompleteStep(c: Config, s: System, s': System) {
    s' == s.(wire := Do(c, s.wire, Complete))
  }

  ghost predicate BufferStep(s: System, s': System) {
    s' == s.(b := s'.b) && Sound(s'.b) && s'.b.r.got == s.b.r.got
  }

  ghost predicate RxStep(c: Config, s: System, s': System, injected: nat, faulty: bool, n: nat) {
    var pending := Payloads(s.wire.ring);
    && n <= |pending| && Rx.RxCalled(s.b.r, pending, injected, s'.b.r, pending[n..], faulty) && Sound(s'.b)
    && |s'.b.r.got| <= |s.b.r.got| + n
    && s' == s.(b := s'.b, wire := TakeN(c, s.wire, n), lost := s.lost + (n - (|s'.b.r.got| - |s.b.r.got|)))
  }

  ghost predicate Next(c: Config, s: System, e: Step, s': System) {
    match e
    case Post => PostStep(s, s')
    case TxCall(rc, served, entryFailed) => TxStep(c, s, s', rc, served, entryFailed)
    case Completion => CompleteStep(c, s, s')
    case Buffers => BufferStep(s, s')
    case RxCall(injected, faulty) => exists n :: RxStep(c, s, s', injected, faulty, n)
  }

  /** A step, taken apart only where Next itself is mentioned. */
  ghost predicate Goes(c: Config, s: System, e: Step, s': System) {
    forall x {:trigger Next(c, x, e, s')} :: x == s ==> Next(c, x, e, s')
  }

  ghost predicate Start(s: System) {
    && Fine(s.a) && Sound(s.b) && s.a.s.offered == [] && s.a.q.returned == [] && s.b.r.got == []
    && s.wire.ring == [] && s.wire.taken == [] && s.wire.dice.burst == 0
    && s.source == [] && !s.ahead && s.retries == 0 && s.refused == 0 && s.lost == 0
  }

  function FreshSender(g: VirtqueueRing.Geometry, limit: nat): Sender {
    Sender(g, Tx.Tx(map[], 0, [], limit), VirtqueueRing.Queue([], [], 0, 0), [])
  }

  /** Two fresh queues on a fresh link are a start. */
  lemma FreshStart(ga: VirtqueueRing.Geometry, gb: VirtqueueRing.Geometry, limit: nat, dice: Dice) returns (s: System)
    requires VirtqueueRing.Layout(ga) && VirtqueueRing.Layout(gb) && dice.burst == 0
    ensures Start(s) && s.a == FreshSender(ga, limit) && s.b.g == gb && s.wire == Fresh(dice)
  {
    var empty := VirtqueueRing.Queue([], [], 0, 0);
    s := System(FreshSender(ga, limit), Fresh(dice), Receiver(gb, map[], Rx.Rx(empty, [], [])), [], false, 0, 0, 0);
    VirtqueueRing.EmptyRings(ga);
    VirtqueueRing.EmptyRings(gb);
    assert SenderOk(s.a);
    assert Rx.RxInv(gb, map[], s.b.r);
  }

  ghost predicate IsRun(c: Config, run: seq<System>, steps: seq<Step>) {
    && |run| == |steps| + 1 && Start(run[0])
    && forall i :: 0 <= i < |steps| ==> Goes(c, run[i], steps[i], run[i + 1])
  }

  // ---------- the invariant ----------

  /** What was handed to the MAC, seen from the payloads. */
  ghost predicate SideA(s: System) {
    Fine(s.a) && FromPayloads(s.a.payloads, |s.a.q.returned|, s.a.s.offered, s.source, s.ahead, s.retries)
  }

  /** Packets handed over are payloads, in order; strictly so exactly when no head was served whose
      packet was out already, and then they are those of the first heads, each once. */
  ghost predicate FromPayloads(ps: seq<seq<byte>>, r: nat, offered: seq<seq<byte>>, source: seq<nat>, ahead: bool, retries: nat) {
    && Topped(ps, r, source, ahead) && Traced(offered, source, ps)
    && (StrictlyRising(source) <==> retries == 0)
    && (retries == 0 ==> Whole(ps, r, offered, ahead))
    && Packets(offered)
  }

  /** The packet of the first waiting head is the last one handed over, or has not been. */
  ghost predicate Topped(ps: seq<seq<byte>>, r: nat, source: seq<nat>, ahead: bool) {
    && r <= |ps| && Rising(source, r)
    && if ahead then r < |ps| && ps[r] != [] && source != [] && source[|source| - 1] == r
       else forall j :: 0 <= j < |source| ==> source[j] < r
  }

  ghost predicate Whole(ps: seq<seq<byte>>, r: nat, offered: seq<seq<byte>>, ahead: bool) {
    var k := if ahead then r + 1 else r;
    k <= |ps| && offered == NonEmpty(ps[..k])
  }

  ghost predicate Packets(offered: seq<seq<byte>>) {
    forall p :: p in offered ==> p != []
  }

  /** What the link took, seen from what was handed to the MAC. */
  ghost predicate Between(s: System) {
    && IsSubseq(Payloads(Accepted(s.wire)), s.a.s.offered)
    && |Accepted(s.wire)| + s.refused == |s.a.s.offered|
  }

  ghost predicate SideB(s: System) {
    && Sound(s.b) && IsSubseq(s.b.r.got, Payloads(s.wire.taken)) && |s.b.r.got| + s.lost == |s.wire.taken|
  }

  ghost predicate Inv(s: System) { SideA(s) && Between(s) && SideB(s) }

  lemma PostKeeps(s: System, s': System)
    requires Inv(s) && PostStep(s, s')
    ensures Inv(s')
  {
    var r := |s.a.q.returned|;
    assert s'.a.payloads[..r] == s.a.payloads[..r];
    if s.ahead { assert s'.a.payloads[..r + 1] == s.a.payloads[..r + 1]; }
  }

  lemma RisingAppend(a: seq<nat>, b: seq<nat>, mid: nat, top: nat)
    requires Rising(a, mid) && Rising(b, top) && mid <= top && forall j :: 0 <= j < |b| ==> mid <= b[j]
    ensures Rising(a + b, top)
  {
  }

  /** Appending keeps strictness exactly when the new part does not start where the old one ended. */
  lemma StrictAppend(a: seq<nat>, b: seq<nat>, mid: nat)
    requires Rising(a, mid) && StrictlyRising(b) && forall j :: 0 <= j < |b| ==> mid <= b[j]
    ensures var meets := a != [] && a[|a| - 1] == mid && b != [] && b[0] == mid;
      StrictlyRising(a + b) <==> StrictlyRising(a) && !meets
  {
    var ab := a + b;
    if StrictlyRising(ab) {
      assert forall i :: 0 <= i < |a| ==> ab[i] == a[i];
      if a != [] && b != [] { assert ab[|a| - 1] < ab[|a|]; }
    } else if StrictlyRising(a) {
      var i, j :| 0 <= i < j < |ab| && ab[i] >= ab[j];
      assert i < |a| <= j;
    }
  }

  lemma {:induction false} NonEmptyMembers(ps: seq<seq<byte>>)
    ensures forall p :: p in NonEmpty(ps) ==> p != []
  {
    if ps != [] { NonEmptyMembers(ps[..|ps| - 1]); }
  }

  lemma FirstAndMore(ps: seq<seq<byte>>, r: nat, n: nat)
    requires r <= n <= |ps|
    ensures NonEmpty(ps[..n]) == NonEmpty(ps[..r]) + NonEmpty(ps[r..n])
  {
    Split(ps, r, n);
    NonEmptyAppend(ps[..r], ps[r..n]);
  }

  lemma Split(ps: seq<seq<byte>>, r: nat, n: nat)
    requires r <= n <= |ps|
    ensures ps[..n] == ps[..r] + ps[r..n]
  {
  }

  lemma EmptyLast(ps: seq<seq<byte>>, n: nat)
    requires n < |ps| && ps[n] == []
    ensures NonEmpty(ps[..n + 1]) == NonEmpty(ps[..n])
  {
    assert ps[..n + 1] == ps[..n] + [ps[n]];
    NonEmptyGrows(ps[..n], ps[n]);
  }

  /** Unless a head is handed over again, what was handed over are the first payloads. */
  lemma WholeMore(ps: seq<seq<byte>>, r: nat, k: nat, extra: nat, offered: seq<seq<byte>>, ahead: bool)
    requires r + k + extra <= |ps| && extra <= 1 && Whole(ps, r, offered, ahead) && Again(k, extra, ahead) == 0
    ensures Whole(ps, r + k, offered + NonEmpty(ps[r..r + k + extra]), AheadAfter(ps, r, k, extra, ahead))
  {
    if ahead {
      assert ps[r..r + k + extra] == [];
    } else {
      FirstAndMore(ps, r, r + k + extra);
      if extra == 1 && ps[r + k] == [] { EmptyLast(ps, r + k); }
    }
  }

  lemma OriginsRise(ps: seq<seq<byte>>, r: nat, k: nat, extra: nat, source: seq<nat>)
    requires r + k + extra <= |ps| && extra <= 1 && Rising(source, r)
    ensures Rising(source + Origins(ps, r, r + k + extra), r + k)
  {
    var at := Origins(ps, r, r + k + extra);
    OriginsBetween(ps, r, r + k + extra);
    RisingAppend(source, at, r, r + k);
  }

  /** The packet of the head after those served is out as well. */
  lemma ToppedAhead(ps: seq<seq<byte>>, r: nat, k: nat, source: seq<nat>, ahead: bool)
    requires r + k + 1 <= |ps| && Topped(ps, r, source, ahead) && ps[r + k] != []
    ensures Topped(ps, r + k, source + Origins(ps, r, r + k + 1), true)
  {
    OriginsRise(ps, r, k, 1, source);
    var all := Origins(ps, r, r + k) + [r + k];
    assert all[|all| - 1] == r + k;
  }

  /** Only the packets of heads served are out. */
  lemma ToppedEven(ps: seq<seq<byte>>, r: nat, k: nat, source: seq<nat>, ahead: bool)
    requires r + k <= |ps| && Topped(ps, r, source, ahead) && !(ahead && k == 0)
    ensures Topped(ps, r + k, source + Origins(ps, r, r + k), false)
  {
    OriginsRise(ps, r, k, 0, source);
    OriginsBetween(ps, r, r + k);
    var at := Origins(ps, r, r + k);
    BelowAppend(source, at, r + k);
  }

  lemma ToppedMore(ps: seq<seq<byte>>, r: nat, k: nat, extra: nat, source: seq<nat>, ahead: bool)
    requires r + k + extra <= |ps| && extra <= 1 && Topped(ps, r, source, ahead)
    ensures Topped(ps, r + k, source + Origins(ps, r, r + k + extra), AheadAfter(ps, r, k, extra, ahead))
  {
    if extra == 1 && ps[r + k] != [] {
      ToppedAhead(ps, r, k, source, ahead);
    } else {
      assert Origins(ps, r, r + k + extra) == Origins(ps, r, r + k);
      if ahead && k == 0 {
        assert source + Origins(ps, r, r + k + extra) == source;
      } else {
        ToppedEven(ps, r, k, source, ahead);
      }
    }
  }

  lemma BelowAppend(a: seq<nat>, b: seq<nat>, top: nat)
    requires (forall j :: 0 <= j < |a| ==> a[j] < top) && (forall j :: 0 <= j < |b| ==> b[j] < top)
    ensures forall j :: 0 <= j < |a + b| ==> (a + b)[j] < top
  {
  }

  /** A head whose packet was out is handed over again exactly when the packets stop rising. */
  lemma StrictMore(ps: seq<seq<byte>>, r: nat, k: nat, extra: nat, source: seq<nat>, ahead: bool)
    requires r + k + extra <= |ps| && extra <= 1 && Topped(ps, r, source, ahead)
    ensures StrictlyRising(source + Origins(ps, r, r + k + extra)) <==> StrictlyRising(source) && Again(k, extra, ahead) == 0
  {
    OriginsBetween(ps, r, r + k + extra);
    StrictAppend(source, Origins(ps, r, r + k + extra), r);
  }

  lemma PacketsMore(offered: seq<seq<byte>>, ps: seq<seq<byte>>)
    requires Packets(offered)
    ensures Packets(offered + NonEmpty(ps))
  {
    NonEmptyMembers(ps);
  }

  lemma FromPayloadsMore(ps: seq<seq<byte>>, r: nat, k: nat, extra: nat, offered: seq<seq<byte>>, source: seq<nat>, ahead: bool, retries: nat,
                         ps': seq<seq<byte>>, r': nat, offered': seq<seq<byte>>, source': seq<nat>, ahead': bool, retries': nat)
    requires ps' == ps
    requires r + k + extra <= |ps| && extra <= 1 && FromPayloads(ps, r, offered, source, ahead, retries)
    requires r' == r + k && offered' == offered + NonEmpty(ps[r..r + k + extra]) && source' == source + Origins(ps, r, r + k + extra)
    requires ahead' == AheadAfter(ps, r, k, extra, ahead) && retries' == retries + Again(k, extra, ahead)
    ensures FromPayloads(ps', r', offered', source', ahead', retries')
  {
    ToppedMore(ps, r, k, extra, source, ahead);
    OriginsTrace(ps, r, r + k + extra);
    TracedAppend(offered, source, NonEmpty(ps[r..r + k + extra]), Origins(ps, r, r + k + extra), ps);
    StrictMore(ps, r, k, extra, source, ahead);
    PacketsMore(offered, ps[r..r + k + extra]);
    if retries + Again(k, extra, ahead) == 0 { WholeMore(ps, r, k, extra, offered, ahead); }
  }

  lemma LinkMore(c: Config, w: Wire, more: seq<seq<byte>>, offered: seq<seq<byte>>, refused: nat)
    requires IsSubseq(Payloads(Accepted(w)), offered) && |Accepted(w)| + refused == |offered|
    ensures var w' := SendAll(c, w, more);
      && IsSubseq(Payloads(Accepted(w')), offered + more) && w'.taken == w.taken
      && |Accepted(w')| + refused + Unsent(c, w, more) == |offered + more|
  {
    SendAllInOrder(c, w, more, offered);
    SendAllAdds(c, w, more);
  }

  lemma TxKeepsSideA(c: Config, s: System, s': System, rc: int, k: nat, entryFailed: bool)
    requires SideA(s) && TxStep(c, s, s', rc, k, entryFailed)
    ensures SideA(s')
  {
    MovedKeeps(s, s', k, TxRuns.One(entryFailed));
  }

  lemma MovedKeeps(s: System, s': System, k: nat, extra: nat)
    requires SideA(s) && Moved(s, s', k, extra) && Fine(s'.a)
    ensures SideA(s')
  {
    FromPayloadsMore(s.a.payloads, |s.a.q.returned|, k, extra, s.a.s.offered, s.source, s.ahead, s.retries,
                     s'.a.payloads, |s'.a.q.returned|, s'.a.s.offered, s'.source, s'.ahead, s'.retries);
  }

  lemma TxKeepsRest(c: Config, s: System, s': System, rc: int, k: nat, entryFailed: bool)
    requires Between(s) && SideB(s) && TxStep(c, s, s', rc, k, entryFailed)
    ensures Between(s') && SideB(s')
  {
    var more := News(s.a, k + TxRuns.One(entryFailed));
    LinkMore(c, s.wire, more, s.a.s.offered, s.refused);
  }

  lemma {:induction false} ManyMore(a: seq<seq<byte>>, b: seq<seq<byte>>, more: seq<seq<byte>>)
    requires IsSubseq(a, b)
    ensures IsSubseq(a + more, b + more)
    decreases |more|
  {
    if more == [] {
      assert a + more == a && b + more == b;
    } else {
      var front := more[..|more| - 1];
      ManyMore(a, b, front);
      AppendBoth(a + front, b + front, more[|more| - 1]);
      assert a + more == (a + front) + [more[|more| - 1]] && b + more == (b + front) + [more[|more| - 1]];
    }
  }

  /** Frames taken in and the first of them delivered. */
  lemma DeliverMore(got: seq<seq<byte>>, taken: seq<seq<byte>>, pending: seq<seq<byte>>, k: nat, n: nat)
    requires IsSubseq(got, taken) && k <= n <= |pending| && n <= k + 1
    ensures IsSubseq(got + pending[..k], taken + pending[..n])
  {
    ManyMore(got, taken, pending[..k]);
    if n > k {
      assert pending[..n] == pending[..k] + [pending[k]];
      AppendRight(got + pending[..k], taken + pending[..k], pending[k]);
      assert taken + pending[..n] == (taken + pending[..k]) + [pending[k]];
    }
  }

  lemma TakeNPayloads(c: Config, w: Wire, n: nat)
    requires n <= |w.ring|
    ensures Payloads(TakeN(c, w, n).taken) == Payloads(w.taken) + Payloads(w.ring)[..n]
    ensures |TakeN(c, w, n).taken| == |w.taken| + n && Accepted(TakeN(c, w, n)) == Accepted(w)
  {
    TakeNMoves(c, w, n);
  }

  lemma RxDelivers(r: Rx.Rx, r': Rx.Rx, pending: seq<seq<byte>>, injected: nat, faulty: bool, n: nat, taken: seq<seq<byte>>)
    requires n <= |pending| && Rx.RxCalled(r, pending, injected, r', pending[n..], faulty) && IsSubseq(r.got, taken)
    ensures IsSubseq(r'.got, taken + pending[..n]) && |r.got| <= |r'.got| <= |r.got| + n
  {
    var k, m := CallReceives(r, pending, injected, r', pending[n..], faulty);
    assert |pending[n..]| == |pending[m..]|;
    DeliverMore(r.got, taken, pending, k, n);
  }

  lemma RxKeeps(c: Config, s: System, s': System, injected: nat, faulty: bool, n: nat)
    requires Between(s) && SideB(s) && RxStep(c, s, s', injected, faulty, n)
    ensures Between(s') && SideB(s')
  {
    TakeNPayloads(c, s.wire, n);
    RxDelivers(s.b.r, s'.b.r, Payloads(s.wire.ring), injected, faulty, n, Payloads(s.wire.taken));
  }

  lemma TxKeeps(c: Config, s: System, s': System, rc: int, k: nat, entryFailed: bool)
    requires Inv(s) && TxStep(c, s, s', rc, k, entryFailed)
    ensures Inv(s')
  {
    TxKeepsSideA(c, s, s', rc, k, entryFailed);
    TxKeepsRest(c, s, s', rc, k, entryFailed);
  }

  lemma NextInv(c: Config, s: System, e: Step, s': System)
    requires Inv(s) && Goes(c, s, e, s')
    ensures Inv(s')
  {
    assert Next(c, s, e, s');
    match e
    case Post => PostKeeps(s, s');
    case TxCall(rc, k, entryFailed) => TxKeeps(c, s, s', rc, k, entryFailed);
    case Completion =>
    case Buffers =>
    case RxCall(injected, faulty) =>
      var n :| RxStep(c, s, s', injected, faulty, n);
      RxKeeps(c, s, s', injected, faulty, n);
  }

  lemma StartInv(s: System)
    requires Start(s)
    ensures Inv(s)
  {
    assert SenderOk(s.a);
    assert s.a.payloads[..0] == [];
  }

  lemma {:induction false} RunInv(c: Config, run: seq<System>, steps: seq<Step>)
    requires IsRun(c, run, steps)
    ensures Inv(run[|run| - 1])
    decreases |run|
  {
    if |run| == 1 {
      StartInv(run[0]);
    } else {
      var n := |steps| - 1;
      RunInv(c, run[..n + 1], steps[..n]);
      NextInv(c, run[n], steps[n], run[n + 1]);
    }
  }
}
