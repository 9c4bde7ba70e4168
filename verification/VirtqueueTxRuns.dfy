/** What transmit processing means to a driver that follows the rules of VIRTIO 1.1. */
module VirtqueueTxRuns {
  import opened GuestMemory
  import opened VirtqueueChain
  import opened VirtqueueRing
  import opened Virtqueues
  import opened VirtqueueTx
  import Modular

  /** The chain stays inside the descriptor table and none of its buffers meets the used ring. */
  ghost predicate Secluded(g: Geometry, m: Memory, head: nat) {
    Inside(TableAt(g.desc, m), head, MAX_CHAIN, g.size) && Clear(g, ChainAt(g, m, head))
  }

  ghost predicate Clear(g: Geometry, ch: seq<Desc>) {
    forall k :: 0 <= k < |ch| ==> ch[k].addr + ch[k].len <= g.used || g.used + 4 + 8 * g.size <= ch[k].addr
  }

  ghost predicate AllSecluded(g: Geometry, m: Memory, posted: seq<nat>, from: nat) {
    forall i {:trigger Secluded(g, m, posted[i])} :: from <= i < |posted| ==> Secluded(g, m, posted[i])
  }

  /** The packets behind some heads. */
  function Packets(packet: nat -> seq<byte>, heads: seq<nat>): seq<seq<byte>> {
    if heads == [] then []
    else Offer(Packets(packet, heads[..|heads| - 1]), packet(heads[|heads| - 1]))
  }

  ghost predicate OnlyUsedRing(g: Geometry, m: Memory, m': Memory) {
    forall x: nat :: !InUsed(g, x) ==> At(m', x) == At(m, x)
  }

  lemma ChainAtKept(g: Geometry, m: Memory, m': Memory, head: nat)
    requires Layout(g) && Secluded(g, m, head) && OnlyUsedRing(g, m, m')
    ensures ChainAt(g, m', head) == ChainAt(g, m, head) && Secluded(g, m', head)
  {
    forall x: nat | g.desc <= x < g.desc + 16 * g.size ensures At(m', x) == At(m, x) {
      assert InTable(g, x) && !InUsed(g, x);
    }
    TableKept(g.desc, m, m', g.size);
    ChainKept(TableAt(g.desc, m), TableAt(g.desc, m'), head, MAX_CHAIN, g.size);
  }

  /** Returning heads changes no packet still waiting. */
  lemma PacketKept(g: Geometry, m: Memory, m': Memory, head: nat)
    requires Layout(g) && Secluded(g, m, head) && OnlyUsedRing(g, m, m')
    ensures ChainAt(g, m', head) == ChainAt(g, m, head) && Secluded(g, m', head)
    ensures Packet(m', ChainAt(g, m', head)) == Packet(m, ChainAt(g, m, head))
  {
    ChainAtKept(g, m, m', head);
    var ch := ChainAt(g, m, head);
    forall k, x: nat | 0 <= k < |ch| && ch[k].addr <= x < ch[k].addr + ch[k].len ensures At(m', x) == At(m, x) {
      assert !InUsed(g, x);
    }
    GatheredKept(m, m', ch);
  }

  /** The queue after `k` more heads went back with length zero. */
  function ReturnedMore(q: Queue, k: nat): (q': Queue)
    requires |q.returned| + k <= |q.posted|
    ensures |q'.returned| == |q.returned| + k && q'.posted == q.posted
    ensures q'.published == q.published && q'.consumed == q.consumed
    ensures q.returned <= q'.returned
    ensures forall i :: |q.returned| <= i < |q'.returned| ==> q'.returned[i] == Elem(q.posted[i], 0)
  {
    if k == 0 then q else
      var r := ReturnedMore(q, k - 1);
      WithReturned(r, Elem(q.posted[|r.returned|], 0))
  }

  /** The device stands where the queue says.  The rings are taken apart only where RingInv
      itself is mentioned. */
  ghost predicate InStep(g: Geometry, m: Memory, at: nat, q: Queue) {
    && Layout(g) && at == |q.returned| % WRAP && |q.returned| <= |q.posted|
    && forall h {:trigger RingInv(h, m, q)} :: h == g ==> RingInv(h, m, q)
  }

  lemma ReturnedOnlyUsed(g: Geometry, m: Memory, count: nat, e: Elem)
    requires g.size > 0
    ensures OnlyUsedRing(g, m, Returned(g, m, count, e))
  {
  }

  /** The head the device finds, and the entry it writes. */
  lemma TurnWrites(g: Geometry, m: Memory, at: nat, q: Queue)
    requires InStep(g, m, at, q) && |q.returned| < |q.posted|
    ensures var head := q.posted[|q.returned|];
      && HeadAt(g, m, at) == head && Encodable(Elem(head, 0))
      && Returned(g, m, at, Elem(head, 0)) == Returned(g, m, |q.returned|, Elem(head, 0))
  {
    assert RingInv(g, m, q);
    DeviceSees(g, m, q);
    SlotOfIndex(g, |q.returned|);
  }

  lemma EntryInStep(g: Geometry, m: Memory, at: nat, q: Queue, e: Elem)
    requires InStep(g, m, at, q) && |q.returned| < |q.posted| && e == Elem(q.posted[|q.returned|], 0) && Encodable(e)
    ensures InStep(g, Returned(g, m, |q.returned|, e), (at + 1) % WRAP, WithReturned(q, e))
    ensures InStep(g, Returned(g, m, |q.returned|, e), at, q)
  {
    assert RingInv(g, m, q);
    ReturnKeeps(g, m, q, e);
    Modular.Successor(|q.returned|, WRAP);
  }

  /** One turn: the oldest waiting head goes back in the slot of its number. */
  lemma Turn(g: Geometry, m: Memory, at: nat, q: Queue)
    requires InStep(g, m, at, q) && |q.returned| < |q.posted|
    ensures var head := q.posted[|q.returned|];
      var m' := Returned(g, m, at, Elem(head, 0));
      && HeadAt(g, m, at) == head
      && m' == Returned(g, m, |q.returned|, Elem(head, 0))
      && InStep(g, m', (at + 1) % WRAP, ReturnedMore(q, 1)) && InStep(g, m', at, q)
      && OnlyUsedRing(g, m, m')
  {
    var e := Elem(q.posted[|q.returned|], 0);
    TurnWrites(g, m, at, q);
    EntryInStep(g, m, at, q, e);
    ReturnedOnlyUsed(g, m, at, e);
    OneMore(q);
  }

  lemma OneMore(q: Queue)
    requires |q.returned| < |q.posted|
    ensures ReturnedMore(q, 1) == WithReturned(q, Elem(q.posted[|q.returned|], 0))
  {
    assert ReturnedMore(q, 0) == q;
  }

  lemma {:induction false} MoreAndOne(q: Queue, k: nat)
    requires k > 0 && |q.returned| + k <= |q.posted|
    ensures ReturnedMore(q, k) == ReturnedMore(ReturnedMore(q, k - 1), 1)
  {
    OneMore(ReturnedMore(q, k - 1));
  }

  lemma SecludedKept(g: Geometry, m: Memory, m': Memory, posted: seq<nat>, from: nat)
    requires Layout(g) && AllSecluded(g, m, posted, from) && OnlyUsedRing(g, m, m')
    ensures AllSecluded(g, m', posted, from)
  {
    forall i | from <= i < |posted| ensures Secluded(g, m', posted[i]) {
      assert Secluded(g, m, posted[i]);
      ChainAtKept(g, m, m', posted[i]);
    }
  }

  lemma PacketsGrow(packet: nat -> seq<byte>, heads: seq<nat>, head: nat)
    ensures Packets(packet, heads + [head]) == Offer(Packets(packet, heads), packet(head))
  {
    assert (heads + [head])[..|heads|] == heads;
  }

  lemma OfferAppend(a: seq<seq<byte>>, b: seq<seq<byte>>, p: seq<byte>)
    ensures Offer(a + b, p) == a + Offer(b, p)
  {
  }

  /** Guest memory and position after `k` heads were served. */
  ghost predicate RingsAfter(g: Geometry, m: Memory, q: Queue, k: nat, m': Memory, at': nat)
    requires |q.returned| + k <= |q.posted|
  {
    InStep(g, m', at', ReturnedMore(q, k)) && OnlyUsedRing(g, m, m')
  }

  lemma RingsNext(g: Geometry, m: Memory, q: Queue, k: nat, m': Memory, at': nat)
    requires |q.returned| + k < |q.posted| && RingsAfter(g, m, q, k, m', at')
    ensures var head := q.posted[|q.returned| + k];
      var m'' := Returned(g, m', at', Elem(head, 0));
      && HeadAt(g, m', at') == head
      && RingsAfter(g, m, q, k + 1, m'', (at' + 1) % WRAP) && RingsAfter(g, m, q, k, m'', at')
  {
    Turn(g, m', at', ReturnedMore(q, k));
    MoreAndOne(q, k + 1);
  }

  /** What was handed to the MAC while `k` heads were served. */
  ghost predicate OfferedAfter(packet: nat -> seq<byte>, posted: seq<nat>, from: nat, k: nat, was: seq<seq<byte>>, now: seq<seq<byte>>)
    requires from + k <= |posted|
  {
    now == was + Packets(packet, posted[from..from + k])
  }

  lemma OfferedNext(packet: nat -> seq<byte>, posted: seq<nat>, from: nat, k: nat, was: seq<seq<byte>>, now: seq<seq<byte>>)
    requires from + k < |posted| && OfferedAfter(packet, posted, from, k, was, now)
    ensures OfferedAfter(packet, posted, from, k + 1, was, Offer(now, packet(posted[from + k])))
  {
    var head, heads := posted[from + k], posted[from..from + k];
    assert posted[from..from + k + 1] == heads + [head];
    PacketsGrow(packet, heads, head);
    OfferAppend(was, Packets(packet, heads), packet(head));
  }

  /** The packet and its size are still those of the start of the call. */
  lemma StillDescribed(g: Geometry, m: Memory, m': Memory, limit: nat, head: nat, packet: nat -> seq<byte>, fits: nat -> bool)
    requires Layout(g) && Secluded(g, m, head) && OnlyUsedRing(g, m, m') && Describes(g, m, limit, packet, fits)
    ensures packet(head) == Packet(m', ChainAt(g, m', head)) && fits(head) == Accepted(ChainAt(g, m', head), limit)
  {
    PacketKept(g, m, m', head);
    assert packet(head) == Packet(m, ChainAt(g, m, head));
  }

  lemma NextRing(g: Geometry, s: Tx, next: Tx -> Tx, can: Tx -> bool)
    requires g.size > 0 && Serves(g, next, can)
    ensures next(s).mem == Returned(g, s.mem, s.at, Elem(HeadAt(g, s.mem, s.at), 0)) && next(s).at == (s.at + 1) % WRAP
  {
    var packet, fits := Sees(g, s, next, can);
  }

  lemma NextPacket(g: Geometry, s: Tx, next: Tx -> Tx, can: Tx -> bool, head: nat, packet: nat -> seq<byte>, fits: nat -> bool)
    requires g.size > 0 && Serves(g, next, can) && HeadAt(g, s.mem, s.at) == head
    requires packet(head) == Packet(s.mem, ChainAt(g, s.mem, head)) && fits(head) == Accepted(ChainAt(g, s.mem, head), s.limit)
    ensures next(s).offered == Offer(s.offered, packet(head)) && can(s) == fits(head)
  {
    var p, f := Sees(g, s, next, can);
    assert p(head) == Packet(s.mem, ChainAt(g, s.mem, head));
  }

  /** One more turn leaves the rings in order, also when its last write was reported as failed
      and landed all the same. */
  lemma RingsStep(g: Geometry, m: Memory, q: Queue, k: nat, s: Tx, next: Tx -> Tx, can: Tx -> bool)
    requires |q.returned| + k < |q.posted| && RingsAfter(g, m, q, k, s.mem, s.at) && Serves(g, next, can)
    ensures RingsAfter(g, m, q, k + 1, next(s).mem, next(s).at)
    ensures RingsAfter(g, m, q, k, next(s).mem, s.at)
    ensures HeadAt(g, s.mem, s.at) == q.posted[|q.returned| + k]
  {
    RingsNext(g, m, q, k, s.mem, s.at);
    NextRing(g, s, next, can);
  }

  lemma OfferedStep(g: Geometry, m: Memory, s: Tx, next: Tx -> Tx, can: Tx -> bool, head: nat, packet: nat -> seq<byte>, fits: nat -> bool)
    requires Layout(g) && Serves(g, next, can) && HeadAt(g, s.mem, s.at) == head
    requires Secluded(g, m, head) && OnlyUsedRing(g, m, s.mem) && Describes(g, m, s.limit, packet, fits)
    ensures next(s).offered == Offer(s.offered, packet(head)) && can(s) == fits(head)
  {
    StillDescribed(g, m, s.mem, s.limit, head, packet, fits);
    NextPacket(g, s, next, can, head, packet, fits);
  }

  lemma {:induction false} RingsMany(g: Geometry, s: Tx, q: Queue, k: nat, next: Tx -> Tx, can: Tx -> bool)
    requires InStep(g, s.mem, s.at, q) && |q.returned| + k <= |q.posted| && Serves(g, next, can)
    ensures RingsAfter(g, s.mem, q, k, Turns(next, s, k).mem, Turns(next, s, k).at)
    decreases k
  {
    if k == 0 {
      assert ReturnedMore(q, 0) == q;
    } else {
      RingsMany(g, s, q, k - 1, next, can);
      RingsStep(g, s.mem, q, k - 1, Turns(next, s, k - 1), next, can);
    }
  }

  /** The driver's rules hold when the call starts; `packet` and `fits` describe its chains. */
  ghost predicate Fair(g: Geometry, s: Tx, q: Queue, packet: nat -> seq<byte>, fits: nat -> bool) {
    && InStep(g, s.mem, s.at, q) && AllSecluded(g, s.mem, q.posted, |q.returned|)
    && Describes(g, s.mem, s.limit, packet, fits)
  }

  lemma {:induction false} LimitStays(g: Geometry, s: Tx, k: nat, next: Tx -> Tx, can: Tx -> bool)
    requires g.size > 0 && Serves(g, next, can)
    ensures Turns(next, s, k).limit == s.limit
    decreases k
  {
    if k > 0 {
      LimitStays(g, s, k - 1, next, can);
      var packet, fits := Sees(g, Turns(next, s, k - 1), next, can);
    }
  }

  lemma OneTurn(g: Geometry, s: Tx, q: Queue, k: nat, next: Tx -> Tx, can: Tx -> bool, packet: nat -> seq<byte>, fits: nat -> bool)
    requires Fair(g, s, q, packet, fits) && |q.returned| + k < |q.posted| && Serves(g, next, can)
    ensures var x, head := Turns(next, s, k), q.posted[|q.returned| + k];
      next(x).offered == Offer(x.offered, packet(head)) && can(x) == fits(head)
  {
    var x := Turns(next, s, k);
    LimitStays(g, s, k, next, can);
    RingsMany(g, s, q, k, next, can);
    RingsStep(g, s.mem, q, k, x, next, can);
    assert Secluded(g, s.mem, q.posted[|q.returned| + k]);
    OfferedStep(g, s.mem, x, next, can, q.posted[|q.returned| + k], packet, fits);
  }

  lemma {:induction false} OfferedMany(g: Geometry, s: Tx, q: Queue, k: nat, next: Tx -> Tx, can: Tx -> bool, packet: nat -> seq<byte>, fits: nat -> bool)
    requires Fair(g, s, q, packet, fits) && |q.returned| + k <= |q.posted| && Serves(g, next, can)
    ensures OfferedAfter(packet, q.posted, |q.returned|, k, s.offered, Turns(next, s, k).offered)
    decreases k
  {
    if k == 0 {
      assert q.posted[|q.returned|..|q.returned|] == [];
    } else {
      OfferedMany(g, s, q, k - 1, next, can, packet, fits);
      OneTurn(g, s, q, k - 1, next, can, packet, fits);
      OfferedNext(packet, q.posted, |q.returned|, k - 1, s.offered, Turns(next, s, k - 1).offered);
    }
  }

  lemma PublishStep(g: Geometry, m: Memory, q: Queue, m': Memory, at': nat)
    requires InStep(g, m', at', q) && OnlyUsedRing(g, m, m')
    ensures InStep(g, Published(g, m', at'), at', AllPublished(q)) && OnlyUsedRing(g, m, Published(g, m', at'))
  {
    assert RingInv(g, m', q);
    PublishKeeps(g, m', q);
  }

  /** The queue as a call that served `k` heads leaves it: published or not. */
  ghost predicate Left(g: Geometry, s: Tx, q: Queue, k: nat, s': Tx, published: bool)
    requires |q.returned| + k <= |q.posted|
  {
    && InStep(g, s'.mem, s'.at, if published then AllPublished(ReturnedMore(q, k)) else ReturnedMore(q, k))
    && OnlyUsedRing(g, s.mem, s'.mem)
  }

  /** The packets of the first `k` waiting heads went to the MAC. */
  ghost predicate Sent(packet: nat -> seq<byte>, was: seq<seq<byte>>, q: Queue, k: nat, now: seq<seq<byte>>)
    requires |q.returned| + k <= |q.posted|
  {
    OfferedAfter(packet, q.posted, |q.returned|, k, was, now)
  }

  ghost predicate AllFit(fits: nat -> bool, heads: seq<nat>) {
    forall i :: 0 <= i < |heads| ==> fits(heads[i])
  }

  /** The turns a call took, seen from the queue: the position stays at the first head not
      served. */
  lemma TurnsTaken(g: Geometry, s: Tx, q: Queue, k: nat, next: Tx -> Tx, can: Tx -> bool, packet: nat -> seq<byte>, fits: nat -> bool)
    requires Fair(g, s, q, packet, fits) && |q.returned| + k <= |q.posted| && Serves(g, next, can)
    ensures var x := Turns(next, s, k);
      Left(g, s, q, k, x, false) && Left(g, s, q, k, Publish(g, x), true) && Sent(packet, s.offered, q, k, x.offered)
  {
    RingsMany(g, s, q, k, next, can);
    OfferedMany(g, s, q, k, next, can, packet, fits);
    var x := Turns(next, s, k);
    PublishStep(g, s.mem, ReturnedMore(q, k), x.mem, x.at);
  }

  lemma {:induction false} TurnsPossible(g: Geometry, s: Tx, q: Queue, k: nat, next: Tx -> Tx, can: Tx -> bool, packet: nat -> seq<byte>, fits: nat -> bool)
    requires Fair(g, s, q, packet, fits) && |q.returned| + k <= |q.posted| && Serves(g, next, can) && AllCan(next, can, s, k)
    ensures AllFit(fits, q.posted[|q.returned|..|q.returned| + k])
    decreases k
  {
    if k > 0 {
      TurnsPossible(g, s, q, k - 1, next, can, packet, fits);
      OneTurn(g, s, q, k - 1, next, can, packet, fits);
      var r := |q.returned|;
      assert q.posted[r..r + k] == q.posted[r..r + k - 1] + [q.posted[r + k - 1]];
    }
  }

  function One(b: bool): nat { if b then 1 else 0 }

  /** The turn a call gave up on: its packet is out exactly if the write of its used entry failed. */
  lemma TurnGivenUp(g: Geometry, s: Tx, q: Queue, k: nat, next: Tx -> Tx, can: Tx -> bool, packet: nat -> seq<byte>, fits: nat -> bool,
                    s': Tx, entryFailed: bool)
    returns (extra: nat)
    requires Fair(g, s, q, packet, fits) && |q.returned| + k < |q.posted| && Serves(g, next, can)
    requires GivenUp(Turns(next, s, k), next(Turns(next, s, k)), s', entryFailed)
    ensures extra == One(entryFailed) && Left(g, s, q, k, s', false) && Sent(packet, s.offered, q, k + extra, s'.offered)
  {
    var x := Turns(next, s, k);
    RingsMany(g, s, q, k, next, can);
    RingsStep(g, s.mem, q, k, x, next, can);
    OfferedMany(g, s, q, k, next, can, packet, fits);
    OneTurn(g, s, q, k, next, can, packet, fits);
    OfferedNext(packet, q.posted, |q.returned|, k, s.offered, x.offered);
    extra := if entryFailed then 1 else 0;
  }

  lemma Available(g: Geometry, s: Tx, q: Queue)
    requires InStep(g, s.mem, s.at, q)
    ensures s.at < WRAP && Behind(s.at, Word(s.mem, AvailIdxAddr(g))) == |q.posted| - |q.returned|
  {
    assert RingInv(g, s.mem, q);
    DeviceSees(g, s.mem, q);
  }

  lemma ServesItself(g: Geometry)
    requires g.size > 0
    ensures Serves(g, NextOf(g), CanOf(g))
  {
  }

  lemma CallOutcome(g: Geometry, next: Tx -> Tx, can: Tx -> bool, packet: nat -> seq<byte>, fits: nat -> bool,
                    s: Tx, last: Tx, served: nat, s': Tx, rc: int, faulty: bool, entryFailed: bool, q: Queue)
    returns (published: bool, extra: nat)
    requires Fair(g, s, q, packet, fits) && Serves(g, next, can)
    requires Processed(g, next, can, |q.posted| - |q.returned|, s, last, served, s', rc, faulty, entryFailed)
    ensures extra == One(entryFailed) && |q.returned| + served + extra <= |q.posted|
    ensures Left(g, s, q, served, s', published) && Sent(packet, s.offered, q, served + extra, s'.offered)
    ensures rc >= 0 ==> rc == served == |q.posted| - |q.returned| && !entryFailed && published == (served > 0)
  {
    if rc < 0 && served < |q.posted| - |q.returned| {
      published := false;
      extra := TurnGivenUp(g, s, q, served, next, can, packet, fits, s', entryFailed);
    } else {
      TurnsTaken(g, s, q, served, next, can, packet, fits);
      published, extra := if rc >= 0 then served > 0 else s' != last, 0;
    }
  }

  /** One call of vcs_vq_process_tx under a driver that follows the rules.  Every head it serves
      goes back exactly once, in order, in the slot of its number, and the packets go to the MAC
      in that order.  A call that succeeds serves all heads and publishes them.  After any other
      the published index still covers nothing but written slots and the position stays at the
      first head not served; that head's packet is out exactly if the call failed at the write of
      its used entry. */
  lemma TxCall(g: Geometry, packet: nat -> seq<byte>, fits: nat -> bool,
               s: Tx, last: Tx, served: nat, s': Tx, rc: int, faulty: bool, entryFailed: bool, q: Queue)
    returns (published: bool, extra: nat)
    requires Fair(g, s, q, packet, fits) && ProcessedTx(g, s, last, served, s', rc, faulty, entryFailed)
    ensures extra == One(entryFailed) && |q.returned| + served + extra <= |q.posted|
    ensures Left(g, s, q, served, s', published) && Sent(packet, s.offered, q, served + extra, s'.offered)
    ensures rc >= 0 ==> rc == served == |q.posted| - |q.returned| && !entryFailed && published == (served > 0)
  {
    Available(g, s, q);
    ServesItself(g);
    published, extra := CallOutcome(g, NextOf(g), CanOf(g), packet, fits, s, last, served, s', rc, faulty, entryFailed, q);
  }

  lemma CallSucceeds(g: Geometry, next: Tx -> Tx, can: Tx -> bool, packet: nat -> seq<byte>, fits: nat -> bool,
                     s: Tx, last: Tx, served: nat, s': Tx, rc: int, faulty: bool, entryFailed: bool, q: Queue)
    requires Fair(g, s, q, packet, fits) && Serves(g, next, can)
    requires Processed(g, next, can, |q.posted| - |q.returned|, s, last, served, s', rc, faulty, entryFailed)
    ensures rc >= 0 <==> !faulty && AllFit(fits, q.posted[|q.returned|..])
  {
    TurnsPossible(g, s, q, served, next, can, packet, fits);
    if served < |q.posted| - |q.returned| {
      OneTurn(g, s, q, served, next, can, packet, fits);
      assert q.posted[|q.returned|..][served] == q.posted[|q.returned| + served];
    } else {
      assert q.posted[|q.returned|..|q.returned| + served] == q.posted[|q.returned|..];
    }
  }

  /** A call succeeds exactly when no DMA call fails and no packet overfills the buffer. */
  lemma TxSucceeds(g: Geometry, packet: nat -> seq<byte>, fits: nat -> bool,
                   s: Tx, last: Tx, served: nat, s': Tx, rc: int, faulty: bool, entryFailed: bool, q: Queue)
    requires Fair(g, s, q, packet, fits) && ProcessedTx(g, s, last, served, s', rc, faulty, entryFailed)
    ensures rc >= 0 <==> !faulty && AllFit(fits, q.posted[|q.returned|..])
  {
    Available(g, s, q);
    ServesItself(g);
    CallSucceeds(g, NextOf(g), CanOf(g), packet, fits, s, last, served, s', rc, faulty, entryFailed, q);
  }

  /** Heads whose packets fit can all be served. */
  lemma {:induction false} FitCan(g: Geometry, s: Tx, q: Queue, k: nat, next: Tx -> Tx, can: Tx -> bool, packet: nat -> seq<byte>, fits: nat -> bool)
    requires Fair(g, s, q, packet, fits) && |q.returned| + k <= |q.posted| && Serves(g, next, can)
    requires AllFit(fits, q.posted[|q.returned|..])
    ensures AllCan(next, can, s, k)
    decreases k
  {
    if k > 0 {
      FitCan(g, s, q, k - 1, next, can, packet, fits);
      OneTurn(g, s, q, k - 1, next, can, packet, fits);
      assert q.posted[|q.returned|..][k - 1] == q.posted[|q.returned| + k - 1];
    }
  }

  /** A published index stays behind: a call that finds nothing to serve does not publish what an
      earlier call could not, although it succeeds. */
  lemma IndexStaysBehind(g: Geometry, s: Tx, last: Tx, served: nat, s': Tx, rc: int, faulty: bool, entryFailed: bool, q: Queue)
    requires InStep(g, s.mem, s.at, q) && q.published < |q.returned| == |q.posted|
    requires ProcessedTx(g, s, last, served, s', rc, faulty, entryFailed) && rc >= 0
    ensures rc == 0 && s' == s && Word(s'.mem, UsedIdxAddr(g)) != Word(s'.mem, AvailIdxAddr(g))
  {
    Available(g, s, q);
    assert RingInv(g, s.mem, q);
    Modular.Distinct(q.published, |q.posted|, WRAP);
  }

  /** On a DMA port that recovers from a failed write this does happen, from any state in which
      heads with fitting packets are waiting: all are served and the write of the index fails; the
      next call finds nothing to do and succeeds.  On any other port the next call fails at its
      first read (Barred). */
  lemma IndexLost(g: Geometry, s: Tx, q: Queue, packet: nat -> seq<byte>, fits: nat -> bool) returns (last: Tx)
    requires Fair(g, s, q, packet, fits) && |q.returned| < |q.posted| && AllFit(fits, q.posted[|q.returned|..])
    ensures s.at < WRAP && ProcessedTx(g, s, last, |q.posted| - |q.returned|, last, -1, true, false)
    ensures last.at < WRAP && ProcessedTx(g, last, last, 0, last, 0, false, false)
    ensures Word(last.mem, UsedIdxAddr(g)) != Word(last.mem, AvailIdxAddr(g))
  {
    last := AllServed(g, s, q, packet, fits);
    PublishedBefore(g, s.mem, s.at, q);
    NothingToDo(g, last, ReturnedMore(q, |q.posted| - |q.returned|));
  }

  lemma AllServed(g: Geometry, s: Tx, q: Queue, packet: nat -> seq<byte>, fits: nat -> bool) returns (last: Tx)
    requires Fair(g, s, q, packet, fits) && |q.returned| <= |q.posted| && AllFit(fits, q.posted[|q.returned|..])
    ensures s.at < WRAP && ProcessedTx(g, s, last, |q.posted| - |q.returned|, last, -1, true, false)
    ensures InStep(g, last.mem, last.at, ReturnedMore(q, |q.posted| - |q.returned|))
  {
    Available(g, s, q);
    ServesItself(g);
    last := AllTurns(g, s, q, NextOf(g), CanOf(g), packet, fits);
  }

  lemma AllTurns(g: Geometry, s: Tx, q: Queue, next: Tx -> Tx, can: Tx -> bool, packet: nat -> seq<byte>, fits: nat -> bool) returns (last: Tx)
    requires Fair(g, s, q, packet, fits) && |q.returned| <= |q.posted| && AllFit(fits, q.posted[|q.returned|..]) && Serves(g, next, can)
    ensures Processed(g, next, can, |q.posted| - |q.returned|, s, last, |q.posted| - |q.returned|, last, -1, true, false)
    ensures InStep(g, last.mem, last.at, ReturnedMore(q, |q.posted| - |q.returned|))
  {
    var n := |q.posted| - |q.returned|;
    last := Turns(next, s, n);
    FitCan(g, s, q, n, next, can, packet, fits);
    RingsMany(g, s, q, n, next, can);
  }

  lemma NothingToDo(g: Geometry, s: Tx, q: Queue)
    requires InStep(g, s.mem, s.at, q) && q.published < |q.returned| == |q.posted|
    ensures s.at < WRAP && ProcessedTx(g, s, s, 0, s, 0, false, false)
    ensures Word(s.mem, UsedIdxAddr(g)) != Word(s.mem, AvailIdxAddr(g))
  {
    Available(g, s, q);
    IndexStaysBehind(g, s, s, 0, s, 0, false, false, q);
  }

  lemma PublishedBefore(g: Geometry, m: Memory, at: nat, q: Queue)
    requires InStep(g, m, at, q)
    ensures q.published <= |q.returned|
  {
    assert RingInv(g, m, q);
  }
}
