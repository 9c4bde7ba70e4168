/** A guest's transmit queue in terms of payloads: what one call of vcs_vq_process_tx sends. */
module GuestSending {
  import opened GuestMemory
  import opened VirtqueueChain
  import opened VirtqueueRing
  import opened Virtqueues
  import opened Subsequences
  import Tx = VirtqueueTx
  import TxRuns = VirtqueueTxRuns

  /** The sending guest and its device, with the payload behind every head it posted. */
  datatype Sender = Sender(g: Geometry, s: Tx.Tx, q: Queue, payloads: seq<seq<byte>>)

  ghost predicate SenderOk(a: Sender) {
    && TxRuns.InStep(a.g, a.s.mem, a.s.at, a.q) && TxRuns.AllSecluded(a.g, a.s.mem, a.q.posted, |a.q.returned|)
    && |a.payloads| == |a.q.posted|
    && Described(a.g, a.s.mem, a.q.posted, a.payloads, |a.q.returned|)
  }

  /** The same, taken apart only where SenderOk itself is mentioned. */
  ghost predicate Fine(a: Sender) {
    forall b {:trigger SenderOk(b)} :: b == a ==> SenderOk(b)
  }

  /** Memory describes the payloads of the heads that are waiting. */
  ghost predicate Described(g: Geometry, m: Memory, posted: seq<nat>, payloads: seq<seq<byte>>, from: nat)
    requires |payloads| == |posted|
  {
    forall i {:trigger ChainAt(g, m, posted[i])} :: from <= i < |posted| ==> Packet(m, ChainAt(g, m, posted[i])) == payloads[i]
  }

  /** The packets among some payloads: an empty one is not sent. */
  function NonEmpty(ps: seq<seq<byte>>): seq<seq<byte>> {
    if ps == [] then [] else Tx.Offer(NonEmpty(ps[..|ps| - 1]), ps[|ps| - 1])
  }

  lemma NonEmptyGrows(ps: seq<seq<byte>>, p: seq<byte>)
    ensures NonEmpty(ps + [p]) == Tx.Offer(NonEmpty(ps), p)
  {
    assert (ps + [p])[..|ps|] == ps;
  }

  /** They are the payloads that are not empty, all of them and as often as they occur, in order. */
  lemma {:induction false} NonEmptyMeans(ps: seq<seq<byte>>)
    ensures IsSubseq(NonEmpty(ps), ps)
    ensures forall p :: multiset(NonEmpty(ps))[p] == if p == [] then 0 else multiset(ps)[p]
  {
    if ps != [] {
      var front, last := ps[..|ps| - 1], ps[|ps| - 1];
      NonEmptyMeans(front);
      assert ps == front + [last];
      if last == [] { AppendRight(NonEmpty(front), front, last); } else { AppendBoth(NonEmpty(front), front, last); }
    }
  }

  lemma {:induction false} NonEmptyAppend(a: seq<seq<byte>>, b: seq<seq<byte>>)
    ensures NonEmpty(a + b) == NonEmpty(a) + NonEmpty(b)
    decreases |b|
  {
    if b == [] {
      assert a + b == a;
    } else {
      var front, p := b[..|b| - 1], b[|b| - 1];
      NonEmptyAppend(a, front);
      assert a + b == (a + front) + [p] && b == front + [p];
      NonEmptyGrows(a + front, p);
      NonEmptyGrows(front, p);
    }
  }

  /** `packet` gives the payloads of the heads that are waiting. */
  ghost predicate Means(packet: nat -> seq<byte>, posted: seq<nat>, payloads: seq<seq<byte>>, from: nat)
    requires |payloads| == |posted|
  {
    forall i :: from <= i < |posted| ==> packet(posted[i]) == payloads[i]
  }

  lemma PacketsArePayloads(packet: nat -> seq<byte>, posted: seq<nat>, payloads: seq<seq<byte>>, from: nat, k: nat)
    requires |payloads| == |posted| && from + k <= |posted| && Means(packet, posted, payloads, from)
    ensures TxRuns.Packets(packet, posted[from..from + k]) == NonEmpty(payloads[from..from + k])
  {
    SamePackets(packet, posted[from..from + k], payloads[from..from + k]);
  }

  lemma {:induction false} SamePackets(packet: nat -> seq<byte>, heads: seq<nat>, ps: seq<seq<byte>>)
    requires |heads| == |ps| && forall i :: 0 <= i < |heads| ==> packet(heads[i]) == ps[i]
    ensures TxRuns.Packets(packet, heads) == NonEmpty(ps)
  {
    if heads != [] { SamePackets(packet, heads[..|heads| - 1], ps[..|ps| - 1]); }
  }

  lemma DescribedKept(g: Geometry, m: Memory, m': Memory, posted: seq<nat>, payloads: seq<seq<byte>>, from: nat, from': nat)
    requires Layout(g) && |payloads| == |posted| && from <= from' && Described(g, m, posted, payloads, from)
    requires TxRuns.AllSecluded(g, m, posted, from) && TxRuns.OnlyUsedRing(g, m, m')
    ensures Described(g, m', posted, payloads, from') && TxRuns.AllSecluded(g, m', posted, from')
  {
    TxRuns.SecludedKept(g, m, m', posted, from);
    forall i | from' <= i < |posted| ensures Packet(m', ChainAt(g, m', posted[i])) == payloads[i] {
      assert TxRuns.Secluded(g, m, posted[i]);
      TxRuns.PacketKept(g, m, m', posted[i]);
      assert Packet(m, ChainAt(g, m, posted[i])) == payloads[i];
    }
    forall i | from' <= i < |posted| ensures TxRuns.Secluded(g, m', posted[i]) {
      assert TxRuns.Secluded(g, m', posted[i]);
    }
  }

  /** The packets behind the next `k` heads. */
  function News(a: Sender, k: nat): seq<seq<byte>>
    requires |a.q.returned| + k <= |a.payloads|
  {
    NonEmpty(a.payloads[|a.q.returned|..|a.q.returned| + k])
  }

  /** One transmit call: `k` more heads went back, and their packets went to the MAC, and perhaps
      the next one's, too. */
  ghost predicate Transmits(a: Sender, a': Sender, k: nat, extra: nat) {
    && a'.g == a.g && a'.payloads == a.payloads && a'.q.posted == a.q.posted
    && |a.q.returned| + k + extra <= |a.payloads| && extra <= 1
    && |a'.q.returned| == |a.q.returned| + k
    && a'.s.offered == a.s.offered + News(a, k + extra)
    && Fine(a')
  }

  lemma FineIsFair(a: Sender) returns (packet: nat -> seq<byte>, fits: nat -> bool)
    requires Fine(a)
    ensures TxRuns.Fair(a.g, a.s, a.q, packet, fits) && |a.payloads| == |a.q.posted| && a.g.size > 0 && a.s.at < WRAP
    ensures Means(packet, a.q.posted, a.payloads, |a.q.returned|)
  {
    assert SenderOk(a);
    packet := (h: nat) => Packet(a.s.mem, ChainAt(a.g, a.s.mem, h));
    fits := (h: nat) => Accepted(ChainAt(a.g, a.s.mem, h), a.s.limit);
  }

  lemma LeftIsFine(a: Sender, k: nat, s': Tx.Tx, published: bool)
    requires Fine(a) && |a.q.returned| + k <= |a.q.posted| && TxRuns.Left(a.g, a.s, a.q, k, s', published)
    ensures var q := TxRuns.ReturnedMore(a.q, k);
      Fine(Sender(a.g, s', if published then AllPublished(q) else q, a.payloads))
  {
    assert SenderOk(a);
    DescribedKept(a.g, a.s.mem, s'.mem, a.q.posted, a.payloads, |a.q.returned|, |a.q.returned| + k);
  }

  function AfterCall(a: Sender, served: nat, s': Tx.Tx, published: bool): Sender
    requires |a.q.returned| + served <= |a.q.posted|
  {
    var q := TxRuns.ReturnedMore(a.q, served);
    Sender(a.g, s', if published then AllPublished(q) else q, a.payloads)
  }

  lemma OutcomeTransmits(a: Sender, served: nat, extra: nat, s': Tx.Tx, published: bool, packet: nat -> seq<byte>) returns (a': Sender)
    requires Fine(a) && |a.q.returned| + served + extra <= |a.q.posted| == |a.payloads| && extra <= 1
    requires Means(packet, a.q.posted, a.payloads, |a.q.returned|)
    requires TxRuns.Left(a.g, a.s, a.q, served, s', published)
    requires TxRuns.Sent(packet, a.s.offered, a.q, served + extra, s'.offered)
    ensures a'.s == s' && Transmits(a, a', served, extra)
  {
    LeftIsFine(a, served, s', published);
    SentIsNews(a, served + extra, s'.offered, packet);
    a' := AfterCall(a, served, s', published);
  }

  lemma SentIsNews(a: Sender, k: nat, now: seq<seq<byte>>, packet: nat -> seq<byte>)
    requires |a.q.returned| + k <= |a.q.posted| == |a.payloads| && Means(packet, a.q.posted, a.payloads, |a.q.returned|)
    requires TxRuns.Sent(packet, a.s.offered, a.q, k, now)
    ensures now == a.s.offered + News(a, k)
  {
    PacketsArePayloads(packet, a.q.posted, a.payloads, |a.q.returned|, k);
  }

  /** What vcs_vq_process_tx does is such a step; the packet of the next head is out exactly if
      the call failed at the write of that head's used entry, and a successful call serves every
      waiting head. */
  lemma CallTransmits(a: Sender, last: Tx.Tx, served: nat, s': Tx.Tx, rc: int, faulty: bool, entryFailed: bool)
    returns (a': Sender, extra: nat)
    requires Fine(a) && a.g.size > 0 && a.s.at < WRAP && Tx.ProcessedTx(a.g, a.s, last, served, s', rc, faulty, entryFailed)
    ensures extra == TxRuns.One(entryFailed) && a'.s == s' && Transmits(a, a', served, extra)
    ensures rc >= 0 ==> !entryFailed && |a.q.returned| + served == |a.q.posted|
  {
    var packet, fits := FineIsFair(a);
    var published;
    published, extra := TxRuns.TxCall(a.g, packet, fits, a.s, last, served, s', rc, faulty, entryFailed, a.q);
    a' := OutcomeTransmits(a, served, extra, s', published, packet);
  }

  lemma OneMoreNews(a: Sender, k: nat)
    requires |a.q.returned| + k < |a.payloads|
    ensures News(a, k + 1) == Tx.Offer(News(a, k), a.payloads[|a.q.returned| + k])
  {
    var ps, r := a.payloads, |a.q.returned|;
    assert ps[r..r + k + 1] == ps[r..r + k] + [ps[r + k]];
    NonEmptyGrows(ps[r..r + k], ps[r + k]);
  }

  /** A packet that went out ahead of its head goes out again when the next call serves that
      head: this is how a failed write of a used entry would duplicate a packet, if the reads of
      that call succeeded. */
  lemma RetryRepeats(a: Sender, a': Sender, a'': Sender, k: nat)
    requires Transmits(a, a', k, 1) && Transmits(a', a'', 1, 0)
    requires a.payloads[|a.q.returned| + k] != []
    ensures var p := a.payloads[|a.q.returned| + k];
      a''.s.offered == a.s.offered + News(a, k) + [p, p]
  {
    OneMoreNews(a, k);
    OneMoreNews(a', 0);
    assert News(a', 0) == [];
  }

  /** The buffers of a chain do not meet the available ring. */
  ghost predicate OffAvail(g: Geometry, ch: seq<Desc>) {
    forall k :: 0 <= k < |ch| ==> ch[k].addr + ch[k].len <= g.avail || g.avail + 4 + 2 * g.size <= ch[k].addr
  }

  ghost predicate AllOffAvail(g: Geometry, m: Memory, posted: seq<nat>, from: nat) {
    forall i {:trigger ChainAt(g, m, posted[i])} :: from <= i < |posted| ==> OffAvail(g, ChainAt(g, m, posted[i]))
  }

  /** Writing the available ring changes no chain and no packet. */
  lemma AvailWriteKeeps(g: Geometry, m: Memory, m': Memory, head: nat)
    requires Layout(g) && TxRuns.Secluded(g, m, head) && OffAvail(g, ChainAt(g, m, head))
    requires forall x: nat :: !InAvail(g, x) ==> At(m', x) == At(m, x)
    ensures TxRuns.Secluded(g, m', head) && ChainAt(g, m', head) == ChainAt(g, m, head)
    ensures Packet(m', ChainAt(g, m', head)) == Packet(m, ChainAt(g, m, head))
  {
    forall x: nat | g.desc <= x < g.desc + 16 * g.size ensures At(m', x) == At(m, x) {
      assert InTable(g, x) && !InAvail(g, x);
    }
    TableKept(g.desc, m, m', g.size);
    ChainKept(TableAt(g.desc, m), TableAt(g.desc, m'), head, MAX_CHAIN, g.size);
    var ch := ChainAt(g, m, head);
    forall k, x: nat | 0 <= k < |ch| && ch[k].addr <= x < ch[k].addr + ch[k].len ensures At(m', x) == At(m, x) {
      assert !InAvail(g, x);
    }
    GatheredKept(m, m', ch);
  }

  /** The descriptors a walk of at most `n` steps visits. */
  function Visits(t: Table, i: nat, n: nat): seq<nat>
    decreases n
  {
    if n == 0 then [] else [i] + if t(i).hasNext then Visits(t, t(i).next, n - 1) else []
  }

  lemma {:induction false} ChainSame(t: Table, t': Table, i: nat, n: nat, size: nat)
    requires Inside(t, i, n, size) && forall k :: k in Visits(t, i, n) ==> t'(k) == t(k)
    ensures Chain(t', i, n) == Chain(t, i, n) && Inside(t', i, n, size)
    decreases n
  {
    if n > 0 {
      assert i in Visits(t, i, n);
      if t(i).hasNext { ChainSame(t, t', t(i).next, n - 1, size); }
    }
  }

  ghost predicate SameRange(m: Memory, m': Memory, a: nat, n: nat) {
    forall x: nat :: a <= x < a + n ==> At(m', x) == At(m, x)
  }

  /** Memory where the descriptors and buffers of the chain behind `head` lie is the same. */
  ghost predicate Untouched(g: Geometry, m: Memory, m': Memory, head: nat) {
    var ch := ChainAt(g, m, head);
    && (forall k :: k in Visits(TableAt(g.desc, m), head, MAX_CHAIN) ==> SameRange(m, m', g.desc + 16 * k, 16))
    && (forall k :: 0 <= k < |ch| ==> SameRange(m, m', ch[k].addr, ch[k].len))
  }

  lemma EntrySame(table: nat, m: Memory, m': Memory, k: nat)
    requires SameRange(m, m', table + 16 * k, 16)
    ensures TableAt(table, m')(k) == TableAt(table, m)(k)
  {
    LoadAgrees(m', m, table + 16 * k, 16);
  }

  lemma EntriesSame(table: nat, m: Memory, m': Memory, ks: seq<nat>)
    requires forall k :: k in ks ==> SameRange(m, m', table + 16 * k, 16)
    ensures forall k :: k in ks ==> TableAt(table, m')(k) == TableAt(table, m)(k)
  {
    forall k | k in ks ensures TableAt(table, m')(k) == TableAt(table, m)(k) {
      EntrySame(table, m, m', k);
    }
  }

  /** Then it is the same chain with the same packet. */
  lemma UntouchedKeeps(g: Geometry, m: Memory, m': Memory, head: nat)
    requires TxRuns.Secluded(g, m, head) && Untouched(g, m, m', head)
    ensures TxRuns.Secluded(g, m', head) && ChainAt(g, m', head) == ChainAt(g, m, head)
    ensures Packet(m', ChainAt(g, m', head)) == Packet(m, ChainAt(g, m, head))
  {
    EntriesSame(g.desc, m, m', Visits(TableAt(g.desc, m), head, MAX_CHAIN));
    ChainSame(TableAt(g.desc, m), TableAt(g.desc, m'), head, MAX_CHAIN, g.size);
    var ch := ChainAt(g, m, head);
    forall k, x: nat | 0 <= k < |ch| && ch[k].addr <= x < ch[k].addr + ch[k].len ensures At(m', x) == At(m, x) {
      assert SameRange(m, m', ch[k].addr, ch[k].len);
    }
    GatheredKept(m, m', ch);
  }

  /** All chains in flight and the new one, in the memory the guest has prepared. */
  lemma AllPrepared(g: Geometry, m: Memory, m': Memory, posted: seq<nat>, payloads: seq<seq<byte>>, from: nat, head: nat, payload: seq<byte>)
    requires |payloads| == |posted| && from <= |posted|
    requires TxRuns.AllSecluded(g, m, posted, from) && AllOffAvail(g, m, posted, from) && Described(g, m, posted, payloads, from)
    requires forall i {:trigger posted[i]} :: from <= i < |posted| ==> Untouched(g, m, m', posted[i])
    requires TxRuns.Secluded(g, m', head) && OffAvail(g, ChainAt(g, m', head)) && Packet(m', ChainAt(g, m', head)) == payload
    ensures TxRuns.AllSecluded(g, m', posted + [head], from) && AllOffAvail(g, m', posted + [head], from)
    ensures Described(g, m', posted + [head], payloads + [payload], from)
  {
    var all := posted + [head];
    forall i | from <= i < |all|
      ensures TxRuns.Secluded(g, m', all[i]) && OffAvail(g, ChainAt(g, m', all[i])) && Packet(m', ChainAt(g, m', all[i])) == (payloads + [payload])[i]
    {
      if i < |posted| {
        assert all[i] == posted[i];
        assert TxRuns.Secluded(g, m, posted[i]) && OffAvail(g, ChainAt(g, m, posted[i])) && Packet(m, ChainAt(g, m, posted[i])) == payloads[i];
        UntouchedKeeps(g, m, m', posted[i]);
      }
    }
  }

  /** A guest that prepares a chain of its own without touching the rings or the chains in flight,
      and then makes it available, slot first, keeps the rules: the new chain lies inside the
      table, its buffers stay off the rings, and so do those in flight. */
  lemma GuestPosts(a: Sender, m: Memory, head: nat, payload: seq<byte>)
    requires Fine(a) && head < a.g.size < WRAP && |a.q.posted| < a.q.consumed + a.g.size && |a.payloads| == |a.q.posted|
    requires forall x: nat :: InAvail(a.g, x) || InUsed(a.g, x) ==> At(m, x) == At(a.s.mem, x)
    requires forall i {:trigger a.q.posted[i]} :: |a.q.returned| <= i < |a.q.posted| ==> Untouched(a.g, a.s.mem, m, a.q.posted[i])
    requires AllOffAvail(a.g, a.s.mem, a.q.posted, |a.q.returned|)
    requires TxRuns.Secluded(a.g, m, head) && OffAvail(a.g, ChainAt(a.g, m, head)) && Packet(m, ChainAt(a.g, m, head)) == payload
    ensures Fine(Sender(a.g, a.s.(mem := Posted(a.g, m, |a.q.posted|, head)), a.q.(posted := a.q.posted + [head]), a.payloads + [payload]))
  {
    assert SenderOk(a);
    AllPrepared(a.g, a.s.mem, m, a.q.posted, a.payloads, |a.q.returned|, head, payload);
    PreparedPosts(a, m, head, payload);
  }

  lemma PreparedPosts(a: Sender, m: Memory, head: nat, payload: seq<byte>)
    requires Fine(a) && head < a.g.size < WRAP && |a.q.posted| < a.q.consumed + a.g.size && |a.payloads| == |a.q.posted|
    requires forall x: nat :: InAvail(a.g, x) || InUsed(a.g, x) ==> At(m, x) == At(a.s.mem, x)
    requires var posted := a.q.posted + [head];
      && TxRuns.AllSecluded(a.g, m, posted, |a.q.returned|) && AllOffAvail(a.g, m, posted, |a.q.returned|)
      && Described(a.g, m, posted, a.payloads + [payload], |a.q.returned|)
    ensures Fine(Sender(a.g, a.s.(mem := Posted(a.g, m, |a.q.posted|, head)), a.q.(posted := a.q.posted + [head]), a.payloads + [payload]))
  {
    assert SenderOk(a) && RingInv(a.g, a.s.mem, a.q);
    OthersKeep(a.g, a.s.mem, m, a.q);
    PostKeeps(a.g, m, a.q, head);
    PreparedKept(a.g, m, Posted(a.g, m, |a.q.posted|, head), a.q.posted + [head], a.payloads + [payload], |a.q.returned|);
  }

  lemma PreparedKept(g: Geometry, m: Memory, m': Memory, posted: seq<nat>, payloads: seq<seq<byte>>, from: nat)
    requires Layout(g) && |payloads| == |posted| && (forall x: nat :: !InAvail(g, x) ==> At(m', x) == At(m, x))
    requires TxRuns.AllSecluded(g, m, posted, from) && AllOffAvail(g, m, posted, from) && Described(g, m, posted, payloads, from)
    ensures TxRuns.AllSecluded(g, m', posted, from) && Described(g, m', posted, payloads, from)
  {
    forall i | from <= i < |posted|
      ensures TxRuns.Secluded(g, m', posted[i]) && Packet(m', ChainAt(g, m', posted[i])) == payloads[i]
    {
      assert TxRuns.Secluded(g, m, posted[i]) && OffAvail(g, ChainAt(g, m, posted[i]));
      AvailWriteKeeps(g, m, m', posted[i]);
    }
  }
}
