/** Descriptor chains of a split virtqueue (VIRTIO 1.1, section 2.6.5) in guest memory. */
module VirtqueueChain {
  import opened GuestMemory

  const MAX_CHAIN: nat := 16
  const PACKET_BUFFER: nat := 9216
  const NET_HEADER: nat := 12

  datatype Desc = Desc(addr: nat, len: nat, hasNext: bool, writable: bool, next: nat)

  /** struct virtq_desc: le64 addr, le32 len, le16 flags, le16 next.  Of the flags, bit 0 says
      that the chain goes on and bit 1 that the device may write. */
  function Decode(bs: seq<byte>): Desc
    requires |bs| == 16
  {
    var flags := Le(bs[12..14]);
    Desc(Le(bs[..8]), Le(bs[8..12]), flags % 2 == 1, flags / 2 % 2 == 1, Le(bs[14..]))
  }

  function DescAt(table: nat, m: Memory, i: nat): Desc {
    Decode(Load(m, table + 16 * i, 16))
  }

  /** The descriptor table as guest memory holds it. */
  type Table = nat -> Desc

  function TableAt(table: nat, m: Memory): Table {
    (i: nat) => DescAt(table, m, i)
  }

  ghost predicate Shows(t: Table, table: nat, m: Memory) {
    forall i: nat {:trigger DescAt(table, m, i)} :: t(i) == DescAt(table, m, i)
  }

  ghost predicate ShowsAt(t: Table, table: nat, m: Memory, i: nat) {
    forall k: nat {:trigger DescAt(table, m, k)} :: k == i ==> t(k) == DescAt(table, m, k)
  }

  ghost predicate ShowsUpTo(t: Table, table: nat, m: Memory, size: nat) {
    forall k: nat {:trigger DescAt(table, m, k)} :: k < size ==> t(k) == DescAt(table, m, k)
  }

  lemma ShowsKept(t: Table, table: nat, m: Memory, m': Memory, size: nat)
    requires ShowsUpTo(t, table, m, size)
    requires forall x: nat :: table <= x < table + 16 * size ==> At(m', x) == At(m, x)
    ensures ShowsUpTo(t, table, m', size)
  {
    forall k: nat | k < size ensures t(k) == DescAt(table, m', k) {
      assert t(k) == DescAt(table, m, k);
      LoadAgrees(m, m', table + 16 * k, 16);
    }
  }

  /** The first `n` descriptors of the chain that starts at index `i`. */
  function Chain(t: Table, i: nat, n: nat): (ch: seq<Desc>)
    ensures |ch| <= n
    decreases n
  {
    if n == 0 then []
    else [t(i)] + if t(i).hasNext then Chain(t, t(i).next, n - 1) else []
  }

  /** `done` has been walked; if the walk goes on, `cur` is next and at most `left` remain. */
  ghost predicate Walked(t: Table, whole: seq<Desc>, done: seq<Desc>, goesOn: bool, cur: nat, left: nat) {
    whole == if goesOn then done + Chain(t, cur, left) else done
  }

  lemma WalkNext(t: Table, whole: seq<Desc>, done: seq<Desc>, cur: nat, left: nat)
    requires Walked(t, whole, done, true, cur, left) && left > 0
    ensures Walked(t, whole, done + [t(cur)], t(cur).hasNext, t(cur).next, left - 1)
    ensures done + [t(cur)] <= whole
  {
  }

  lemma WalkEnd(t: Table, whole: seq<Desc>, done: seq<Desc>, goesOn: bool, cur: nat, left: nat)
    requires Walked(t, whole, done, goesOn, cur, left) && (goesOn ==> left == 0)
    ensures whole == done
  {
  }

  /** `walked` is Walked, taken apart only where Walked itself is mentioned. */
  ghost predicate Follows(t: Table, whole: seq<Desc>, walked: (seq<Desc>, bool, nat, nat) -> bool) {
    forall done, g, c: nat, l: nat {:trigger Walked(t, whole, done, g, c, l)} :: walked(done, g, c, l) == Walked(t, whole, done, g, c, l)
  }

  lemma WalkOver(t: Table, whole: seq<Desc>, walked: (seq<Desc>, bool, nat, nat) -> bool, done: seq<Desc>, goesOn: bool, cur: nat, left: nat)
    requires Follows(t, whole, walked) && walked(done, goesOn, cur, left) && (goesOn ==> left == 0)
    ensures whole == done
  {
    WalkEnd(t, whole, done, goesOn, cur, left);
  }

  /** The chain stays inside a table of `size` entries. */
  ghost predicate Inside(t: Table, i: nat, n: nat, size: nat)
    decreases n
  {
    n == 0 || (i < size && (t(i).hasNext ==> Inside(t, t(i).next, n - 1, size)))
  }

  /** A chain depends on the entries of its table and nothing else. */
  lemma {:induction false} ChainKept(t: Table, t': Table, i: nat, n: nat, size: nat)
    requires Inside(t, i, n, size)
    requires forall k :: 0 <= k < size ==> t'(k) == t(k)
    ensures Chain(t', i, n) == Chain(t, i, n) && Inside(t', i, n, size)
    decreases n
  {
    if n > 0 && t(i).hasNext { ChainKept(t, t', t(i).next, n - 1, size); }
  }

  lemma TableKept(table: nat, m: Memory, m': Memory, size: nat)
    requires forall x: nat :: table <= x < table + 16 * size ==> At(m', x) == At(m, x)
    ensures forall k :: 0 <= k < size ==> TableAt(table, m')(k) == TableAt(table, m)(k)
  {
    forall k | 0 <= k < size ensures TableAt(table, m')(k) == TableAt(table, m)(k) {
      LoadAgrees(m, m', table + 16 * k, 16);
    }
  }

  function Span(ch: seq<Desc>): nat {
    if ch == [] then 0 else Span(ch[..|ch| - 1]) + ch[|ch| - 1].len
  }

  /** Everything the buffers of a chain hold, in chain order. */
  function Gathered(m: Memory, ch: seq<Desc>): (bs: seq<byte>)
    ensures |bs| == Span(ch)
  {
    if ch == [] then []
    else Gathered(m, ch[..|ch| - 1]) + Load(m, ch[|ch| - 1].addr, ch[|ch| - 1].len)
  }

  /** What follows the virtio-net header, as far as the packet buffer reaches. */
  function Trim(bs: seq<byte>): (p: seq<byte>)
    ensures |p| <= PACKET_BUFFER
    ensures NET_HEADER <= |bs| <= NET_HEADER + PACKET_BUFFER ==> p == bs[NET_HEADER..]
    ensures |bs| <= NET_HEADER <==> p == []
    ensures |p| == PACKET_BUFFER <==> |bs| >= NET_HEADER + PACKET_BUFFER
  {
    if |bs| <= NET_HEADER then []
    else bs[NET_HEADER..if |bs| <= NET_HEADER + PACKET_BUFFER then |bs| else NET_HEADER + PACKET_BUFFER]
  }

  /** How many header bytes are left after `before` bytes of a chain. */
  function HeaderLeft(before: nat): (h: nat)
    ensures h <= NET_HEADER && (h > 0 ==> before + h == NET_HEADER) && (h == 0 ==> before >= NET_HEADER)
  {
    if before >= NET_HEADER then 0 else NET_HEADER - before
  }

  /** How many of `more` bytes still fit behind `have`. */
  function Room(have: nat, more: nat): (n: nat)
    requires have <= PACKET_BUFFER
    ensures have + n <= PACKET_BUFFER && n <= more
    ensures n < more ==> have + n == PACKET_BUFFER
  {
    if have + more > PACKET_BUFFER then PACKET_BUFFER - have else more
  }

  lemma TrimGrows(bs: seq<byte>, more: seq<byte>)
    ensures var h := HeaderLeft(|bs|);
      Trim(bs + more) == if |more| <= h then Trim(bs)
                         else Trim(bs) + more[h..h + Room(|Trim(bs)|, |more| - h)]
  {
  }

  /** The packet a transmit chain describes. */
  function Packet(m: Memory, ch: seq<Desc>): (p: seq<byte>) {
    Trim(Gathered(m, ch))
  }

  lemma LoadTail(m: Memory, a: nat, n: nat, from: nat, k: nat)
    requires from + k <= n
    ensures Load(m, a, n)[from..from + k] == Load(m, a + from, k)
  {
  }

  lemma TrimLoad(bs: seq<byte>, m: Memory, a: nat, n: nat)
    ensures var h := HeaderLeft(|bs|);
      Trim(bs + Load(m, a, n)) == if n <= h then Trim(bs) else Trim(bs) + Load(m, a + h, Room(|Trim(bs)|, n - h))
  {
    TrimGrows(bs, Load(m, a, n));
    var h := HeaderLeft(|bs|);
    if n > h { LoadTail(m, a, n, h, Room(|Trim(bs)|, n - h)); }
  }

  lemma GatheredGrows(m: Memory, ch: seq<Desc>, d: Desc)
    ensures Gathered(m, ch + [d]) == Gathered(m, ch) + Load(m, d.addr, d.len)
    ensures Span(ch + [d]) == Span(ch) + d.len
  {
    assert (ch + [d])[..|ch|] == ch;
  }

  /** What one more descriptor adds to the packet. */
  lemma PacketGrows(m: Memory, ch: seq<Desc>, d: Desc)
    ensures var h := HeaderLeft(Span(ch));
      Packet(m, ch + [d]) == if d.len <= h then Packet(m, ch)
                             else Packet(m, ch) + Load(m, d.addr + h, Room(|Packet(m, ch)|, d.len - h))
    ensures Span(ch + [d]) == Span(ch) + d.len
  {
    GatheredGrows(m, ch, d);
    TrimLoad(Gathered(m, ch), m, d.addr, d.len);
  }

  /** The part of `[from, to)` that lies in `[lo, hi)`. */
  function Overlap(from: nat, to: nat, lo: nat, hi: nat): (n: nat) {
    var a, b := if from > lo then from else lo, if to < hi then to else hi;
    if a < b then b - a else 0
  }

  /** How many bytes of the packet a buffer behind `before` bytes of the chain holds. */
  function PartOf(before: nat, len: nat): nat {
    Overlap(before, before + len, NET_HEADER, NET_HEADER + PACKET_BUFFER)
  }

  /** What the walk reads of the next descriptor's buffer is its part of the packet. */
  lemma ReadsItsPart(m: Memory, ch: seq<Desc>, d: Desc)
    ensures var h := HeaderLeft(Span(ch));
      PartOf(Span(ch), d.len) == if d.len <= h then 0 else Room(|Packet(m, ch)|, d.len - h)
  {
  }

  /** No buffer starts where the packet buffer is already full: reading it would take a DMA of
      length zero.  And none holds more of the packet than one DMA can read. */
  predicate Accepted(ch: seq<Desc>, limit: nat) {
    ch == [] ||
    (Accepted(ch[..|ch| - 1], limit) && Takes(Span(ch[..|ch| - 1]), ch[|ch| - 1].len, limit))
  }

  /** The walk gets past a buffer of `len` bytes behind `before` bytes of the chain. */
  predicate Takes(before: nat, len: nat, limit: nat) {
    (len > 0 ==> before < NET_HEADER + PACKET_BUFFER) && PartOf(before, len) <= limit
  }

  lemma AcceptedGrows(ch: seq<Desc>, d: Desc, limit: nat)
    ensures Accepted(ch + [d], limit) <==> Accepted(ch, limit) && Takes(Span(ch), d.len, limit)
  {
    assert (ch + [d])[..|ch|] == ch;
  }

  lemma {:induction false} AcceptedPrefix(ch: seq<Desc>, whole: seq<Desc>, limit: nat)
    requires ch <= whole && Accepted(whole, limit)
    ensures Accepted(ch, limit)
  {
    if |ch| < |whole| { AcceptedPrefix(ch, whole[..|whole| - 1], limit); } else { assert ch == whole; }
  }

  /** The same, buffer by buffer: acceptance means that none starts beyond the packet, and that
      the part of the packet each one holds can be read at once. */
  lemma {:induction false} AcceptedMeans(ch: seq<Desc>, limit: nat)
    ensures Accepted(ch, limit) <==> forall j {:trigger ch[j]} :: 0 <= j < |ch| ==> TakesAt(ch, j, limit)
  {
    if ch != [] {
      var front, last := ch[..|ch| - 1], |ch| - 1;
      AcceptedMeans(front, limit);
      forall j | 0 <= j < last ensures TakesAt(front, j, limit) == TakesAt(ch, j, limit) && front[j] == ch[j] {
        assert ch[..j] == front[..j];
      }
      assert ch[..last] == front && Accepted(ch, limit) == (Accepted(front, limit) && TakesAt(ch, last, limit));
    }
  }

  /** The walk gets past buffer `j`. */
  predicate TakesAt(ch: seq<Desc>, j: nat, limit: nat)
    requires j < |ch|
  {
    Takes(Span(ch[..j]), ch[j].len, limit)
  }

  /** Every chain whose packet fits is accepted, if one DMA can read each of its buffers. */
  lemma {:induction false} FitsIsAccepted(ch: seq<Desc>, limit: nat)
    requires Span(ch) <= NET_HEADER + PACKET_BUFFER && forall j :: 0 <= j < |ch| ==> ch[j].len <= limit
    ensures Accepted(ch, limit)
  {
    if ch != [] { FitsIsAccepted(ch[..|ch| - 1], limit); }
  }

  /** A buffer that no DMA can read at once: 4097 bytes of packet in one piece over a transport
      that takes 4096. */
  lemma TooLongForOne()
    ensures var ch := [Desc(0, NET_HEADER + 4097, false, false, 0)]; !Accepted(ch, 4096) && Accepted(ch, 4097)
  {
    var d := Desc(0, NET_HEADER + 4097, false, false, 0);
    assert [] + [d] == [d];
    AcceptedGrows([], d, 4096);
    AcceptedGrows([], d, 4097);
  }

  /** The packet depends on the buffers and nothing else. */
  lemma {:induction false} GatheredKept(m: Memory, m': Memory, ch: seq<Desc>)
    requires forall k, x: nat :: 0 <= k < |ch| && ch[k].addr <= x < ch[k].addr + ch[k].len ==> At(m', x) == At(m, x)
    ensures Gathered(m', ch) == Gathered(m, ch)
  {
    if ch != [] {
      var d := ch[|ch| - 1];
      assert forall x: nat :: d.addr <= x < d.addr + d.len ==> At(m', x) == At(m, x);
      LoadAgrees(m, m', d.addr, d.len);
      var front := ch[..|ch| - 1];
      forall k, x: nat | 0 <= k < |front| && front[k].addr <= x < front[k].addr + front[k].len
        ensures At(m', x) == At(m, x)
      {
        assert ch[k] == front[k];
      }
      GatheredKept(m, m', front);
    }
  }
}
