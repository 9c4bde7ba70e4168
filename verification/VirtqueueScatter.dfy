/** The scatter half of receive processing in virtqueue_dma.c: spread a frame over the writable buffers of a chain. */
module VirtqueueScatter {
  import opened GuestMemory
  import opened DmaPort
  import opened VirtqueueChain
  import opened VirtqueueRing
  import opened Virtqueues

  /** The virtio-net header of a received frame: all zero but num_buffers, which is one. */
  const HEADER: seq<byte> := [0, 0, 0, 0, 0, 0, 0, 0, 0, 0, 1, 0]

  function Least(a: nat, b: nat): nat { if a < b then a else b }

  /** Room in the writable buffers of a chain. */
  function Space(ch: seq<Desc>): nat {
    if ch == [] then 0
    else Space(ch[..|ch| - 1]) + if ch[|ch| - 1].writable then ch[|ch| - 1].len else 0
  }

  /** Bytes 0, 1, 2, … of `s` in the writable buffers of a chain, in chain order. */
  function Fill(m: Memory, ch: seq<Desc>, s: seq<byte>): Memory {
    if ch == [] then m
    else
      var front, d := ch[..|ch| - 1], ch[|ch| - 1];
      var from := Space(front);
      if !d.writable || from >= |s| then Fill(m, front, s)
      else Store(Fill(m, front, s), d.addr, s[from..Least(from + d.len, |s|)])
  }

  /** No empty writable buffer comes up while there is something left to write: writing it would
      take a DMA of length zero. */
  predicate Pourable(ch: seq<Desc>, n: nat) {
    ch == [] || (Pourable(ch[..|ch| - 1], n) && (ch[|ch| - 1].writable && ch[|ch| - 1].len == 0 ==> Space(ch[..|ch| - 1]) >= n))
  }

  /** What is written for a frame when the first writable buffer has `first` bytes: as much of the
      header as that buffer takes, then the frame. */
  function Stream(first: nat, frame: seq<byte>): (s: seq<byte>)
    ensures first >= NET_HEADER ==> s == HEADER + frame
  {
    HEADER[..Least(first, NET_HEADER)] + frame
  }

  lemma StreamParts(m: Memory, d: Desc, frame: seq<byte>, n: nat)
    requires n == Least(|frame|, d.len - Least(d.len, NET_HEADER))
    ensures var h, s := Least(d.len, NET_HEADER), Stream(d.len, frame);
      && h + n == Least(d.len, |s|)
      && Store(m, d.addr, s[..h + n]) == Store(Store(m, d.addr, HEADER[..h]), d.addr + h, frame[..n])
  {
    var h, s := Least(d.len, NET_HEADER), Stream(d.len, frame);
    assert s[..h + n] == HEADER[..h] + frame[..n];
    StoreAppend(m, d.addr, HEADER[..h], frame[..n]);
  }

  /** The first writable descriptor of a chain: header and frame data. */
  method InjectFirst(dma: Dma, d: Desc, frame: seq<byte>) returns (ok: bool, written: nat)
    requires frame != []
    modifies dma
    ensures var s := Stream(d.len, frame);
      if ok then d.len > 0 && written == Least(d.len, |s|) && dma.mem == Store(old(dma.mem), d.addr, s[..written]) && dma.faults == old(dma.faults)
      else dma.faults > old(dma.faults) || d.len == 0
    ensures forall x: nat :: !(d.addr <= x < d.addr + d.len) ==> At(dma.mem, x) == At(old(dma.mem), x)
  {
    var hdrLen := Least(d.len, NET_HEADER);
    var n := Least(|frame|, d.len - hdrLen);
    StreamParts(dma.mem, d, frame, n);
    ok := dma.Write(d.addr, HEADER[..hdrLen]);
    if !ok { return false, 0; }
    written := hdrLen + n;
    if d.len - hdrLen > 0 { ok := dma.Write(d.addr + hdrLen, frame[..n]); }
  }

  /** A later writable descriptor: more frame data, if there is any left. */
  method InjectMore(dma: Dma, d: Desc, frame: seq<byte>, remaining: nat) returns (ok: bool, n: nat)
    requires remaining <= |frame|
    modifies dma
    ensures ok ==> n == Least(d.len, remaining) && dma.faults == old(dma.faults) && (remaining > 0 ==> d.len > 0)
    ensures ok ==> dma.mem == if remaining == 0 then old(dma.mem)
                              else Store(old(dma.mem), d.addr, frame[|frame| - remaining..|frame| - remaining + n])
    ensures !ok ==> dma.faults > old(dma.faults) || (remaining > 0 && d.len == 0)
    ensures forall x: nat :: !(d.addr <= x < d.addr + d.len) ==> At(dma.mem, x) == At(old(dma.mem), x)
  {
    if remaining == 0 { return true, 0; }
    n := Least(remaining, d.len);
    ok := dma.Write(d.addr, frame[|frame| - remaining..|frame| - remaining + n]);
  }

  /** Some descriptor of the chain is writable. */
  predicate Started(ch: seq<Desc>) {
    ch != [] && (Started(ch[..|ch| - 1]) || ch[|ch| - 1].writable)
  }

  /** Length of the first writable buffer. */
  function FirstLen(ch: seq<Desc>): nat {
    if ch == [] then 0
    else if Started(ch[..|ch| - 1]) then FirstLen(ch[..|ch| - 1])
    else if ch[|ch| - 1].writable then ch[|ch| - 1].len else 0
  }

  lemma {:induction false} FirstLenPrefix(done: seq<Desc>, whole: seq<Desc>)
    requires done <= whole && Started(done)
    ensures Started(whole) && FirstLen(whole) == FirstLen(done)
  {
    if |done| < |whole| { FirstLenPrefix(done, whole[..|whole| - 1]); } else { assert done == whole; }
  }

  lemma {:induction false} NotStarted(ch: seq<Desc>)
    requires !Started(ch)
    ensures Space(ch) == 0
  {
    if ch != [] { NotStarted(ch[..|ch| - 1]); }
  }

  /** Address `x` lies in a writable buffer of the chain. */
  predicate InWritable(ch: seq<Desc>, x: nat) {
    ch != [] && (InWritable(ch[..|ch| - 1], x)
                 || (ch[|ch| - 1].writable && ch[|ch| - 1].addr <= x < ch[|ch| - 1].addr + ch[|ch| - 1].len))
  }

  lemma {:induction false} InWritablePrefix(ch: seq<Desc>, k: nat, x: nat)
    requires k < |ch| && ch[k].writable && ch[k].addr <= x < ch[k].addr + ch[k].len
    ensures InWritable(ch, x)
  {
    if k < |ch| - 1 { InWritablePrefix(ch[..|ch| - 1], k, x); }
  }

  lemma {:induction false} PourablePrefix(done: seq<Desc>, whole: seq<Desc>, n: nat)
    requires done <= whole && Pourable(whole, n)
    ensures Pourable(done, n)
  {
    if |done| < |whole| { PourablePrefix(done, whole[..|whole| - 1], n); } else { assert done == whole; }
  }

  /** The counters of the walk when `done` is behind it. */
  ghost predicate Counted(done: seq<Desc>, s: seq<byte>, frameLen: nat, started: bool, remaining: nat, written: nat) {
    && started == Started(done) && written == Least(Space(done), |s|)
    && remaining == (if started then |s| - written else frameLen) && remaining <= frameLen
    && Pourable(done, |s|)
  }

  lemma CountedNext(done: seq<Desc>, d: Desc, m: Memory, s: seq<byte>, frameLen: nat, started: bool, remaining: nat, written: nat)
    requires Counted(done, s, frameLen, started, remaining, written) && 0 < frameLen <= |s|
    requires !started && d.writable ==> |s| - frameLen <= d.len
    ensures !d.writable ==>
      Counted(done + [d], s, frameLen, started, remaining, written) && Fill(m, done + [d], s) == Fill(m, done, s)
    ensures d.writable && !started && d.len > 0 ==>
      var n := Least(d.len, |s|);
      Counted(done + [d], s, frameLen, true, |s| - n, n) && Fill(m, done + [d], s) == Store(Fill(m, done, s), d.addr, s[..n])
    ensures d.writable && started && remaining == 0 ==>
      Counted(done + [d], s, frameLen, true, 0, written) && Fill(m, done + [d], s) == Fill(m, done, s)
    ensures d.writable && started && remaining > 0 && d.len > 0 ==>
      var n := Least(d.len, remaining);
      && Counted(done + [d], s, frameLen, true, remaining - n, written + n)
      && Fill(m, done + [d], s) == Store(Fill(m, done, s), d.addr, s[written..written + n])
    ensures d.writable && d.len == 0 && (!started || remaining > 0) ==> !Pourable(done + [d], |s|)
  {
    assert (done + [d])[..|done|] == done;
    if !started { NotStarted(done); }
  }

  /** One descriptor of the walk. */
  method InjectNext(dma: Dma, d: Desc, frame: seq<byte>, started: bool, remaining: nat, written: nat,
                    ghost done: seq<Desc>, ghost s: seq<byte>, ghost m: Memory)
    returns (ok: bool, started': bool, remaining': nat, written': nat)
    requires frame != [] && |frame| <= |s| && s[|s| - |frame|..] == frame
    requires !started && d.writable ==> s == Stream(d.len, frame)
    requires Counted(done, s, |frame|, started, remaining, written) && dma.mem == Fill(m, done, s)
    modifies dma
    ensures ok ==> Counted(done + [d], s, |frame|, started', remaining', written') && dma.faults == old(dma.faults)
    ensures ok ==> dma.mem == Fill(m, done + [d], s)
    ensures !ok ==> dma.faults > old(dma.faults) || !Pourable(done + [d], |s|)
    ensures forall x: nat :: !(d.writable && d.addr <= x < d.addr + d.len) ==> At(dma.mem, x) == At(old(dma.mem), x)
  {
    CountedNext(done, d, m, s, |frame|, started, remaining, written);
    ok, started', remaining', written' := true, started, remaining, written;
    if !d.writable { return; }
    if !started {
      ok, written' := InjectFirst(dma, d, frame);
      started', remaining' := true, if ok then |frame| - (written' - Least(d.len, NET_HEADER)) else 0;
    } else {
      var n;
      ok, n := InjectMore(dma, d, frame, remaining);
      if !ok { return; }
      assert s[written..written + n] == frame[|frame| - remaining..|frame| - remaining + n];
      remaining', written' := remaining - n, written + n;
    }
  }

  /** What is written for a frame into a chain. */
  function StreamFor(ch: seq<Desc>, frame: seq<byte>): (s: seq<byte>)
    ensures |frame| <= |s| && s[|s| - |frame|..] == frame
  {
    Stream(FirstLen(ch), frame)
  }

  ghost predicate StreamIs(ch: seq<Desc>, frame: seq<byte>, s: seq<byte>) {
    forall f {:trigger StreamFor(ch, f)} :: f == frame ==> s == StreamFor(ch, f)
  }

  /** Nothing outside the writable buffers has changed. */
  ghost predicate OnlyWritable(ch: seq<Desc>, m: Memory, m': Memory) {
    forall x: nat :: !InWritable(ch, x) ==> At(m', x) == At(m, x)
  }

  ghost predicate OffTable(ch: seq<Desc>, table: nat, size: nat) {
    forall x: nat :: table <= x < table + 16 * size ==> !InWritable(ch, x)
  }

  lemma StillShows(t: Table, table: nat, m: Memory, m': Memory, size: nat, ch: seq<Desc>)
    requires ShowsUpTo(t, table, m, size) && OffTable(ch, table, size) && OnlyWritable(ch, m, m')
    ensures ShowsUpTo(t, table, m', size)
  {
    ShowsKept(t, table, m, m', size);
  }

  lemma NextWritable(done: seq<Desc>, d: Desc, whole: seq<Desc>, m: Memory, m': Memory)
    requires done + [d] <= whole
    requires forall x: nat :: !(d.writable && d.addr <= x < d.addr + d.len) ==> At(m', x) == At(m, x)
    ensures OnlyWritable(whole, m, m')
  {
    forall x: nat | !InWritable(whole, x) ensures At(m', x) == At(m, x) {
      assert whole[|done|] == (done + [d])[|done|] == d;
      if d.writable && d.addr <= x < d.addr + d.len { InWritablePrefix(whole, |done|, x); }
    }
  }

  lemma NextStream(done: seq<Desc>, d: Desc, whole: seq<Desc>, frame: seq<byte>)
    requires done + [d] <= whole && !Started(done) && d.writable
    ensures StreamFor(whole, frame) == Stream(d.len, frame)
  {
    assert (done + [d])[..|done|] == done;
    FirstLenPrefix(done + [d], whole);
  }

  /** Counters of the walk. */
  datatype Counters = Counters(started: bool, remaining: nat, written: nat)

  /** `reached` describes where the walk is when `done` is behind it. */
  ghost predicate Describes(m: Memory, s: seq<byte>, frameLen: nat, reached: (seq<Desc>, Memory, Counters) -> bool) {
    forall done, m', c {:trigger Reached(m, s, frameLen, done, m', c)} ::
      reached(done, m', c) == Reached(m, s, frameLen, done, m', c)
  }

  ghost predicate Reached(m: Memory, s: seq<byte>, frameLen: nat, done: seq<Desc>, m': Memory, c: Counters) {
    Counted(done, s, frameLen, c.started, c.remaining, c.written) && m' == Fill(m, done, s)
  }

  /** The walk of rx_inject_one. */
  method InjectChain(vq: Virtqueue, dma: Dma, head: nat, frame: seq<byte>, limit: nat, ghost t: Table,
                     ghost whole: seq<Desc>, ghost s: seq<byte>, ghost reached: (seq<Desc>, Memory, Counters) -> bool)
    returns (ok: bool, c: Counters)
    requires frame != [] && StreamIs(whole, frame, s) && OffTable(whole, vq.desc, vq.size)
    requires ShowsUpTo(t, vq.desc, dma.mem, vq.size) && Inside(t, head, limit, vq.size)
    requires Walked(t, whole, [], true, head, limit) && Describes(dma.mem, s, |frame|, reached)
    modifies dma
    ensures OnlyWritable(whole, old(dma.mem), dma.mem)
    requires reached([], dma.mem, Counters(false, |frame|, 0))
    ensures ok ==> reached(whole, dma.mem, c) && dma.faults == old(dma.faults)
    ensures !ok ==> dma.faults > old(dma.faults) || !Pourable(whole, |s|)
  {
    ghost var m, done := dma.mem, [];
    var chainN, cur, hasNext := 0, head, true;
    c := Counters(false, |frame|, 0);
    while hasNext && chainN < limit
      invariant chainN <= limit && Walked(t, whole, done, hasNext, cur, limit - chainN)
      invariant hasNext ==> Inside(t, cur, limit - chainN, vq.size)
      invariant reached(done, dma.mem, c) && OnlyWritable(whole, m, dma.mem) && dma.faults == old(dma.faults)
      decreases limit - chainN
    {
      var d: Desc;
      ok, d, c := InjectStep(vq, dma, cur, frame, c, t, done, whole, s, m, reached, limit - chainN);
      if !ok { return; }
      done := done + [d];
      hasNext, cur, chainN := d.hasNext, d.next, chainN + 1;
    }
    WalkEnd(t, whole, done, hasNext, cur, limit - chainN);
    ok := true;
  }

  /** rx_inject_one.  Only writable buffers are touched; on success they hold the stream, cut
      where their room ends. */
  method InjectOne(vq: Virtqueue, dma: Dma, head: nat, frame: seq<byte>, ghost ch: seq<Desc>, ghost t: Table)
    returns (ok: bool, written: nat)
    requires frame != [] && ShowsUpTo(t, vq.desc, dma.mem, vq.size) && Inside(t, head, MAX_CHAIN, vq.size)
    requires ch == Chain(t, head, MAX_CHAIN) && OffTable(ch, vq.desc, vq.size)
    modifies dma
    ensures OnlyWritable(ch, old(dma.mem), dma.mem)
    ensures var s := StreamFor(ch, frame);
      && (ok ==> Pourable(ch, |s|) && written == Least(Space(ch), |s|) && dma.mem == Fill(old(dma.mem), ch, s) && dma.faults == old(dma.faults))
      && (!ok ==> dma.faults > old(dma.faults) || !Pourable(ch, |s|))
  {
    ghost var m, s := dma.mem, StreamFor(ch, frame);
    ghost var reached := (done, m', c) => Reached(m, s, |frame|, done, m', c);
    var c;
    ok, c := InjectChain(vq, dma, head, frame, MAX_CHAIN, t, ch, s, reached);
    written := c.written;
    assert ok ==> Reached(m, s, |frame|, ch, dma.mem, c);
  }

  /** Fetch one descriptor and inject its share of the frame. */
  method InjectStep(vq: Virtqueue, dma: Dma, cur: nat, frame: seq<byte>, c: Counters, ghost t: Table, ghost done: seq<Desc>,
                    ghost whole: seq<Desc>, ghost s: seq<byte>, ghost m: Memory,
                    ghost reached: (seq<Desc>, Memory, Counters) -> bool, ghost left: nat)
    returns (ok: bool, d: Desc, c': Counters)
    requires frame != [] && StreamIs(whole, frame, s) && OffTable(whole, vq.desc, vq.size)
    requires ShowsUpTo(t, vq.desc, m, vq.size) && cur < vq.size
    requires left > 0 && Walked(t, whole, done, true, cur, left)
    requires Describes(m, s, |frame|, reached) && reached(done, dma.mem, c) && OnlyWritable(whole, m, dma.mem)
    modifies dma
    ensures OnlyWritable(whole, m, dma.mem)
    ensures ok ==> d == t(cur) && Walked(t, whole, done + [d], d.hasNext, d.next, left - 1)
    ensures ok ==> reached(done + [d], dma.mem, c') && dma.faults == old(dma.faults)
    ensures !ok ==> dma.faults > old(dma.faults) || !Pourable(whole, |s|)
  {
    c' := c;
    assert s == StreamFor(whole, frame) && Reached(m, s, |frame|, done, dma.mem, c);
    WalkNext(t, whole, done, cur, left);
    StillShows(t, vq.desc, m, dma.mem, vq.size, whole);
    ok, d := FetchDesc(vq, dma, cur, t);
    if !ok { return; }
    if !c.started && d.writable { NextStream(done, d, whole, frame); }
    ghost var before := dma.mem;
    var started, remaining, written;
    ok, started, remaining, written := InjectNext(dma, d, frame, c.started, c.remaining, c.written, done, s, m);
    c' := Counters(started, remaining, written);
    NextWritable(done, d, whole, before, dma.mem);
    if ok {
      assert Reached(m, s, |frame|, done + [d], dma.mem, c');
    } else if Pourable(whole, |s|) {
      PourablePrefix(done + [d], whole, |s|);
    }
  }

  /** What the writable buffers of a chain hold, in chain order. */
  function Landed(m: Memory, ch: seq<Desc>): (bs: seq<byte>)
    ensures |bs| == Space(ch)
  {
    if ch == [] then []
    else Landed(m, ch[..|ch| - 1]) + if ch[|ch| - 1].writable then Load(m, ch[|ch| - 1].addr, ch[|ch| - 1].len) else []
  }

  /** No two writable buffers of the chain overlap. */
  ghost predicate Apart(ch: seq<Desc>) {
    ch == [] || (Apart(ch[..|ch| - 1]) && Misses(ch[|ch| - 1], ch[..|ch| - 1]))
  }

  ghost predicate Misses(d: Desc, ch: seq<Desc>) {
    forall x: nat :: d.writable && d.addr <= x < d.addr + d.len ==> !InWritable(ch, x)
  }

  lemma {:induction false} LandedKept(m: Memory, m': Memory, ch: seq<Desc>)
    requires forall x: nat :: InWritable(ch, x) ==> At(m', x) == At(m, x)
    ensures Landed(m', ch) == Landed(m, ch)
  {
    if ch != [] {
      var front, d := ch[..|ch| - 1], ch[|ch| - 1];
      LandedKept(m, m', front);
      if d.writable { LoadAgrees(m, m', d.addr, d.len); }
    }
  }

  lemma ChunkLands(m: Memory, d: Desc, chunk: seq<byte>)
    requires |chunk| <= d.len
    ensures Load(Store(m, d.addr, chunk), d.addr, d.len)[..|chunk|] == chunk
  {
  }

  lemma ScatterMore(f: Memory, front: seq<Desc>, d: Desc, s: seq<byte>, chunk: seq<byte>)
    requires d.writable && Misses(d, front) && Space(front) < |s|
    requires Landed(f, front) == s[..Space(front)]
    requires chunk == s[Space(front)..Least(Space(front) + d.len, |s|)]
    ensures var f' := Store(f, d.addr, chunk);
      (Landed(f', front) + Load(f', d.addr, d.len))[..Space(front) + |chunk|] == s[..Space(front) + |chunk|]
  {
    LandedKept(f, Store(f, d.addr, chunk), front);
    ChunkLands(f, d, chunk);
    assert s[..Space(front) + |chunk|] == s[..Space(front)] + chunk;
  }

  /** The stream, as far as there is room, is where it belongs. */
  ghost predicate Arrived(m: Memory, ch: seq<Desc>, s: seq<byte>) {
    Landed(m, ch)[..Least(Space(ch), |s|)] == s[..Least(Space(ch), |s|)]
  }

  lemma LandedStep(m: Memory, front: seq<Desc>, d: Desc)
    ensures Landed(m, front + [d]) == Landed(m, front) + if d.writable then Load(m, d.addr, d.len) else []
    ensures Space(front + [d]) == Space(front) + if d.writable then d.len else 0
  {
    assert (front + [d])[..|front|] == front;
  }

  /** A descriptor that takes nothing leaves what has arrived. */
  lemma ArrivedSkip(f: Memory, front: seq<Desc>, d: Desc, s: seq<byte>)
    requires Arrived(f, front, s) && (!d.writable || Space(front) >= |s|)
    ensures Arrived(f, front + [d], s)
  {
    LandedStep(f, front, d);
    PrefixOfSum(Landed(f, front), if d.writable then Load(f, d.addr, d.len) else [], Least(Space(front), |s|));
  }

  lemma PrefixOfSum(a: seq<byte>, b: seq<byte>, n: nat)
    requires n <= |a|
    ensures (a + b)[..n] == a[..n]
  {
  }

  /** A descriptor that takes its share adds it to what has arrived. */
  lemma ArrivedStore(f: Memory, front: seq<Desc>, d: Desc, s: seq<byte>, chunk: seq<byte>)
    requires Arrived(f, front, s) && Misses(d, front) && d.writable && Space(front) < |s|
    requires chunk == s[Space(front)..Least(Space(front) + d.len, |s|)]
    ensures Arrived(Store(f, d.addr, chunk), front + [d], s)
  {
    assert Landed(f, front) == Landed(f, front)[..Space(front)];
    LandedStep(Store(f, d.addr, chunk), front, d);
    ScatterMore(f, front, d, s, chunk);
  }

  lemma FillStep(m: Memory, front: seq<Desc>, d: Desc, s: seq<byte>)
    ensures Fill(m, front + [d], s) ==
      if !d.writable || Space(front) >= |s| then Fill(m, front, s)
      else Store(Fill(m, front, s), d.addr, s[Space(front)..Least(Space(front) + d.len, |s|)])
  {
    assert (front + [d])[..|front|] == front;
  }

  lemma ScatteredStep(m: Memory, front: seq<Desc>, d: Desc, s: seq<byte>)
    requires Arrived(Fill(m, front, s), front, s) && Misses(d, front)
    ensures Arrived(Fill(m, front + [d], s), front + [d], s)
  {
    FillStep(m, front, d, s);
    var f := Fill(m, front, s);
    if !d.writable || Space(front) >= |s| {
      ArrivedSkip(f, front, d, s);
    } else {
      ArrivedStore(f, front, d, s, s[Space(front)..Least(Space(front) + d.len, |s|)]);
    }
  }

  /** Scattering writes the stream, in chain order, cut where the room ends. */
  lemma {:induction false} Scattered(m: Memory, ch: seq<Desc>, s: seq<byte>)
    requires Apart(ch)
    ensures Arrived(Fill(m, ch, s), ch, s)
  {
    if ch != [] {
      var front, d := ch[..|ch| - 1], ch[|ch| - 1];
      Scattered(m, front, s);
      ScatteredStep(m, front, d, s);
      assert ch == front + [d];
    }
  }
}
