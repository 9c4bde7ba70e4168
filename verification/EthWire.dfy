/** One direction of an Ethernet link as eth_port.c and eth_shm.c run it: stamped frames go into a
    ring, the peer takes them out. */
module EthWire {
  import opened GuestMemory
  import opened LinkModel
  import opened Xorshift
  import opened Subsequences
  import Modular

  const RING_DEPTH: nat := 256

  datatype EthFrame = EthFrame(len: nat, flags: nat, seqNo: nat, timestampNs: nat, data: seq<byte>)

  /** The sending port, the ring, and what has passed through it.  `line` lists the frames that
      got a deadline, `full` counts those of them a full ring turned away, and `rejected` keeps
      that count for every frame the ring took. */
  datatype Wire = Wire(
    dice: Dice, token: nat, seqTx: nat, outstanding: nat, time: nat, ring: seq<EthFrame>,
    taken: seq<EthFrame>, line: seq<Frame>, full: nat, rejected: seq<nat>)

  /** Frames the ring took, in order. */
  function Accepted(w: Wire): seq<EthFrame> { w.taken + w.ring }

  datatype Rc = Sent | Full | Blocked | Lost

  function CanSend(c: Config, w: Wire): bool { c.fcWindow == 0 || w.outstanding < c.fcWindow }

  function Stamped(c: Config, w: Wire, f: EthFrame, now: nat): EthFrame {
    f.(seqNo := w.seqTx, timestampNs := Stamp(c, w.token, Frame(f.len, now)))
  }

  /** Stamp a frame and put it into the ring, if there is room. */
  function Transmit(c: Config, w: Wire, f: EthFrame, now: nat): (r: (Rc, Wire)) {
    var g := Stamped(c, w, f, now);
    var w1 := w.(token := NextToken(c, w.token, Frame(f.len, now)), seqTx := (w.seqTx + 1) % U32,
                 line := w.line + [Frame(f.len, now)]);
    if |w.ring| == RING_DEPTH - 1 then (Full, w1.(full := w.full + 1))
    else (Sent, w1.(outstanding := (w.outstanding + 1) % U32, time := g.timestampNs, ring := w.ring + [g],
                    rejected := w.rejected + [w.full]))
  }

  /** eth_port_send */
  function Send(c: Config, w: Wire, f: EthFrame, now: nat): (r: (Rc, Wire)) {
    if !CanSend(c, w) then (Blocked, w)
    else
      var (drop, dice) := Roll(c, w.dice);
      if drop then (Lost, w.(dice := dice)) else Transmit(c, w.(dice := dice), f, now)
  }

  datatype Event = SendFrame(frame: EthFrame, now: nat) | PeerTakes | Complete

  function Do(c: Config, w: Wire, e: Event): Wire {
    match e
    case SendFrame(f, now) => Send(c, w, f, now).1
    case PeerTakes => if w.ring == [] then w else w.(taken := w.taken + [w.ring[0]], ring := w.ring[1..])
    case Complete => w.(outstanding := if w.outstanding > 0 then w.outstanding - 1 else 0)
  }

  function Run(c: Config, w: Wire, es: seq<Event>): Wire {
    if es == [] then w else Do(c, Run(c, w, es[..|es| - 1]), es[|es| - 1])
  }

  function Fresh(dice: Dice): Wire { Wire(dice, 0, 0, 0, 0, [], [], [], 0, []) }

  // ---------- sequence numbers ----------

  /** Frame k was stamped after k frames the ring took and rejected[k] frames it turned away. */
  ghost predicate Numbers(accepted: seq<EthFrame>, rejected: seq<nat>, full: nat) {
    && |accepted| == |rejected|
    && (forall k :: 0 <= k < |rejected| ==> accepted[k].seqNo == (k + rejected[k]) % U32)
    && (forall j, k :: 0 <= j <= k < |rejected| ==> rejected[j] <= rejected[k] <= full)
  }

  ghost predicate Numbered(w: Wire) {
    Numbers(Accepted(w), w.rejected, w.full) && |w.line| == |w.rejected| + w.full && w.seqTx == |w.line| % U32
  }

  lemma NumbersGrow(accepted: seq<EthFrame>, rejected: seq<nat>, full: nat, g: EthFrame)
    requires Numbers(accepted, rejected, full) && g.seqNo == (|rejected| + full) % U32
    ensures Numbers(accepted + [g], rejected + [full], full)
  {
  }

  lemma SendNumbered(c: Config, w: Wire, f: EthFrame, now: nat)
    requires Numbered(w)
    ensures Numbered(Send(c, w, f, now).1)
  {
    var g := Stamped(c, w, f, now);
    Modular.Successor(|w.line|, U32);
    NumbersGrow(Accepted(w), w.rejected, w.full, g);
    assert w.taken + (w.ring + [g]) == Accepted(w) + [g];
  }

  // ---------- time ----------

  /** Frame k carries the deadline the line had when it was stamped. */
  ghost predicate Stamps(c: Config, accepted: seq<EthFrame>, rejected: seq<nat>, line: seq<Frame>) {
    && |accepted| == |rejected|
    && (forall k :: 0 <= k < |rejected| ==> k + rejected[k] < |line|)
    && (forall k :: 0 <= k < |rejected| ==> accepted[k].timestampNs == Deadline(c, line[..k + rejected[k] + 1]))
  }

  ghost predicate TimeIs(time: nat, accepted: seq<EthFrame>) {
    time == if accepted == [] then 0 else accepted[|accepted| - 1].timestampNs
  }

  /** All of this as long as no 64-bit sum wraps. */
  ghost predicate OnTime(c: Config, w: Wire) {
    && TimeIs(w.time, Accepted(w))
    && (Deadline(c, w.line) < U64 ==> w.token == Busy(c.rateMbps, w.line) && Stamps(c, Accepted(w), w.rejected, w.line))
  }

  lemma StampsGrow(c: Config, accepted: seq<EthFrame>, rejected: seq<nat>, line: seq<Frame>, f: Frame)
    requires Stamps(c, accepted, rejected, line)
    ensures Stamps(c, accepted, rejected, line + [f])
    ensures forall g: EthFrame, full: nat :: g.timestampNs == Deadline(c, line + [f]) && |line| == |rejected| + full ==>
      Stamps(c, accepted + [g], rejected + [full], line + [f])
  {
    assert forall k :: 0 <= k < |rejected| ==> (line + [f])[..k + rejected[k] + 1] == line[..k + rejected[k] + 1];
    assert (line + [f])[..|line| + 1] == line + [f];
  }

  lemma SendOnTime(c: Config, w: Wire, f: EthFrame, now: nat)
    requires Numbered(w) && OnTime(c, w)
    ensures OnTime(c, Send(c, w, f, now).1)
  {
    var x, g := Frame(f.len, now), Stamped(c, w, f, now);
    assert w.taken + (w.ring + [g]) == Accepted(w) + [g];
    if Deadline(c, w.line + [x]) < U64 {
      OneMoreBusy(c, w.line, x);
      DeadlineFits(c, w.line, x, w.token);
      StampsGrow(c, Accepted(w), w.rejected, w.line, x);
    }
  }

  // ---------- the invariant ----------

  /** Outstanding frames stay within the window. */
  ghost predicate InWindow(c: Config, w: Wire) {
    c.fcWindow > 0 ==> w.outstanding <= c.fcWindow
  }

  ghost predicate Inv(c: Config, w: Wire) {
    |w.ring| < RING_DEPTH && Numbered(w) && OnTime(c, w) && InWindow(c, w)
  }

  lemma TakeInv(c: Config, w: Wire)
    requires Inv(c, w)
    ensures Inv(c, Do(c, w, PeerTakes))
  {
    TakeMoves(c, w);
  }

  lemma SendInWindow(c: Config, w: Wire, f: EthFrame, now: nat)
    requires |w.ring| < RING_DEPTH && InWindow(c, w) && c.fcWindow < U32
    ensures var w' := Send(c, w, f, now).1; |w'.ring| < RING_DEPTH && InWindow(c, w')
  {
  }

  lemma StepInv(c: Config, w: Wire, e: Event)
    requires Inv(c, w) && c.fcWindow < U32
    ensures Inv(c, Do(c, w, e))
  {
    match e
    case SendFrame(f, now) =>
      SendNumbered(c, w, f, now);
      SendOnTime(c, w, f, now);
      SendInWindow(c, w, f, now);
    case PeerTakes => TakeInv(c, w);
    case Complete =>
  }

  lemma {:induction false} RunInv(c: Config, dice: Dice, es: seq<Event>)
    requires c.fcWindow < U32
    ensures Inv(c, Run(c, Fresh(dice), es))
  {
    if es != [] {
      RunInv(c, dice, es[..|es| - 1]);
      StepInv(c, Run(c, Fresh(dice), es[..|es| - 1]), es[|es| - 1]);
    }
  }

  // ---------- what a run guarantees ----------

  lemma ModStep(a: nat, d: nat)
    ensures (a + d) % U32 == (a % U32 + d) % U32
  {
    var q := a / U32;
    assert a + d == q * U32 + (a % U32 + d);
    var r := a % U32 + d;
    assert r == (r / U32) * U32 + r % U32;
    assert a + d == (q + r / U32) * U32 + r % U32;
    Modular.Remainder(a + d, q + r / U32, r % U32, U32);
  }

  /** Frames arrive with sequence numbers whose gaps count the frames a full ring turned away in
      between; up to 2^32 stamped frames, sequence numbers strictly increase. */
  ghost predicate InSequence(w: Wire, j: nat, k: nat)
    requires j < k < |w.taken| <= |w.rejected|
  {
    && w.rejected[j] <= w.rejected[k]
    && w.taken[k].seqNo == (w.taken[j].seqNo + (k - j) + (w.rejected[k] - w.rejected[j])) % 0x1_0000_0000
    && (|w.line| <= 0x1_0000_0000 ==> w.taken[j].seqNo < w.taken[k].seqNo)
  }

  lemma InSequenceAt(w: Wire, j: nat, k: nat)
    requires Numbered(w) && j < k < |w.taken|
    ensures |w.taken| <= |w.rejected| && InSequence(w, j, k)
  {
    NumbersMean(Accepted(w), w.rejected, w.full, j, k);
    assert Accepted(w)[j] == w.taken[j] && Accepted(w)[k] == w.taken[k];
  }

  lemma SequenceNumbers(c: Config, dice: Dice, es: seq<Event>, j: nat, k: nat)
    requires c.fcWindow < U32 && j < k < |Run(c, Fresh(dice), es).taken|
    ensures var w := Run(c, Fresh(dice), es); |w.taken| <= |w.rejected| && InSequence(w, j, k)
  {
    RunInv(c, dice, es);
    InSequenceAt(Run(c, Fresh(dice), es), j, k);
  }

  lemma NumbersMean(accepted: seq<EthFrame>, rejected: seq<nat>, full: nat, j: nat, k: nat)
    requires Numbers(accepted, rejected, full) && j < k < |accepted|
    ensures rejected[j] <= rejected[k]
    ensures accepted[k].seqNo == (accepted[j].seqNo + (k - j) + (rejected[k] - rejected[j])) % U32
    ensures |accepted| + full <= U32 ==> accepted[j].seqNo < accepted[k].seqNo
  {
    ModStep(j + rejected[j], (k - j) + (rejected[k] - rejected[j]));
  }

  /** Stamps of accepted frames never decrease, whatever the clock handed in does, and between
      two of them the line carries no more than its rate allows, rejected frames included. */
  ghost predicate Shaped(c: Config, w: Wire, j: nat, k: nat)
    requires j < k < |Accepted(w)| == |w.rejected|
  {
    var a, b := j + w.rejected[j] + 1, k + w.rejected[k] + 1;
    var t, u := Accepted(w)[j].timestampNs, Accepted(w)[k].timestampNs;
    && a < b <= |w.line| && t <= u <= w.time
    && (c.rateMbps > 0 ==> 8000 * Bytes(w.line[a..b]) <= c.rateMbps * (u - t) + (b - a) * (c.rateMbps - 1))
  }

  lemma ShapedAt(c: Config, w: Wire, j: nat, k: nat)
    requires Inv(c, w) && j < k < |Accepted(w)| && Deadline(c, w.line) < U64
    ensures |w.rejected| == |Accepted(w)| && Shaped(c, w, j, k)
  {
    StampsMean(c, Accepted(w), w.rejected, w.full, w.line, j, k);
    StampsMean(c, Accepted(w), w.rejected, w.full, w.line, k, |Accepted(w)| - 1);
  }

  lemma StampsInOrder(c: Config, dice: Dice, es: seq<Event>, j: nat, k: nat)
    requires c.fcWindow < U32
    requires var w := Run(c, Fresh(dice), es); j < k < |Accepted(w)| && Deadline(c, w.line) < 0x1_0000_0000_0000_0000
    ensures var w := Run(c, Fresh(dice), es); |w.rejected| == |Accepted(w)| && Shaped(c, w, j, k)
  {
    RunInv(c, dice, es);
    ShapedAt(c, Run(c, Fresh(dice), es), j, k);
  }

  lemma StampsMean(c: Config, accepted: seq<EthFrame>, rejected: seq<nat>, full: nat, line: seq<Frame>, j: nat, k: nat)
    requires Numbers(accepted, rejected, full) && Stamps(c, accepted, rejected, line) && j <= k < |accepted|
    ensures j + rejected[j] <= k + rejected[k] < |line| && (j < k ==> j + rejected[j] < k + rejected[k])
    ensures accepted[j].timestampNs <= accepted[k].timestampNs
    ensures c.rateMbps > 0 ==>
      var a, b := j + rejected[j] + 1, k + rejected[k] + 1;
      8000 * Bytes(line[a..b]) <= c.rateMbps * (accepted[k].timestampNs - accepted[j].timestampNs) + (b - a) * (c.rateMbps - 1)
  {
    var a, b := j + rejected[j] + 1, k + rejected[k] + 1;
    DeadlineGrows(c, line, a, b);
    assert |line[a..b]| == b - a;
    if c.rateMbps > 0 {
      assert line[..a] + line[a..b] == line[..b];
      RateBound(c, line[..a], line[a..b]);
    }
  }

  lemma {:induction false} DeadlineGrows(c: Config, fs: seq<Frame>, a: nat, b: nat)
    requires a <= b <= |fs|
    ensures Deadline(c, fs[..a]) <= Deadline(c, fs[..b])
    decreases b - a
  {
    if a < b {
      DeadlineGrows(c, fs, a, b - 1);
      OneMoreBusy(c, fs[..b - 1], fs[b - 1]);
      assert fs[..b - 1] + [fs[b - 1]] == fs[..b];
    }
  }

  function Completions(es: seq<Event>): nat {
    if es == [] then 0 else Completions(es[..|es| - 1]) + if es[|es| - 1].Complete? then 1 else 0
  }

  lemma SendCounts(c: Config, w: Wire, f: EthFrame, now: nat)
    requires 0 < c.fcWindow < U32
    ensures var w' := Send(c, w, f, now).1;
      w' == w.(dice := w'.dice) || |Accepted(w')| - w'.outstanding == |Accepted(w)| - w.outstanding
  {
  }

  /** Flow control: never more in flight than the window, and never more accepted in total than
      the window and the completions reported to the sending port. */
  lemma {:induction false} WithinWindow(c: Config, dice: Dice, es: seq<Event>)
    requires 0 < c.fcWindow < U32
    ensures var w := Run(c, Fresh(dice), es);
      w.outstanding <= c.fcWindow && |Accepted(w)| <= w.outstanding + Completions(es)
  {
    RunInv(c, dice, es);
    if es != [] {
      var front, e := es[..|es| - 1], es[|es| - 1];
      var w := Run(c, Fresh(dice), front);
      WithinWindow(c, dice, front);
      match e
      case SendFrame(f, now) => SendCounts(c, w, f, now);
      case PeerTakes => TakeMoves(c, w);
      case Complete =>
    }
  }

  /** Never more completions so far than frames accepted. */
  ghost predicate InTurn(c: Config, dice: Dice, es: seq<Event>) {
    forall k {:trigger es[..k]} :: 0 <= k <= |es| ==> Completions(es[..k]) <= |Accepted(Run(c, Fresh(dice), es[..k]))|
  }

  /** As long as completions only come for frames accepted before, exactly the frames not yet
      completed are outstanding, and the window has room exactly for the rest. */
  lemma {:induction false} EachCompletionFrees(c: Config, dice: Dice, es: seq<Event>)
    requires 0 < c.fcWindow < U32 && InTurn(c, dice, es)
    ensures var w := Run(c, Fresh(dice), es);
      && w.outstanding == |Accepted(w)| - Completions(es)
      && (CanSend(c, w) <==> |Accepted(w)| - Completions(es) < c.fcWindow)
  {
    RunInv(c, dice, es);
    assert es[..|es|] == es;
    if es != [] {
      var front, e := es[..|es| - 1], es[|es| - 1];
      var w := Run(c, Fresh(dice), front);
      forall k | 0 <= k <= |front| ensures Completions(front[..k]) <= |Accepted(Run(c, Fresh(dice), front[..k]))| {
        assert front[..k] == es[..k];
      }
      EachCompletionFrees(c, dice, front);
      match e
      case SendFrame(f, now) => SendCounts(c, w, f, now);
      case PeerTakes => TakeMoves(c, w);
      case Complete =>
    }
  }

  /** So a port that is told of no completion stops after one window, no matter how much its
      peer takes out of the ring. */
  lemma StopsAfterWindow(c: Config, dice: Dice, es: seq<Event>)
    requires 0 < c.fcWindow < U32 && Completions(es) == 0
    ensures |Accepted(Run(c, Fresh(dice), es))| <= c.fcWindow
  {
    WithinWindow(c, dice, es);
  }

  /** The payloads handed to eth_port_send, and those of some frames. */
  function Offered(es: seq<Event>): seq<seq<byte>> {
    if es == [] then []
    else Offered(es[..|es| - 1]) + if es[|es| - 1].SendFrame? then [es[|es| - 1].frame.data] else []
  }

  function Payloads(fs: seq<EthFrame>): seq<seq<byte>> {
    seq(|fs|, i requires 0 <= i < |fs| => fs[i].data)
  }

  lemma SendInOrder(c: Config, w: Wire, f: EthFrame, now: nat, offered: seq<seq<byte>>)
    requires IsSubseq(Payloads(Accepted(w)), offered)
    ensures IsSubseq(Payloads(Accepted(Send(c, w, f, now).1)), offered + [f.data])
  {
    var w', g := Send(c, w, f, now).1, Stamped(c, w, f, now);
    if Send(c, w, f, now).0 == Sent {
      assert Payloads(w.taken + (w.ring + [g])) == Payloads(Accepted(w)) + [f.data];
      AppendBoth(Payloads(Accepted(w)), offered, f.data);
    } else {
      AppendRight(Payloads(Accepted(w)), offered, f.data);
    }
  }

  /** A send leaves what was taken alone and adds at most one frame. */
  lemma SendAdds(c: Config, w: Wire, f: EthFrame, now: nat)
    ensures var (rc, w') := Send(c, w, f, now);
      w'.taken == w.taken && |Accepted(w')| == |Accepted(w)| + if rc == Sent then 1 else 0
  {
  }

  /** Taking a frame out of the ring moves it, no more. */
  lemma TakeMoves(c: Config, w: Wire)
    ensures Accepted(Do(c, w, PeerTakes)) == Accepted(w)
  {
    if w.ring != [] { assert (w.taken + [w.ring[0]]) + w.ring[1..] == Accepted(w); }
  }

  /** What the ring took is what was offered, in order, less what was dropped, blocked or turned
      away; what the peer took is a prefix of that. */
  lemma {:induction false} InOrder(c: Config, dice: Dice, es: seq<Event>)
    ensures var w := Run(c, Fresh(dice), es);
      IsSubseq(Payloads(Accepted(w)), Offered(es)) && w.taken <= Accepted(w)
  {
    if es != [] {
      var front, e := es[..|es| - 1], es[|es| - 1];
      var w := Run(c, Fresh(dice), front);
      InOrder(c, dice, front);
      match e
      case SendFrame(f, now) => SendInOrder(c, w, f, now, Offered(front));
      case PeerTakes =>
        TakeMoves(c, w);
        assert Offered(es) == Offered(front);
      case Complete => assert Offered(es) == Offered(front);
    }
  }

  /** Frames without the two fields the sender stamps. */
  function Plain(f: EthFrame): EthFrame { f.(seqNo := 0, timestampNs := 0) }

  function PlainAll(fs: seq<EthFrame>): seq<EthFrame> {
    seq(|fs|, i requires 0 <= i < |fs| => Plain(fs[i]))
  }

  function OfferedFrames(es: seq<Event>): seq<EthFrame> {
    if es == [] then []
    else OfferedFrames(es[..|es| - 1]) + if es[|es| - 1].SendFrame? then [Plain(es[|es| - 1].frame)] else []
  }

  lemma SendUnchanged(c: Config, w: Wire, f: EthFrame, now: nat, offered: seq<EthFrame>)
    requires IsSubseq(PlainAll(Accepted(w)), offered)
    ensures IsSubseq(PlainAll(Accepted(Send(c, w, f, now).1)), offered + [Plain(f)])
  {
    var g := Stamped(c, w, f, now);
    if Send(c, w, f, now).0 == Sent {
      assert PlainAll(w.taken + (w.ring + [g])) == PlainAll(Accepted(w)) + [Plain(f)];
      AppendBoth(PlainAll(Accepted(w)), offered, Plain(f));
    } else {
      AppendRight(PlainAll(Accepted(w)), offered, Plain(f));
    }
  }

  /** Length, flags and data of a frame are what was handed to eth_port_send, too. */
  lemma {:induction false} FramesUnchanged(c: Config, dice: Dice, es: seq<Event>)
    ensures IsSubseq(PlainAll(Accepted(Run(c, Fresh(dice), es))), OfferedFrames(es))
  {
    if es != [] {
      var front, e := es[..|es| - 1], es[|es| - 1];
      var w := Run(c, Fresh(dice), front);
      FramesUnchanged(c, dice, front);
      match e
      case SendFrame(f, now) => SendUnchanged(c, w, f, now, OfferedFrames(front));
      case PeerTakes =>
        TakeMoves(c, w);
        assert OfferedFrames(es) == OfferedFrames(front);
      case Complete => assert OfferedFrames(es) == OfferedFrames(front);
    }
  }

  /** How many sends of a run did not get into the ring. */
  function Refused(c: Config, w: Wire, es: seq<Event>): nat {
    if es == [] then 0
    else
      Refused(c, w, es[..|es| - 1])
      + match es[|es| - 1]
        case SendFrame(f, now) => if Send(c, Run(c, w, es[..|es| - 1]), f, now).0 == Sent then 0 else 1
        case _ => 0
  }

  lemma {:induction false} CountOffers(c: Config, dice: Dice, es: seq<Event>)
    ensures |Offered(es)| == |Accepted(Run(c, Fresh(dice), es))| + Refused(c, Fresh(dice), es)
  {
    if es != [] { CountOffers(c, dice, es[..|es| - 1]); }
  }

  /** Nothing is missing exactly when every send reported success. */
  lemma NothingMissing(c: Config, dice: Dice, es: seq<Event>)
    ensures var w := Run(c, Fresh(dice), es);
      Payloads(Accepted(w)) == Offered(es) <==> Refused(c, Fresh(dice), es) == 0
  {
    InOrder(c, dice, es);
    CountOffers(c, dice, es);
    FullLength(Payloads(Accepted(Run(c, Fresh(dice), es))), Offered(es));
  }

  /** When the sums wrap, published time can run backwards. */
  lemma TimeWraps()
    ensures var c, f := Config(0, 0, 0, 1, 0), EthFrame(1, 0, 0, 0, [0]);
      var es := [SendFrame(f, 5), SendFrame(f, 0xFFFF_FFFF_FFFF_FFFF)];
      Run(c, Fresh(Dice(1, 0)), es[..1]).time == 6 && Run(c, Fresh(Dice(1, 0)), es).time == 0
  {
    var c, f := Config(0, 0, 0, 1, 0), EthFrame(1, 0, 0, 0, [0]);
    var es := [SendFrame(f, 5), SendFrame(f, 0xFFFF_FFFF_FFFF_FFFF)];
    assert es[..1] == [SendFrame(f, 5)] && es[..1][..0] == [] && es[..|es| - 1] == es[..1];
    var w0 := Fresh(Dice(1, 0));
    assert Run(c, w0, es[..1]) == Do(c, w0, SendFrame(f, 5));
  }
}
