/** link_model.c: random drops in bursts, a line rate, a fixed latency and a window of frames in
    flight. */
module LinkModel {
  import opened Xorshift

  const U16: nat := 0x1_0000
  const U32: nat := 0x1_0000_0000
  const U64: nat := 0x1_0000_0000_0000_0000
  const PPM: nat := 1000000

  datatype Config = Config(dropRatePpm: nat, burstDropLen: nat, rateMbps: nat, latencyNs: nat, fcWindow: nat)

  // ---------- drops ----------

  datatype Dice = Dice(rng: bv32, burst: nat)

  function Remainder(word: bv32): nat { (word as nat) % PPM }

  /** A random word with this remainder drops the attempt. */
  predicate Drops(c: Config, remainder: nat) { remainder < c.dropRatePpm }

  function Roll(c: Config, d: Dice): (r: (bool, Dice)) {
    if d.burst > 0 then (true, d.(burst := d.burst - 1))
    else if c.dropRatePpm == 0 then (false, d)
    else
      var rng := Xs32(d.rng);
      if Drops(c, Remainder(rng))
      then (true, Dice(rng, if c.burstDropLen == 0 then 0 else c.burstDropLen - 1))
      else (false, Dice(rng, 0))
  }

  function Rolls(c: Config, d: Dice, n: nat): (d': Dice) {
    if n == 0 then d else Roll(c, Rolls(c, d, n - 1)).1
  }

  /** Whether attempt `n` is dropped. */
  function Dropped(c: Config, d: Dice, n: nat): bool { Roll(c, Rolls(c, d, n)).0 }

  /** Inside a burst every attempt is dropped and no random number is used up. */
  lemma {:induction false} InBurst(c: Config, d: Dice, n: nat, k: nat)
    requires k <= Rolls(c, d, n).burst
    ensures Rolls(c, d, n + k) == Rolls(c, d, n).(burst := Rolls(c, d, n).burst - k)
    ensures k < Rolls(c, d, n).burst ==> Dropped(c, d, n + k)
  {
    if k > 0 { InBurst(c, d, n, k - 1); }
  }

  function BurstLen(c: Config): (n: nat)
    ensures n >= 1
  {
    if c.burstDropLen == 0 then 1 else c.burstDropLen
  }

  lemma BurstStarts(c: Config, d: Dice, n: nat)
    requires Rolls(c, d, n).burst == 0 && Dropped(c, d, n)
    ensures Rolls(c, d, n + 1) == Dice(Xs32(Rolls(c, d, n).rng), BurstLen(c) - 1)
  {
  }

  /** A burst drops exactly the configured number of attempts in a row, at least one; then the
      generator decides again, one step further on. */
  lemma BurstLength(c: Config, d: Dice, n: nat)
    requires Rolls(c, d, n).burst == 0 && Dropped(c, d, n)
    ensures forall k :: n <= k < n + BurstLen(c) ==> Dropped(c, d, k)
    ensures Rolls(c, d, n + BurstLen(c)) == Dice(Xs32(Rolls(c, d, n).rng), 0)
  {
    forall k | n < k < n + BurstLen(c) ensures Dropped(c, d, k) { BurstGoesOn(c, d, n, k - n - 1); }
    BurstEnds(c, d, n);
  }

  lemma BurstGoesOn(c: Config, d: Dice, n: nat, k: nat)
    requires Rolls(c, d, n).burst == 0 && Dropped(c, d, n) && k < BurstLen(c) - 1
    ensures Dropped(c, d, n + 1 + k)
  {
    BurstStarts(c, d, n);
    InBurst(c, d, n + 1, k);
  }

  lemma BurstEnds(c: Config, d: Dice, n: nat)
    requires Rolls(c, d, n).burst == 0 && Dropped(c, d, n)
    ensures Rolls(c, d, n + BurstLen(c)) == Dice(Xs32(Rolls(c, d, n).rng), 0)
  {
    BurstStarts(c, d, n);
    InBurst(c, d, n + 1, BurstLen(c) - 1);
  }

  /** Nothing is ever dropped at rate zero, everything at a rate of a million and more. */
  lemma {:induction false} Extremes(c: Config, d: Dice, n: nat)
    ensures c.dropRatePpm == 0 && d.burst == 0 ==> !Dropped(c, d, n) && Rolls(c, d, n).burst == 0
    ensures c.dropRatePpm >= PPM ==> Dropped(c, d, n)
  {
    if n > 0 { Extremes(c, d, n - 1); }
  }

  /** Outside a burst, and at a rate other than zero, one more random word decides: the attempt is
      dropped exactly if its remainder modulo a million is below the rate. */
  lemma WordDecides(c: Config, d: Dice)
    requires d.burst == 0 && c.dropRatePpm > 0
    ensures Roll(c, d).0 <==> (Xs32(d.rng) as nat) % 1000000 < c.dropRatePpm
    ensures Roll(c, d).1.rng == Xs32(d.rng) && (!Roll(c, d).0 ==> Roll(c, d).1.burst == 0)
  {
  }

  /** So a word that drops at one rate drops at every higher one. */
  lemma HigherRateDropsMore(c: Config, c': Config, d: Dice)
    requires c.dropRatePpm <= c'.dropRatePpm && Roll(c, d).0
    ensures Roll(c', d).0
  {
  }

  /** How many of the remainders below `n` drop. */
  function HowMany(c: Config, n: nat): nat {
    if n == 0 then 0 else HowMany(c, n - 1) + if Drops(c, n - 1) then 1 else 0
  }

  /** Of the million remainders exactly as many drop as the rate says, namely the smallest. */
  lemma {:induction false} ExactlyTheRate(c: Config, n: nat)
    ensures HowMany(c, n) == if n < c.dropRatePpm then n else c.dropRatePpm
    ensures forall r: nat :: Drops(c, r) <==> r < c.dropRatePpm
    ensures forall d: Dice :: d.burst == 0 ==> (Roll(c, d).0 <==> Drops(c, (Xs32(d.rng) as nat) % 1000000))
  {
    if n > 0 { ExactlyTheRate(c, n - 1); }
    forall d: Dice | d.burst == 0 ensures Roll(c, d).0 <==> Drops(c, (Xs32(d.rng) as nat) % 1000000) {
      if c.dropRatePpm > 0 { WordDecides(c, d); }
    }
  }

  // ---------- deadlines ----------

  datatype Frame = Frame(bytes: nat, now: nat)

  /** Time on the wire, rounded down; an unset rate costs nothing. */
  function Serialize(rate: nat, bytes: nat): nat {
    if rate == 0 then 0 else bytes * 8000 / rate
  }

  function Max(a: nat, b: nat): nat { if a > b then a else b }

  /** When the line is free again after some frames, starting from an idle line. */
  function Busy(rate: nat, fs: seq<Frame>): nat {
    if fs == [] then 0
    else Max(fs[|fs| - 1].now, Busy(rate, fs[..|fs| - 1])) + Serialize(rate, fs[|fs| - 1].bytes)
  }

  /** The token bucket after one more frame, and that frame's deadline: 64-bit sums. */
  function NextToken(c: Config, token: nat, f: Frame): (t: nat)
    ensures t < U64
  {
    (Max(f.now, token) + Serialize(c.rateMbps, f.bytes)) % U64
  }

  function Stamp(c: Config, token: nat, f: Frame): (ns: nat)
    ensures ns < U64
  {
    (NextToken(c, token, f) + c.latencyNs) % U64
  }

  function Deadline(c: Config, fs: seq<Frame>): nat { Busy(c.rateMbps, fs) + c.latencyNs }

  /** Serialization times of the frames from `i` on. */
  function Backlog(rate: nat, fs: seq<Frame>, i: nat): nat
    requires i <= |fs|
    decreases |fs| - i
  {
    if i == |fs| then 0 else Serialize(rate, fs[i].bytes) + Backlog(rate, fs, i + 1)
  }

  lemma {:induction false} BacklogSplit(rate: nat, fs: seq<Frame>, i: nat)
    requires i < |fs|
    ensures Backlog(rate, fs, i) == Backlog(rate, fs[..|fs| - 1], i) + Serialize(rate, fs[|fs| - 1].bytes)
    decreases |fs| - i
  {
    if i < |fs| - 1 { BacklogSplit(rate, fs, i + 1); }
  }

  /** The deadline of the last frame in closed form: it is latency after the time some frame i
      arrived and all frames from i on were sent back to back, and no i would give a later one. */
  lemma {:induction false} ClosedForm(c: Config, fs: seq<Frame>)
    requires fs != []
    ensures forall i {:trigger fs[i]} :: 0 <= i < |fs| ==> Deadline(c, fs) >= c.latencyNs + fs[i].now + Backlog(c.rateMbps, fs, i)
    ensures exists i :: 0 <= i < |fs| && Deadline(c, fs) == c.latencyNs + fs[i].now + Backlog(c.rateMbps, fs, i)
  {
    var front, rate := fs[..|fs| - 1], c.rateMbps;
    if front != [] {
      ClosedForm(c, front);
      forall i | 0 <= i < |fs| ensures Deadline(c, fs) >= c.latencyNs + fs[i].now + Backlog(rate, fs, i) {
        BacklogSplit(rate, fs, i);
        if i < |front| { assert front[i] == fs[i]; }
      }
      var j :| 0 <= j < |front| && Deadline(c, front) == c.latencyNs + front[j].now + Backlog(rate, front, j);
      var k := if fs[|fs| - 1].now > Busy(rate, front) then |fs| - 1 else j;
      BacklogSplit(rate, fs, k);
      assert Deadline(c, fs) == c.latencyNs + fs[k].now + Backlog(rate, fs, k);
    } else {
      assert Deadline(c, fs) == c.latencyNs + fs[0].now + Backlog(rate, fs, 0);
    }
  }

  function Bytes(fs: seq<Frame>): nat {
    if fs == [] then 0 else Bytes(fs[..|fs| - 1]) + fs[|fs| - 1].bytes
  }

  /** The time on the wire is the exact one, rounded down; nothing at rate zero. */
  lemma SerializeBound(rate: nat, bytes: nat)
    ensures rate > 0 ==> rate * Serialize(rate, bytes) <= 8000 * bytes <= rate * Serialize(rate, bytes) + rate - 1
    ensures rate == 0 ==> Serialize(rate, bytes) == 0
  {
    if rate > 0 {
      var n := bytes * 8000;
      assert n == (n / rate) * rate + n % rate;
    }
  }

  /** 1500 bytes at 1000 Mbit/s take 12 microseconds. */
  lemma SerializeExample()
    ensures Serialize(1000, 1500) == 12000 && Serialize(0, 1500) == 0
  {
  }

  /** Between the deadlines of two frames the line carries no more than its rate allows, up to
      the rounding of every frame. */
  lemma {:induction false} RateBound(c: Config, fs: seq<Frame>, more: seq<Frame>)
    requires c.rateMbps > 0
    ensures Deadline(c, fs) <= Deadline(c, fs + more)
    ensures 8000 * Bytes(more) <= c.rateMbps * (Deadline(c, fs + more) - Deadline(c, fs)) + |more| * (c.rateMbps - 1)
    decreases |more|
  {
    if more == [] {
      assert fs + more == fs;
    } else {
      var init, last := more[..|more| - 1], more[|more| - 1];
      assert (fs + more)[..|fs + more| - 1] == fs + init;
      RateBound(c, fs, init);
      OneMoreFrame(c.rateMbps, last.bytes, Deadline(c, fs + init) - Deadline(c, fs), Deadline(c, fs + more) - Deadline(c, fs), Bytes(init), |init|);
    }
  }

  lemma OneMoreFrame(rate: nat, bytes: nat, t: int, t': int, sent: nat, n: nat)
    requires rate > 0 && t + Serialize(rate, bytes) <= t' && 8000 * sent <= rate * t + n * (rate - 1)
    ensures 8000 * (sent + bytes) <= rate * t' + (n + 1) * (rate - 1)
  {
    SerializeBound(rate, bytes);
    var ser := Serialize(rate, bytes);
    MulGrows(rate, t + ser, t');
    Distribute(rate, t, ser);
    Distribute(rate - 1, n, 1);
  }

  /** The line does not go idle: each frame arrives while the ones before it are being sent. */
  predicate Saturated(rate: nat, fs: seq<Frame>, more: seq<Frame>) {
    more == [] ||
    (Saturated(rate, fs, more[..|more| - 1]) && more[|more| - 1].now <= Busy(rate, fs + more[..|more| - 1]))
  }

  /** Then the line carries no less than its rate, either. */
  lemma {:induction false} RateReached(c: Config, fs: seq<Frame>, more: seq<Frame>)
    requires c.rateMbps > 0 && Saturated(c.rateMbps, fs, more)
    ensures c.rateMbps * (Deadline(c, fs + more) - Deadline(c, fs)) <= 8000 * Bytes(more)
    decreases |more|
  {
    if more == [] {
      assert fs + more == fs;
    } else {
      var init, last := more[..|more| - 1], more[|more| - 1];
      assert (fs + more)[..|fs + more| - 1] == fs + init;
      RateReached(c, fs, init);
      OneMoreInTurn(c.rateMbps, last.bytes, Deadline(c, fs + init) - Deadline(c, fs), Deadline(c, fs + more) - Deadline(c, fs), Bytes(init));
    }
  }

  lemma OneMoreInTurn(rate: nat, bytes: nat, t: int, t': int, sent: nat)
    requires rate > 0 && t' == t + Serialize(rate, bytes) && rate * t <= 8000 * sent
    ensures rate * t' <= 8000 * (sent + bytes)
  {
    SerializeBound(rate, bytes);
    Distribute(rate, t, Serialize(rate, bytes));
  }

  /** A line without a rate is never busy beyond the latest arrival. */
  lemma {:induction false} NoRateNoTime(c: Config, fs: seq<Frame>)
    requires c.rateMbps == 0 && fs != []
    ensures (forall i :: 0 <= i < |fs| ==> Deadline(c, fs) >= fs[i].now + c.latencyNs)
    ensures exists i :: 0 <= i < |fs| && Deadline(c, fs) == fs[i].now + c.latencyNs
  {
    var front := fs[..|fs| - 1];
    assert fs == front + [fs[|fs| - 1]];
    if front != [] {
      NoRateNoTime(c, front);
      var j :| 0 <= j < |front| && Deadline(c, front) == front[j].now + c.latencyNs;
      var k := if fs[|fs| - 1].now > Busy(0, front) then |fs| - 1 else j;
      assert Deadline(c, fs) == fs[k].now + c.latencyNs;
    } else {
      assert Deadline(c, fs) == fs[0].now + c.latencyNs;
    }
  }

  lemma Distribute(k: int, a: int, b: int)
    ensures k * (a + b) == k * a + k * b
  {
  }

  lemma MulGrows(k: nat, a: int, b: int)
    requires a <= b
    ensures k * a <= k * b
  {
  }

  lemma OneMoreBusy(c: Config, fs: seq<Frame>, f: Frame)
    ensures Busy(c.rateMbps, fs + [f]) == Max(f.now, Busy(c.rateMbps, fs)) + Serialize(c.rateMbps, f.bytes)
    ensures Deadline(c, fs) <= Deadline(c, fs + [f])
  {
    assert (fs + [f])[..|fs|] == fs;
  }

  /** The wrapping sums are the exact ones as long as the deadline fits in 64 bits. */
  lemma DeadlineFits(c: Config, fs: seq<Frame>, f: Frame, token: nat)
    requires Deadline(c, fs) < 0x1_0000_0000_0000_0000 ==> token == Busy(c.rateMbps, fs)
    requires Deadline(c, fs + [f]) < 0x1_0000_0000_0000_0000
    ensures NextToken(c, token, f) == Busy(c.rateMbps, fs + [f]) && Stamp(c, token, f) == Deadline(c, fs + [f])
  {
    OneMoreBusy(c, fs, f);
    SumFits(Max(f.now, token), Serialize(c.rateMbps, f.bytes), c.latencyNs);
  }

  lemma SumFits(a: nat, b: nat, latency: nat)
    requires a + b + latency < U64
    ensures (a + b) % U64 == a + b && ((a + b) % U64 + latency) % U64 == a + b + latency
  {
  }

  // ---------- the model with its 32- and 64-bit fields ----------

  class Link {
    var config: Config
    var rng: bv32
    var burstRemaining: nat
    var tokenBucketNs: nat
    var outstanding: nat
    /** The frames that got a deadline since the last reset. */
    ghost var history: seq<Frame>

    /** The counters match the history as long as no 64-bit sum has wrapped. */
    ghost predicate Valid()
      reads this
    {
      && config.burstDropLen < U16 && burstRemaining < U16
      && tokenBucketNs < U64 && outstanding < U32 && config.fcWindow < U32 && config.latencyNs < U64
      && (NoOverflow() ==> tokenBucketNs == Busy(config.rateMbps, history))
    }

    ghost predicate NoOverflow()
      reads this
    {
      Deadline(config, history) < U64
    }

    constructor (config: Config, seed: bv32)
      requires config.burstDropLen < 0x1_0000 && config.fcWindow < U32 && config.latencyNs < U64
      ensures Valid() && this.config == config && history == [] && outstanding == 0 && Die() == Dice(if seed == 0 then 1 else seed, 0)
    {
      this.config := config;
      rng := if seed == 0 then 1 else seed;
      burstRemaining, tokenBucketNs, outstanding := 0, 0, 0;
      history := [];
    }

    /** link_model_reset keeps the configuration. */
    method Reset(seed: bv32)
      requires Valid()
      modifies this
      ensures Valid() && config == old(config) && history == [] && outstanding == 0 && Die() == Dice(if seed == 0 then 1 else seed, 0)
    {
      rng := if seed == 0 then 1 else seed;
      burstRemaining, tokenBucketNs, outstanding := 0, 0, 0;
      history := [];
    }

    function Die(): Dice
      reads this
    {
      Dice(rng, burstRemaining)
    }

    /** link_model_should_drop */
    method ShouldDrop() returns (drop: bool)
      requires Valid()
      modifies this`rng, this`burstRemaining
      ensures Valid() && (drop, Die()) == Roll(config, old(Die()))
    {
      if burstRemaining > 0 {
        burstRemaining := burstRemaining - 1;
        return true;
      }
      if config.dropRatePpm == 0 { return false; }
      rng := Xs32(rng);
      if (rng as nat) % PPM < config.dropRatePpm {
        var burst := if config.burstDropLen == 0 then 1 else config.burstDropLen;
        burstRemaining := burst - 1;
        return true;
      }
      return false;
    }

    /** link_model_deadline.  The sums are 64-bit and wrap. */
    method NextDeadline(bytes: nat, now: nat) returns (ns: nat)
      requires Valid() && bytes < U32 && now < U64
      modifies this`tokenBucketNs, this`history
      ensures Valid() && history == old(history) + [Frame(bytes, now)]
      ensures tokenBucketNs == NextToken(config, old(tokenBucketNs), Frame(bytes, now))
      ensures ns == Stamp(config, old(tokenBucketNs), Frame(bytes, now))
      ensures NoOverflow() ==> ns == Deadline(config, history)
    {
      var serializeNs := Serialize(config.rateMbps, bytes);
      var earliest := if now > tokenBucketNs then now else tokenBucketNs;
      if Deadline(config, history + [Frame(bytes, now)]) < U64 {
        DeadlineFits(config, history, Frame(bytes, now), tokenBucketNs);
      }
      history := history + [Frame(bytes, now)];
      tokenBucketNs := (earliest + serializeNs) % U64;
      ns := ((earliest + serializeNs) % U64 + config.latencyNs) % U64;
    }

    /** link_model_fc_can_send */
    method FcCanSend() returns (yes: bool)
      requires Valid()
      ensures yes <==> config.fcWindow == 0 || outstanding < config.fcWindow
    {
      if config.fcWindow == 0 { return true; }
      return outstanding < config.fcWindow;
    }

    /** link_model_inc_outstanding: a 32-bit counter. */
    method IncOutstanding()
      requires Valid()
      modifies this`outstanding
      ensures Valid() && outstanding == (old(outstanding) + 1) % U32
    {
      outstanding := (outstanding + 1) % U32;
    }

    /** link_model_dec_outstanding never goes below zero. */
    method DecOutstanding()
      requires Valid()
      modifies this`outstanding
      ensures Valid() && outstanding == if old(outstanding) > 0 then old(outstanding) - 1 else 0
    {
      if outstanding > 0 { outstanding := outstanding - 1; }
    }
  }
}
