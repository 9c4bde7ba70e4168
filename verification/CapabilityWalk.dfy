/** cosim_discover_caps of cosim_pcie_rc.c: the walk along the capability list of a PCI function
    (PCI Local Bus Specification 3.0, section 6.7). */
module CapabilityWalk {

  const GUARD: nat := 48
  const STATUS_COMMAND: nat := 0x04
  const CAP_POINTER: nat := 0x34
  const CAP_ID_MSI: nat := 0x05

  /** Configuration space, read in 32-bit words; a read that fails returns all ones. */
  type Config = nat -> nat

  // ---------- lists ----------

  /** The `i`-th pointer of the list that starts at `p`. */
  function Follow(next: nat -> nat, p: nat, i: nat): nat {
    if i == 0 then p else next(Follow(next, p, i - 1))
  }

  /** The first `n` pointers. */
  function Walk(next: nat -> nat, p: nat, n: nat): (w: seq<nat>)
    ensures |w| == n
  {
    if n == 0 then [] else Walk(next, p, n - 1) + [Follow(next, p, n - 1)]
  }

  lemma {:induction false} WalkAt(next: nat -> nat, p: nat, n: nat, i: nat)
    requires i < n
    ensures Walk(next, p, n)[i] == Follow(next, p, i)
  {
    if i < n - 1 { WalkAt(next, p, n - 1, i); }
  }

  /** The list from `p` has exactly `n` entries. */
  ghost predicate HasLength(next: nat -> nat, p: nat, n: nat) {
    Follow(next, p, n) == 0 && 0 !in Walk(next, p, n)
  }

  /** The last entry that is a hit, or -1. */
  function LastHit(hit: nat -> bool, w: seq<nat>): (q: int)
    ensures q == -1 || (q in w && hit(q))
    ensures q == -1 ==> forall x :: x in w ==> !hit(x)
  {
    if w == [] then -1 else if hit(w[|w| - 1]) then w[|w| - 1] else LastHit(hit, w[..|w| - 1])
  }

  lemma LastHitAppend(hit: nat -> bool, w: seq<nat>, x: nat)
    ensures LastHit(hit, w + [x]) == if hit(x) then x else LastHit(hit, w)
  {
    assert (w + [x])[..|w|] == w;
  }

  /** A list that repeats a pointer never ends. */
  lemma {:induction false} FollowOn(next: nat -> nat, p: nat, i: nat, j: nat, k: nat)
    requires Follow(next, p, i) == Follow(next, p, j)
    ensures Follow(next, p, i + k) == Follow(next, p, j + k)
    decreases k
  {
    if k > 0 { FollowOn(next, p, i, j, k - 1); }
  }

  lemma NoRepeats(next: nat -> nat, p: nat, n: nat)
    requires HasLength(next, p, n)
    ensures forall i, j :: 0 <= i < j < n ==> Walk(next, p, n)[i] != Walk(next, p, n)[j]
  {
    var w := Walk(next, p, n);
    forall i, j | 0 <= i < j < n ensures w[i] != w[j] {
      var k := i + (n - j);
      WalkAt(next, p, n, i);
      WalkAt(next, p, n, j);
      WalkAt(next, p, n, k);
      assert w[k] in w && w[k] == Follow(next, p, k);
      if w[i] == w[j] { FollowOn(next, p, i, j, n - j); }
    }
  }

  /** Distinct numbers below m: there are at most m of them. */
  lemma {:induction false} Pigeonhole(xs: seq<nat>, m: nat)
    requires forall i :: 0 <= i < |xs| ==> xs[i] < m
    requires forall i, j :: 0 <= i < j < |xs| ==> xs[i] != xs[j]
    ensures |xs| <= m
    decreases m
  {
    if xs != [] {
      assert xs[0] < m;
      var ys := xs;
      if k :| 0 <= k < |xs| && xs[k] == m - 1 {
        ys := xs[..k] + xs[k + 1..];
        assert forall i :: 0 <= i < |ys| ==> ys[i] == xs[if i < k then i else i + 1];
      }
      Pigeonhole(ys, m - 1);
    }
  }

  /** The entries of a list without cycles lie in different 4-byte slots. */
  lemma LengthBound(next: nat -> nat, p: nat, n: nat, low: nat)
    requires HasLength(next, p, n) && low <= 64
    requires forall x :: x in Walk(next, p, n) ==> 4 * low <= x < 256 && x % 4 == 0
    ensures n <= 64 - low
  {
    NoRepeats(next, p, n);
    var w := Walk(next, p, n);
    assert forall i :: 0 <= i < n ==> w[i] in w;
    var slots := seq(n, (i: nat) => if i < n && w[i] >= 4 * low then w[i] / 4 - low else 0);
    assert forall i :: 0 <= i < n ==> w[i] == 4 * (slots[i] + low);
    Pigeonhole(slots, 64 - low);
  }

  // ---------- the walk ----------

  /** The low byte of a word with its two lowest bits masked off. */
  function Pointer(word: nat): (p: nat)
    ensures p < 256 && p % 4 == 0
  {
    word % 256 / 4 * 4
  }

  function Next(cfg: Config): nat -> nat { (p: nat) => Pointer(cfg(p) / 256) }
  function Msi(cfg: Config): nat -> bool { (p: nat) => cfg(p) % 256 == CAP_ID_MSI }
  function Start(cfg: Config): nat { Pointer(cfg(CAP_POINTER)) }

  /** Capabilities bit of the status register. */
  predicate CapList(cfg: Config) { cfg(STATUS_COMMAND) / 0x10_0000 % 2 == 1 }

  /** The multiple-message-capable field of the control word: one to 128 messages. */
  function Vectors(word: nat): (n: nat)
    ensures 1 <= n <= 128
  {
    [1, 2, 4, 8, 16, 32, 64, 128][word / 0x1_0000 % 0x1_0000 / 2 % 8]
  }

  function Power2(n: nat): nat { if n == 0 then 1 else 2 * Power2(n - 1) }

  /** The number of messages is two to the power of bits 17 to 19 of the capability's first word,
      whatever the other bits are. */
  lemma VectorsArePower(low: nat, field: nat, high: nat)
    requires low < 0x2_0000 && field < 8
    ensures Vectors(low + 0x2_0000 * field + 0x10_0000 * high) == Power2(field)
  {
    FieldOf(low, field, high);
    PowersUpTo7(field);
  }

  lemma FieldOf(low: nat, field: nat, high: nat)
    requires low < 0x2_0000 && field < 8
    ensures (low + 0x2_0000 * field + 0x10_0000 * high) / 0x1_0000 % 0x1_0000 / 2 % 8 == field
  {
    var bit := low / 0x1_0000;
    var word := low + 0x2_0000 * field + 0x10_0000 * high;
    assert word / 0x1_0000 == bit + 2 * field + 16 * high;
    assert word / 0x1_0000 % 0x1_0000 == bit + 2 * field + 16 * (high % 0x1000);
  }

  lemma PowersUpTo7(n: nat)
    requires n < 8
    ensures Power2(n) == [1, 2, 4, 8, 16, 32, 64, 128][n]
  {
    assert Power2(2) == 4;
    assert Power2(4) == 16;
    assert Power2(6) == 64;
  }

  method DiscoverCaps(cfg: Config) returns (msiOffset: int, msiVectors: nat, ghost visited: nat)
    ensures !CapList(cfg) ==> msiOffset == -1 && msiVectors == 0 && visited == 0
    ensures CapList(cfg) ==> Stopped(Next(cfg), Start(cfg), visited)
    ensures CapList(cfg) ==> msiOffset == LastHit(Msi(cfg), Walk(Next(cfg), Start(cfg), visited))
    ensures msiVectors == VectorsAt(cfg)(msiOffset)
  {
    msiOffset, msiVectors, visited := -1, 0, 0;
    if !CapList(cfg) { return; }
    msiOffset, msiVectors, visited := WalkCaps(cfg, Pointer(cfg(CAP_POINTER)), Next(cfg), Msi(cfg), VectorsAt(cfg));
  }

  function VectorsAt(cfg: Config): int -> nat {
    offset => if offset >= 0 then Vectors(cfg(offset)) else 0
  }

  /** `next`, `hit` and `vec` are what the words of `cfg` say. */
  ghost predicate Reads(cfg: Config, next: nat -> nat, hit: nat -> bool, vec: int -> nat) {
    forall c {:trigger Next(c)} :: c == cfg ==> next == Next(c) && hit == Msi(c) && vec == VectorsAt(c)
  }

  /** The loop. */
  method WalkCaps(cfg: Config, start: nat, ghost next: nat -> nat, ghost hit: nat -> bool, ghost vec: int -> nat)
    returns (msiOffset: int, msiVectors: nat, ghost visited: nat)
    requires Reads(cfg, next, hit, vec) && vec(-1) == 0
    ensures Stopped(next, start, visited) && msiOffset == LastHit(hit, Walk(next, start, visited))
    ensures msiVectors == vec(msiOffset)
  {
    msiOffset, msiVectors, visited := -1, 0, 0;
    var ptr, safety := start, GUARD;
    while ptr != 0 && safety > 0
      invariant safety >= 0 && safety + visited == GUARD && ptr == Follow(next, start, visited)
      invariant 0 !in Walk(next, start, visited)
      invariant msiOffset == LastHit(hit, Walk(next, start, visited)) && msiVectors == vec(msiOffset)
      decreases safety
    {
      LastHitAppend(hit, Walk(next, start, visited), ptr);
      safety := safety - 1;
      msiOffset, msiVectors, ptr := ReadEntry(cfg, ptr, msiOffset, msiVectors, next, hit, vec);
      visited := visited + 1;
    }
  }

  /** One entry of the list. */
  method ReadEntry(cfg: Config, ptr: nat, offset: int, vectors: nat, ghost next: nat -> nat, ghost hit: nat -> bool, ghost vec: int -> nat)
    returns (offset': int, vectors': nat, link: nat)
    requires Reads(cfg, next, hit, vec) && vectors == vec(offset)
    ensures link == next(ptr) && offset' == (if hit(ptr) then ptr else offset) && vectors' == vec(offset')
  {
    assert next == Next(cfg);
    offset', vectors' := offset, vectors;
    var dw := cfg(ptr);
    if dw % 256 == CAP_ID_MSI { offset', vectors' := ptr, Vectors(dw); }
    link := Pointer(dw / 256);
  }

  /** Where the walk stops: at the end of the list or at the guard. */
  ghost predicate Stopped(next: nat -> nat, p: nat, visited: nat) {
    visited <= GUARD && 0 !in Walk(next, p, visited) && (visited == GUARD || Follow(next, p, visited) == 0)
  }

  /** A walk covers the whole list exactly when the list ends within the guard; so it also stops
      on a list that never ends. */
  lemma CoversAll(next: nat -> nat, p: nat, visited: nat, n: nat)
    requires Stopped(next, p, visited) && HasLength(next, p, n)
    ensures visited == n <==> n <= GUARD
  {
    if n < visited { StillRunning(next, p, n, visited); }
    if visited < n { StillRunning(next, p, visited, n); }
  }

  lemma StillRunning(next: nat -> nat, p: nat, i: nat, n: nat)
    requires 0 !in Walk(next, p, n) && i < n
    ensures Follow(next, p, i) != 0
  {
    WalkAt(next, p, n, i);
  }

  lemma {:induction false} WalkAligned(cfg: Config, n: nat)
    ensures forall x :: x in Walk(Next(cfg), Start(cfg), n) ==> x < 256 && x % 4 == 0
  {
    if n > 0 { WalkAligned(cfg, n - 1); }
  }

  /** Every list that ends and stays in the area from 40h on is walked to its end. */
  lemma WalkedToTheEnd(cfg: Config, visited: nat, n: nat)
    requires Stopped(Next(cfg), Start(cfg), visited) && HasLength(Next(cfg), Start(cfg), n)
    requires forall x :: x in Walk(Next(cfg), Start(cfg), n) ==> x >= 0x40
    ensures visited == n
  {
    WalkAligned(cfg, n);
    LengthBound(Next(cfg), Start(cfg), n, 16);
    CoversAll(Next(cfg), Start(cfg), visited, n);
  }

  /** A list through all 48 slots of that area, with its only MSI capability in the last. */
  function Longest(r: nat): nat {
    if r == CAP_POINTER then 0x40
    else if 0x40 <= r < 0xFC then (r + 4) * 256 + 1
    else if r == 0xFC then CAP_ID_MSI
    else 0
  }

  lemma LongestNext(r: nat)
    requires 0x40 <= r <= 0xFC && r % 4 == 0
    ensures Pointer(Longest(r) / 256) == (if r == 0xFC then 0 else r + 4)
    ensures Longest(r) % 256 == CAP_ID_MSI <==> r == 0xFC
  {
    if r < 0xFC {
      var w := (r + 4) * 256 + 1;
      assert w / 256 == r + 4 && w % 256 == 1;
    }
  }

  lemma {:induction false} LongestSteps(next: nat -> nat, n: nat)
    requires n <= 48
    requires forall r :: 0x40 <= r <= 0xFC && r % 4 == 0 ==> next(r) == if r == 0xFC then 0 else r + 4
    ensures forall x :: x in Walk(next, 0x40, n) ==> 0x40 <= x < 0x40 + 4 * n && x % 4 == 0
    ensures Follow(next, 0x40, n) == if n == 48 then 0 else 0x40 + 4 * n
  {
    if n > 0 { LongestSteps(next, n - 1); }
  }

  /** The guard is exactly tight: that list is walked to its end, and one step fewer would miss
      the capability. */
  lemma GuardIsTight() returns (next: nat -> nat, hit: nat -> bool)
    ensures next == Next(Longest) && hit == Msi(Longest) && Start(Longest) == 0x40
    ensures HasLength(next, 0x40, GUARD)
    ensures LastHit(hit, Walk(next, 0x40, GUARD)) == 0xFC && LastHit(hit, Walk(next, 0x40, GUARD - 1)) == -1
  {
    next, hit := LongestReads();
    TightSteps(next, hit);
  }

  lemma LongestReads() returns (next: nat -> nat, hit: nat -> bool)
    ensures next == Next(Longest) && hit == Msi(Longest) && Start(Longest) == 0x40
    ensures forall r :: 0x40 <= r <= 0xFC && r % 4 == 0 ==> next(r) == (if r == 0xFC then 0 else r + 4) && (hit(r) <==> r == 0xFC)
  {
    next, hit := Next(Longest), Msi(Longest);
    assert Longest(CAP_POINTER) == 0x40;
    forall r | 0x40 <= r <= 0xFC && r % 4 == 0
      ensures next(r) == (if r == 0xFC then 0 else r + 4) && (hit(r) <==> r == 0xFC)
    {
      LongestNext(r);
    }
  }

  lemma TightSteps(next: nat -> nat, hit: nat -> bool)
    requires forall r :: 0x40 <= r <= 0xFC && r % 4 == 0 ==> next(r) == (if r == 0xFC then 0 else r + 4) && (hit(r) <==> r == 0xFC)
    ensures HasLength(next, 0x40, 48)
    ensures LastHit(hit, Walk(next, 0x40, 48)) == 0xFC && LastHit(hit, Walk(next, 0x40, 47)) == -1
  {
    LongestSteps(next, 48);
    LongestSteps(next, 47);
    LastHitAppend(hit, Walk(next, 0x40, 47), 0xFC);
  }

  /** An absent function answers every read with all ones: the walk finds nothing. */
  lemma AbsentFunction(cfg: Config, visited: nat)
    requires forall r :: cfg(r) == 0xFFFF_FFFF
    ensures LastHit(Msi(cfg), Walk(Next(cfg), Start(cfg), visited)) == -1
  {
    var q := LastHit(Msi(cfg), Walk(Next(cfg), Start(cfg), visited));
    if q >= 0 { assert cfg(q) == 0xFFFF_FFFF; }
  }

  // ---------- what a function that follows the specification gets ----------

  /** A capability as the specification lays it out: its place, its identifier, the two reserved
      bits of its link, and the control word of an MSI capability: the enable bit, the
      multiple-message field and the rest. */
  datatype Cap = Cap(at: nat, id: nat, reserved: nat, enabled: nat, field: nat, rest: nat)

  predicate Proper(c: Cap) {
    0 < c.at < 256 && c.at % 4 == 0 && c.id < 256 && c.reserved < 4 && c.enabled < 2 && c.field < 8
  }

  /** The first word of a capability whose link goes to `next`. */
  function WordOf(c: Cap, next: nat): nat {
    c.id + 0x100 * (next + c.reserved) + 0x1_0000 * c.enabled + 0x2_0000 * c.field + 0x10_0000 * c.rest
  }

  function AtOf(caps: seq<Cap>, i: nat): nat { if i < |caps| then caps[i].at else 0 }

  /** The bits around the pointer to the list and around the status bit that says there is one. */
  datatype Around = Around(reserved: nat, more: nat, low: nat, high: nat)

  /** The list lies in configuration space, and nothing is assumed of the bits around it. */
  ghost predicate Laid(cfg: Config, caps: seq<Cap>, b: Around) {
    && (forall i :: 0 <= i < |caps| ==> Proper(caps[i]) && cfg(caps[i].at) == WordOf(caps[i], AtOf(caps, i + 1)))
    && b.reserved < 4 && cfg(0x34) == AtOf(caps, 0) + b.reserved + 0x100 * b.more
    && b.low < 0x10_0000 && cfg(0x04) == b.low + 0x10_0000 + 0x20_0000 * b.high
  }

  lemma Masked(next: nat, reserved: nat, more: nat)
    requires next < 256 && next % 4 == 0 && reserved < 4
    ensures Pointer(next + reserved + 0x100 * more) == next
  {
    assert (next + reserved + 0x100 * more) % 256 == next + reserved;
  }

  lemma WordReads(c: Cap, next: nat)
    requires Proper(c) && next < 256 && next % 4 == 0
    ensures var word := WordOf(c, next);
      (word % 256 == CAP_ID_MSI <==> c.id == 5) && Pointer(word / 256) == next && Vectors(word) == Power2(c.field)
  {
    var word, upper := WordOf(c, next), c.enabled + 2 * c.field + 16 * c.rest;
    assert word == c.id + 0x100 * (next + c.reserved + 0x100 * upper);
    assert word % 256 == c.id && word / 256 == next + c.reserved + 0x100 * upper;
    Masked(next, c.reserved, upper);
    VectorsArePower(c.id + 0x100 * (next + c.reserved) + 0x1_0000 * c.enabled, c.field, c.rest);
  }

  lemma HeaderReads(cfg: Config, caps: seq<Cap>, b: Around)
    requires Laid(cfg, caps, b)
    ensures CapList(cfg) && Start(cfg) == AtOf(caps, 0)
  {
    Masked(AtOf(caps, 0), b.reserved, b.more);
    assert cfg(0x04) / 0x10_0000 == 1 + 2 * b.high;
  }

  lemma EntryReads(cfg: Config, caps: seq<Cap>, b: Around, i: nat)
    requires Laid(cfg, caps, b) && i < |caps|
    ensures Next(cfg)(caps[i].at) == AtOf(caps, i + 1) && (Msi(cfg)(caps[i].at) <==> caps[i].id == 5)
    ensures Vectors(cfg(caps[i].at)) == Power2(caps[i].field)
  {
    WordReads(caps[i], AtOf(caps, i + 1));
  }

  lemma {:induction false} FollowsList(next: nat -> nat, start: nat, caps: seq<Cap>, n: nat)
    requires start == AtOf(caps, 0) && n <= |caps| && forall i :: 0 <= i < |caps| ==> next(caps[i].at) == AtOf(caps, i + 1)
    ensures Follow(next, start, n) == AtOf(caps, n)
    ensures forall i :: 0 <= i < n ==> Walk(next, start, n)[i] == caps[i].at
  {
    if n > 0 { FollowsList(next, start, caps, n - 1); }
  }

  /** The last MSI capability of the list, or -1. */
  function LastMsi(caps: seq<Cap>): (k: int)
    ensures -1 <= k < |caps|
  {
    if caps == [] then -1 else if caps[|caps| - 1].id == 5 then |caps| - 1 else LastMsi(caps[..|caps| - 1])
  }

  lemma {:induction false} HitIsMsi(caps: seq<Cap>, hit: nat -> bool, w: seq<nat>)
    requires |w| == |caps| && forall i :: 0 <= i < |caps| ==> w[i] == caps[i].at && (hit(caps[i].at) <==> caps[i].id == 5)
    ensures LastHit(hit, w) == if LastMsi(caps) < 0 then -1 else caps[LastMsi(caps)].at
  {
    if caps != [] { HitIsMsi(caps[..|caps| - 1], hit, w[..|w| - 1]); }
  }

  /** What cosim_discover_caps reports of such a function: the place of its last MSI capability,
      and two to the power of its multiple-message field; nothing if it has none. */
  lemma Discovered(cfg: Config, caps: seq<Cap>, b: Around, msiOffset: int, msiVectors: nat, visited: nat)
    requires Laid(cfg, caps, b) && |caps| <= 48
    requires Stopped(Next(cfg), Start(cfg), visited)
    requires msiOffset == LastHit(Msi(cfg), Walk(Next(cfg), Start(cfg), visited)) && msiVectors == VectorsAt(cfg)(msiOffset)
    ensures CapList(cfg) && visited == |caps|
    ensures var k := LastMsi(caps);
      if k < 0 then msiOffset == -1 && msiVectors == 0
      else msiOffset == caps[k].at && msiVectors == Power2(caps[k].field)
  {
    HeaderReads(cfg, caps, b);
    forall i | 0 <= i < |caps|
      ensures Next(cfg)(caps[i].at) == AtOf(caps, i + 1) && (Msi(cfg)(caps[i].at) <==> caps[i].id == 5)
    {
      EntryReads(cfg, caps, b, i);
    }
    WalksAll(Next(cfg), Start(cfg), caps, visited);
    HitIsMsi(caps, Msi(cfg), Walk(Next(cfg), Start(cfg), |caps|));
    if LastMsi(caps) >= 0 { EntryReads(cfg, caps, b, LastMsi(caps)); }
  }

  lemma WalksAll(next: nat -> nat, start: nat, caps: seq<Cap>, visited: nat)
    requires start == AtOf(caps, 0) && forall i :: 0 <= i < |caps| ==> next(caps[i].at) == AtOf(caps, i + 1) && caps[i].at > 0
    requires |caps| <= 48 && Stopped(next, start, visited)
    ensures visited == |caps| && forall i :: 0 <= i < |caps| ==> Walk(next, start, |caps|)[i] == caps[i].at
  {
    FollowsList(next, start, caps, |caps|);
    CoversAll(next, start, visited, |caps|);
  }
}
