/** Guest physical memory, as DMA sees it: a total, byte-addressed store.  Bytes
    nobody wrote read as zero.  Multi-byte fields are little-endian. */
module GuestMemory {

  type byte = x: int | 0 <= x < 256
  type Memory = map<nat, byte>

  function At(m: Memory, a: nat): byte {
    if a in m then m[a] else 0
  }

  /** The `n` bytes starting at address `a`. */
  function Load(m: Memory, a: nat, n: nat): (bs: seq<byte>)
    ensures |bs| == n
    ensures forall i :: 0 <= i < n ==> bs[i] == At(m, a + i)
  {
    seq<byte>(n, (i: nat) => At(m, a + i))
  }

  /** Memory after `bs` has been written at address `a`; nothing else moves. */
  function Store(m: Memory, a: nat, bs: seq<byte>): (m': Memory)
    ensures forall x: nat :: At(m', x) == if a <= x < a + |bs| then bs[x - a] else At(m, x)
    decreases |bs|
  {
    if bs == [] then m else Store(m[a := bs[0]], a + 1, bs[1..])
  }

  lemma LoadAfterStore(m: Memory, a: nat, bs: seq<byte>)
    ensures Load(Store(m, a, bs), a, |bs|) == bs
  {
  }

  lemma {:induction false} StoreAppend(m: Memory, a: nat, bs: seq<byte>, cs: seq<byte>)
    ensures Store(m, a, bs + cs) == Store(Store(m, a, bs), a + |bs|, cs)
    decreases |bs|
  {
    if bs == [] {
      assert bs + cs == cs;
    } else {
      assert (bs + cs)[1..] == bs[1..] + cs;
      StoreAppend(m[a := bs[0]], a + 1, bs[1..], cs);
    }
  }

  /** Two memories that agree on a range cannot be told apart by loading it. */
  lemma LoadAgrees(m: Memory, m': Memory, a: nat, n: nat)
    requires forall x: nat :: a <= x < a + n ==> At(m, x) == At(m', x)
    ensures Load(m, a, n) == Load(m', a, n)
  {
  }

  /** The number a little-endian field holds. */
  function Le(bs: seq<byte>): (v: nat) {
    if bs == [] then 0 else bs[0] + 256 * Le(bs[1..])
  }

  /** Its encoding in `n` bytes; higher bytes are cut off. */
  function LeBytes(v: nat, n: nat): (bs: seq<byte>)
    ensures |bs| == n
    decreases n
  {
    if n == 0 then [] else [v % 256] + LeBytes(v / 256, n - 1)
  }

  /** Little-endian: the byte at the lowest address counts least. */
  lemma LittleEndian2(a: byte, b: byte)
    ensures Le([a, b]) == a + 0x100 * b
  {
    assert [a, b][1..] == [b];
    assert Le([b]) == b + 256 * Le([b][1..]);
  }

  function Power256(n: nat): (p: nat)
    ensures p > 0
    ensures n <= 4 ==> p == [1, 0x100, 0x1_0000, 0x100_0000, 0x1_0000_0000][n]
  {
    if n == 0 then 1 else 256 * Power256(n - 1)
  }

  lemma {:induction false} LeBound(bs: seq<byte>)
    ensures Le(bs) < Power256(|bs|)
  {
    if bs != [] { LeBound(bs[1..]); }
  }

  lemma {:induction false} LeRound(v: nat, n: nat)
    requires v < Power256(n)
    ensures Le(LeBytes(v, n)) == v
    decreases n
  {
    if n > 0 {
      LeRound(v / 256, n - 1);
      assert LeBytes(v, n)[1..] == LeBytes(v / 256, n - 1);
    }
  }

  /** A field holds a number in one way only. */
  lemma {:induction false} LeUnique(bs: seq<byte>)
    ensures LeBytes(Le(bs), |bs|) == bs
  {
    if bs != [] {
      LeUnique(bs[1..]);
      var v, rest := Le(bs), Le(bs[1..]);
      assert v == bs[0] + 256 * rest && v % 256 == bs[0] && v / 256 == rest;
      assert bs == [bs[0]] + bs[1..];
    }
  }
}
