/** Layout of a shared-memory ring (ring_buffer.c): a 16-byte header, then fixed-size slots
    addressed by an index that wraps at the capacity. */
module RingSlots {
  import opened GuestMemory
  import Modular

  const HEADER: nat := 16

  /** _capacity */
  function Capacity(bufSize: nat, elementSize: nat): (cap: nat)
    requires elementSize > 0
  {
    if bufSize <= HEADER then 0 else (bufSize - HEADER) / elementSize
  }

  /** Offset of slot `i` in the buffer. */
  function Offset(i: nat, elementSize: nat): nat {
    HEADER + i * elementSize
  }

  /** `buf` has room for `cap` slots behind the header. */
  predicate Fits(bufSize: nat, cap: nat, elementSize: nat) {
    elementSize > 0 && HEADER + cap * elementSize <= bufSize
  }

  lemma CapacityFits(bufSize: nat, elementSize: nat)
    requires elementSize > 0 && Capacity(bufSize, elementSize) >= 1
    ensures Fits(bufSize, Capacity(bufSize, elementSize), elementSize)
    ensures bufSize < Offset(Capacity(bufSize, elementSize) + 1, elementSize)
  {
    var n := bufSize - HEADER;
    assert n == (n / elementSize) * elementSize + n % elementSize;
    assert (n / elementSize + 1) * elementSize == (n / elementSize) * elementSize + elementSize;
  }

  /** Every byte of a slot lies inside the buffer; with a 32-bit buffer size, the offset
      computation does not wrap either. */
  lemma SlotInside(bufSize: nat, cap: nat, elementSize: nat, i: nat, k: nat)
    requires Fits(bufSize, cap, elementSize) && i < cap && k < elementSize
    ensures HEADER <= Offset(i, elementSize) + k < bufSize
    ensures Offset(i, elementSize) + elementSize <= bufSize
  {
    Before(i, cap, elementSize);
  }

  /** Slots of different indices do not overlap. */
  lemma Before(i: nat, j: nat, elementSize: nat)
    requires i < j
    ensures Offset(i, elementSize) + elementSize <= Offset(j, elementSize)
  {
    Modular.AtLeast(j - i, elementSize);
    assert j * elementSize == i * elementSize + (j - i) * elementSize;
  }

  function Slot(buf: seq<byte>, cap: nat, elementSize: nat, i: nat): (e: seq<byte>)
    requires Fits(|buf|, cap, elementSize) && i < cap
    ensures |e| == elementSize
  {
    SlotInside(|buf|, cap, elementSize, i, 0);
    buf[Offset(i, elementSize)..Offset(i, elementSize) + elementSize]
  }

  /** Writing bytes of one slot leaves the other slots alone. */
  lemma OtherSlot(b: seq<byte>, b': seq<byte>, cap: nat, elementSize: nat, i: nat, j: nat)
    requires |b| == |b'| && Fits(|b|, cap, elementSize) && i < cap && j < cap && i != j
    requires forall x :: 0 <= x < |b| && !(Offset(i, elementSize) <= x < Offset(i, elementSize) + elementSize) ==> b'[x] == b[x]
    ensures Slot(b', cap, elementSize, j) == Slot(b, cap, elementSize, j)
  {
    if i < j { Before(i, j, elementSize); } else { Before(j, i, elementSize); }
    SlotInside(|b|, cap, elementSize, j, 0);
  }
}
