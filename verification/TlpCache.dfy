/** The TLP cache of bridge_vcs.c: where TLPs wait that arrived during a DMA. */
module TlpCache {
  import opened SlotWindow
  import opened TcpProtocol
  import RingBuffer

  /** The cache after a TLP has arrived: one that finds 1023 others waiting is lost. */
  function Pushed(xs: seq<Data>, e: Data): seq<Data> {
    if |xs| < 1023 then xs + [e] else xs
  }

  class Cache {
    const slots: array<Data>
    var tail: nat
    var head: nat
    ghost var contents: seq<Data>

    ghost predicate Valid()
      reads this, slots
    {
      && slots.Length == TLP_CACHE_SIZE && tail < TLP_CACHE_SIZE && head < TLP_CACHE_SIZE && |contents| < TLP_CACHE_SIZE
      && Holds(slots[..], tail, RingBuffer.Distance(tail, head, TLP_CACHE_SIZE), contents)
    }

    constructor ()
      ensures Valid() && contents == [] && fresh(slots)
    {
      slots := new Data[TLP_CACHE_SIZE](_ => DataTlp(0, 0));
      tail, head := 0, 0;
      contents := [];
    }

    /** tlp_cache_count_ctx: the indices' difference, taken modulo the size. */
    method Count() returns (n: nat)
      requires Valid()
      ensures n == |contents|
    {
      assert contents == Window(slots[..], tail, RingBuffer.Distance(tail, head, TLP_CACHE_SIZE));
      n := (head - tail + TLP_CACHE_SIZE) % TLP_CACHE_SIZE;
    }

    /** tlp_cache_push_ctx: a TLP that finds 1023 others waiting is lost. */
    method Push(e: Data) returns (kept: bool)
      requires Valid()
      modifies this`head, this`contents, slots
      ensures Valid() && kept == (|old(contents)| < 1023)
      ensures contents == Pushed(old(contents), e)
    {
      ghost var n := RingBuffer.Distance(tail, head, TLP_CACHE_SIZE);
      assert contents == Window(slots[..], tail, n);
      var next := RingBuffer.Next(head, TLP_CACHE_SIZE);
      if next == tail { return false; }
      WindowGrows(slots[..], tail, n, head, e);
      ghost var before := slots[..];
      slots[head] := e;
      assert slots[..] == before[head := e];
      head := next;
      contents := contents + [e];
      kept := true;
    }

    /** tlp_cache_pop_ctx */
    method Pop() returns (ok: bool, e: Data)
      requires Valid()
      modifies this`tail, this`contents
      ensures Valid() && ok == (old(contents) != [])
      ensures ok ==> e == old(contents)[0] && contents == old(contents)[1..]
      ensures !ok ==> contents == old(contents)
    {
      assert contents == Window(slots[..], tail, RingBuffer.Distance(tail, head, TLP_CACHE_SIZE));
      if tail == head { return false, DataTlp(0, 0); }
      e := slots[tail];
      tail := RingBuffer.Next(tail, TLP_CACHE_SIZE);
      contents := contents[1..];
      ok := true;
    }
  }
}
