/** Guest memory behind the DMA helpers of bridge_vcs.c, as the virtqueue code uses them.  A call
    of length zero always fails, and so does a read that is longer than the transport can take;
    any other call may fail. */
module DmaPort {
  import opened GuestMemory

  /** The longest read that can succeed: at least a descriptor. */
  type ReadLimit = n: nat | n >= 16 witness 16

  class Dma {
    /** The receive buffer of a read holds 4096 bytes over TCP; over shared memory the DMA buffer
        is the limit. */
    const limit: ReadLimit
    /** Reads may succeed again after a write has failed.  Over neither transport they do, unless
        tags repeat or a full ring swallows a completion. */
    const recovers: bool
    var mem: Memory
    /** Calls that failed although their length was neither zero nor too long. */
    ghost var faults: nat
    /** A write has failed. */
    var lost: bool

    constructor (mem: Memory, limit: ReadLimit, recovers: bool)
      ensures this.mem == mem && this.limit == limit && this.recovers == recovers && faults == 0 && !lost
    {
      this.limit, this.recovers := limit, recovers;
      this.mem := mem;
      faults, lost := 0, false;
    }

    /** bridge_dma_read_bytes into `buf` from position `at` on. */
    method ReadInto(addr: nat, buf: array<byte>, at: nat, len: nat) returns (ok: bool)
      requires at + len <= buf.Length
      modifies this`faults, buf
      ensures ok ==> 0 < len <= limit && buf[at..at + len] == Load(mem, addr, len) && faults == old(faults)
      ensures !ok ==> faults == old(faults) + (if 0 < len <= limit then 1 else 0)
      ensures lost && !recovers ==> !ok
      ensures forall k :: 0 <= k < buf.Length && !(at <= k < at + len) ==> buf[k] == old(buf[k])
    {
      var fine: bool := *;
      if len == 0 || len > limit { return false; }
      if !fine || (lost && !recovers) {
        faults := faults + 1;
        return false;
      }
      var bs := Load(mem, addr, len);
      forall k | at <= k < at + len {
        buf[k] := bs[k - at];
      }
      assert buf[at..at + len] == bs;
      return true;
    }

    /** bridge_dma_read_bytes for a few bytes. */
    method Read(addr: nat, len: nat) returns (ok: bool, bs: seq<byte>)
      modifies this`faults
      ensures ok ==> 0 < len <= limit && bs == Load(mem, addr, len) && faults == old(faults)
      ensures !ok ==> faults == old(faults) + (if 0 < len <= limit then 1 else 0)
      ensures lost && !recovers ==> !ok
    {
      var buf := new byte[len](_ => 0);
      ok := ReadInto(addr, buf, 0, len);
      bs := buf[..];
    }

    /** bridge_dma_write_bytes.  A write that is reported as failed may have landed. */
    method Write(addr: nat, bs: seq<byte>) returns (ok: bool)
      modifies this
      ensures ok ==> bs != [] && mem == Store(old(mem), addr, bs) && faults == old(faults)
      ensures !ok ==> mem == old(mem) || (bs != [] && mem == Store(old(mem), addr, bs))
      ensures !ok ==> faults == old(faults) + (if bs != [] then 1 else 0)
      ensures lost == (old(lost) || (!ok && bs != []))
    {
      var fine: bool, landed: bool := *, *;
      if bs == [] { return false; }
      if fine || landed { mem := Store(mem, addr, bs); }
      if !fine { faults, lost := faults + 1, true; }
      return fine;
    }
  }
}
