/** The raw MAC calls of eth_mac_dpi.c as the virtqueue code sees them. */
module MacPort {
  import opened GuestMemory

  class Mac {
    /** Packets handed over for sending. */
    var offered: seq<seq<byte>>
    /** Frames waiting to be received. */
    var pending: seq<seq<byte>>

    /** vcs_eth_mac_send_raw: what the link makes of the packet is not looked at by the caller. */
    method SendRaw(data: array<byte>, len: nat) returns (rc: int)
      requires len <= data.Length
      modifies this`offered
      ensures offered == old(offered) + [data[..len]]
    {
      offered := offered + [data[..len]];
      rc := *;
    }

    /** vcs_eth_mac_recv_raw: the oldest frame, cut at `max` bytes; 0 if there is none. */
    method RecvRaw(max: nat) returns (len: nat, frame: seq<byte>)
      modifies this`pending
      ensures len == |frame|
      ensures old(pending) == [] ==> frame == [] && pending == []
      ensures old(pending) != [] ==> pending == old(pending)[1..] && frame == old(pending)[0][..Cut(old(pending)[0], max)]
    {
      if pending == [] { return 0, []; }
      frame := pending[0][..Cut(pending[0], max)];
      pending := pending[1..];
      len := |frame|;
    }
  }

  function Cut(f: seq<byte>, max: nat): (n: nat)
    ensures n <= |f| && n <= max && (n == |f| || n == max)
  {
    if |f| < max then |f| else max
  }
}
