/** Messages over a byte stream: the framing of transport_tcp.c.  A socket hands over any
    non-empty piece of what was asked for, and may be interrupted or fail at any call. */
module Framing {
  import opened GuestMemory

  // ---------- messages ----------

  /** Messages with a fixed payload, by type. */
  datatype Kind = Sync | Tlp | Cpl | DmaReq | DmaCpl | Msi

  const DMA_DATA: nat := 0x08
  const HEADER: nat := 8
  const DATA_HEADER: nat := 24
  const WRAP: nat := 0x1_0000_0000

  function Code(k: Kind): (c: nat)
    ensures c < DMA_DATA
  {
    match k case Sync => 0x01 case Tlp => 0x02 case Cpl => 0x03 case DmaReq => 0x04 case DmaCpl => 0x05 case Msi => 0x06
  }

  function Size(k: Kind): (n: nat)
    ensures n < 256
  {
    match k case Sync => 8 case Tlp => 112 case Cpl => 84 case DmaReq => 32 case DmaCpl => 16 case Msi => 16
  }

  datatype Msg = Fixed(kind: Kind, body: seq<byte>) | Data(head: seq<byte>, bytes: seq<byte>)

  /** A DMA_DATA carries tag, direction and address in 16 bytes, then the length. */
  predicate Proper(m: Msg) {
    match m
    case Fixed(k, body) => |body| == Size(k)
    case Data(head, bytes) => |head| == 16 && |bytes| < WRAP
  }

  function Header(code: nat, len: nat): (h: seq<byte>)
    ensures |h| == HEADER
  {
    LeBytes(code, 4) + LeBytes(len, 4)
  }

  /** The payload length field is 32 bits wide. */
  function Encode(m: Msg): seq<byte> {
    match m
    case Fixed(k, body) => Header(Code(k), |body|) + body
    case Data(head, bytes) => Header(DMA_DATA, (DATA_HEADER + |bytes|) % WRAP) + (head + LeBytes(|bytes|, 4) + [0, 0, 0, 0]) + bytes
  }

  /** The four bytes of a 32-bit field, lowest first. */
  function Bytes4(v: nat): (bs: seq<byte>)
    requires v < WRAP
  {
    [v % 0x100, v / 0x100 % 0x100, v / 0x1_0000 % 0x100, v / 0x100_0000]
  }

  lemma LeBytes4(v: nat)
    requires v < WRAP
    ensures LeBytes(v, 4) == Bytes4(v)
  {
    assert LeBytes(v / 0x100_0000, 1) == [v / 0x100_0000] + [];
    assert v / 0x100 / 0x100 == v / 0x1_0000 && v / 0x1_0000 / 0x100 == v / 0x100_0000;
    assert LeBytes(v / 0x1_0000, 2) == [v / 0x1_0000 % 0x100] + LeBytes(v / 0x100_0000, 1);
    assert LeBytes(v / 0x100, 3) == [v / 0x100 % 0x100] + LeBytes(v / 0x1_0000, 2);
  }

  /** The messages on the wire: type and length of the payload, then the payload. */
  lemma FixedOnTheWire(k: Kind, body: seq<byte>)
    requires Proper(Fixed(k, body))
    ensures Encode(Fixed(k, body)) == (
      match k
      case Sync => [1, 0, 0, 0, 8, 0, 0, 0]
      case Tlp => [2, 0, 0, 0, 112, 0, 0, 0]
      case Cpl => [3, 0, 0, 0, 84, 0, 0, 0]
      case DmaReq => [4, 0, 0, 0, 32, 0, 0, 0]
      case DmaCpl => [5, 0, 0, 0, 16, 0, 0, 0]
      case Msi => [6, 0, 0, 0, 16, 0, 0, 0]) + body
  {
    LeBytes4(Code(k));
    LeBytes4(Size(k));
  }

  lemma DataRow(head: seq<byte>, bytes: seq<byte>)
    requires Proper(Data(head, bytes))
    ensures Encode(Data(head, bytes)) ==
      LeBytes(8, 4) + LeBytes((24 + |bytes|) % WRAP, 4) + head + LeBytes(|bytes|, 4) + [0, 0, 0, 0] + bytes
  {
    InARow(LeBytes(8, 4), LeBytes((24 + |bytes|) % WRAP, 4), head, LeBytes(|bytes|, 4), [0, 0, 0, 0], bytes);
  }

  /** A DMA_DATA has type 8, and in front of the data 16 bytes of its own, the length of the data
      and four zero bytes. */
  lemma DataOnTheWire(head: seq<byte>, bytes: seq<byte>)
    requires Proper(Data(head, bytes))
    ensures Encode(Data(head, bytes)) ==
      Bytes4(8) + Bytes4((24 + |bytes|) % WRAP) + head + Bytes4(|bytes|) + [0, 0, 0, 0] + bytes
  {
    DataRow(head, bytes);
    LeBytes4(8);
    LeBytes4((24 + |bytes|) % WRAP);
    LeBytes4(|bytes|);
  }

  lemma InARow(a: seq<byte>, b: seq<byte>, c: seq<byte>, d: seq<byte>, e: seq<byte>, f: seq<byte>)
    ensures (a + b) + (c + d + e) + f == a + b + c + d + e + f
  {
  }

  /** The encodings of some messages, one after the other. */
  function EncodeAll(enc: Msg -> seq<byte>, ms: seq<Msg>): seq<byte> {
    if ms == [] then [] else enc(ms[0]) + EncodeAll(enc, ms[1..])
  }

  lemma EncodeNext(enc: Msg -> seq<byte>, ms: seq<Msg>, i: nat)
    requires i < |ms|
    ensures EncodeAll(enc, ms[i..]) == enc(ms[i]) + EncodeAll(enc, ms[i + 1..])
  {
    assert ms[i..][1..] == ms[i + 1..];
  }

  /** `enc` is Encode, taken apart only where Encode itself is mentioned. */
  ghost predicate Encodes(enc: Msg -> seq<byte>) {
    forall m {:trigger Encode(m)} :: enc(m) == Encode(m)
  }

  function TypeOf(s: seq<byte>): nat
    requires |s| >= HEADER
  {
    Le(s[..4])
  }

  function LengthOf(s: seq<byte>): nat
    requires |s| >= HEADER
  {
    Le(s[4..8])
  }

  /** Length field of the nested header of a DMA_DATA. */
  function DataLength(s: seq<byte>): nat
    requires |s| >= HEADER + DATA_HEADER
  {
    Le(s[24..28])
  }

  // ---------- the socket ----------

  /** One direction of a connection: `stream` is what was sent and not yet received, of which
      `arrived` bytes can be peeked at.  `signals` bounds how often calls are still interrupted,
      `faults` counts calls that failed for any other reason. */
  class Stream {
    var stream: seq<byte>
    var arrived: nat
    var signals: nat
    ghost var faults: nat

    constructor ()
      ensures stream == [] && faults == 0
    {
      stream, arrived, signals, faults := [], 0, *, 0;
    }

    /** send: some of the bytes, or none; `interrupted` stands for EINTR. */
    method Send(buf: seq<byte>) returns (n: int, interrupted: bool)
      requires buf != []
      modifies this
      ensures -1 <= n <= |buf| && stream == old(stream) + buf[..if n < 0 then 0 else n]
      ensures interrupted ==> n == -1 && signals < old(signals) && faults == old(faults)
      ensures !interrupted ==> signals == old(signals) && faults == old(faults) + if n <= 0 then 1 else 0
    {
      n, interrupted := *, *;
      if interrupted && signals > 0 {
        signals := signals - 1;
        return -1, true;
      }
      interrupted := false;
      if !(0 < n <= |buf|) {
        n := if n == 0 then 0 else -1;
        faults := faults + 1;
      }
      stream := stream + buf[..if n < 0 then 0 else n];
    }

    /** recv: some of the bytes that are there, or none and an error or the end of the stream.
        Finding no bytes at all is not counted as a fault. */
    method Recv(max: nat) returns (n: int, bs: seq<byte>, interrupted: bool)
      requires max > 0
      modifies this
      ensures -1 <= n <= max && n <= |old(stream)|
      ensures n > 0 ==> |bs| == n && bs == old(stream)[..n] && stream == old(stream)[n..]
      ensures n <= 0 ==> stream == old(stream)
      ensures interrupted ==> n == -1 && signals < old(signals) && faults == old(faults)
      ensures !interrupted ==> signals == old(signals)
      ensures !interrupted ==> faults == old(faults) + if n <= 0 && old(stream) != [] then 1 else 0
    {
      n, bs, interrupted := *, [], *;
      if interrupted && signals > 0 {
        signals := signals - 1;
        return -1, [], true;
      }
      interrupted := false;
      if 0 < n <= max && n <= |stream| {
        bs, stream := stream[..n], stream[n..];
        arrived := *;
      } else {
        n := if n == 0 then 0 else -1;
        if stream != [] { faults := faults + 1; }
      }
    }
  }

  /** tcp_send_all: an interrupted call is repeated, any other failure is final. */
  method SendAll(t: Stream, buf: seq<byte>) returns (ok: bool)
    modifies t
    ensures ok ==> t.stream == old(t.stream) + buf && t.faults == old(t.faults)
    ensures !ok ==> exists k :: 0 <= k < |buf| && t.stream == old(t.stream) + buf[..k]
    ensures !ok ==> t.faults > old(t.faults)
  {
    var sent := 0;
    while sent < |buf|
      invariant 0 <= sent <= |buf| && t.stream == old(t.stream) + buf[..sent] && t.faults == old(t.faults)
      decreases |buf| - sent, t.signals
    {
      var n, interrupted := t.Send(buf[sent..]);
      if n < 0 {
        if interrupted { continue; }
        return false;
      }
      if n == 0 { return false; }
      assert buf[..sent + n] == buf[..sent] + buf[sent..][..n];
      sent := sent + n;
    }
    ok := true;
  }

  lemma NextPart(s: seq<byte>, k: nat, n: nat)
    requires k + n <= |s|
    ensures s[..k + n] == s[..k] + s[k..][..n] && s[k..][n..] == s[k + n..]
  {
  }

  /** tcp_recv_all: fill `buf` up to `len`. */
  method RecvAll(t: Stream, buf: array<byte>, len: nat) returns (ok: bool)
    requires len <= buf.Length
    modifies t, buf
    ensures ok ==> len <= |old(t.stream)| && buf[..len] == old(t.stream)[..len] && t.stream == old(t.stream)[len..]
    ensures ok ==> t.faults == old(t.faults)
    ensures !ok ==> exists k :: 0 <= k <= |old(t.stream)| && k < len && t.stream == old(t.stream)[k..]
    ensures !ok ==> t.faults > old(t.faults) || |old(t.stream)| < len
    ensures forall i :: len <= i < buf.Length ==> buf[i] == old(buf[i])
  {
    var received := 0;
    while received < len
      invariant 0 <= received <= len && received <= |old(t.stream)| && t.faults == old(t.faults)
      invariant buf[..received] == old(t.stream)[..received] && t.stream == old(t.stream)[received..]
      invariant forall i :: len <= i < buf.Length ==> buf[i] == old(buf[i])
      decreases len - received, t.signals
    {
      var n, bs, interrupted := t.Recv(len - received);
      if n < 0 {
        if interrupted { continue; }
        return false;
      }
      if n == 0 { return false; }
      NextPart(old(t.stream), received, n);
      ghost var before := buf[..received];
      forall i | 0 <= i < n { buf[received + i] := bs[i]; }
      assert buf[..received + n] == before + bs;
      received := received + n;
    }
    ok := true;
  }

  /** The same into a fresh buffer. */
  method RecvBytes(t: Stream, len: nat) returns (ok: bool, bs: seq<byte>)
    modifies t
    ensures ok ==> len <= |old(t.stream)| && bs == old(t.stream)[..len] && t.stream == old(t.stream)[len..]
    ensures ok ==> t.faults == old(t.faults)
    ensures !ok ==> exists k :: 0 <= k <= |old(t.stream)| && k < len && t.stream == old(t.stream)[k..]
    ensures !ok ==> t.faults > old(t.faults) || |old(t.stream)| < len
  {
    var buf := new byte[len](_ => 0);
    ok := RecvAll(t, buf, len);
    bs := buf[..];
  }

  // ---------- sending ----------

  lemma CutFirst(x: seq<byte>, y: seq<byte>, k: nat)
    requires k <= |x|
    ensures (x + y)[..k] == x[..k]
  {
  }

  lemma CutSecond(before: seq<byte>, x: seq<byte>, y: seq<byte>, k: nat)
    requires k <= |y|
    ensures before + x + y[..k] == before + (x + y)[..|x| + k]
  {
    assert (x + y)[..|x| + k] == x + y[..k];
  }

  lemma Together(before: seq<byte>, x: seq<byte>, y: seq<byte>)
    ensures before + x + y == before + (x + y)
  {
  }

  /** Three pieces in separate calls. */
  method SendPieces(t: Stream, a: seq<byte>, b: seq<byte>, c: seq<byte>) returns (ok: bool)
    modifies t
    ensures ok ==> t.stream == old(t.stream) + (a + b + c)
    ensures !ok ==> exists k :: 0 <= k < |a + b + c| && t.stream == old(t.stream) + (a + b + c)[..k]
    ensures ok ==> t.faults == old(t.faults)
    ensures !ok ==> t.faults > old(t.faults)
  {
    ghost var before := t.stream;
    ok := SendAll(t, a);
    if !ok {
      ghost var k :| 0 <= k < |a| && t.stream == before + a[..k];
      CutFirst(a, b, k);
      CutFirst(a + b, c, k);
      return;
    }
    ok := SendAll(t, b);
    Together(before, a, b);
    if !ok {
      ghost var k :| 0 <= k < |b| && t.stream == before + a + b[..k];
      CutSecond(before, a, b, k);
      CutFirst(a + b, c, |a| + k);
      return;
    }
    ok := SendAll(t, c);
    Together(before, a + b, c);
    if !ok {
      ghost var k :| 0 <= k < |c| && t.stream == before + (a + b) + c[..k];
      CutSecond(before, a + b, c, k);
    }
  }

  /** tcp_send_msg and tcp_send_dma_data: header and payload in separate calls. */
  method SendMsg(t: Stream, m: Msg) returns (ok: bool)
    requires Proper(m)
    modifies t
    ensures ok ==> t.stream == old(t.stream) + Encode(m)
    ensures !ok ==> exists k :: 0 <= k < |Encode(m)| && t.stream == old(t.stream) + Encode(m)[..k]
    ensures ok ==> t.faults == old(t.faults)
    ensures !ok ==> t.faults > old(t.faults)
  {
    var a, b, c := Pieces(m);
    ok := SendPieces(t, a, b, c);
  }

  /** The pieces a message is sent in. */
  method Pieces(m: Msg) returns (a: seq<byte>, b: seq<byte>, c: seq<byte>)
    ensures a + b + c == Encode(m)
  {
    match m {
      case Fixed(k, body) =>
        a, b, c := Header(Code(k), |body|), body, [];
        assert a + b + c == a + b;
      case Data(head, bytes) =>
        a, b, c := Header(DMA_DATA, (DATA_HEADER + |bytes|) % WRAP), head + LeBytes(|bytes|, 4) + [0, 0, 0, 0], bytes;
    }
  }

  // ---------- receiving ----------

  /** What tcp_recv_sync, tcp_recv_tlp, tcp_recv_cpl, … accept at the head of the stream: the type
      counts, and for a sync message the length as well. */
  predicate Acceptable(s: seq<byte>, k: Kind) {
    && |s| >= HEADER + Size(k) && TypeOf(s) == Code(k) && (k == Sync ==> LengthOf(s) == Size(k))
  }

  /** A message of another type, or length, loses its header; nothing else makes the call fail but
      the connection. */
  method RecvFixed(t: Stream, k: Kind) returns (ok: bool, body: seq<byte>)
    modifies t
    ensures ok ==> Acceptable(old(t.stream), k) && t.faults == old(t.faults)
    ensures !ok ==> t.faults > old(t.faults) || !Acceptable(old(t.stream), k)
    ensures !ok && t.faults == old(t.faults) && |old(t.stream)| >= HEADER + Size(k) ==> t.stream == old(t.stream)[HEADER..]
    ensures ok ==> body == old(t.stream)[HEADER..HEADER + Size(k)] && t.stream == old(t.stream)[HEADER + Size(k)..]
    ensures !ok ==> exists n :: 0 <= n <= |old(t.stream)| && n < HEADER + Size(k) && t.stream == old(t.stream)[n..]
  {
    var h;
    body := [];
    ok, h := RecvBytes(t, HEADER);
    if !ok { return; }
    assert h[..4] == old(t.stream)[..4] && h[4..] == old(t.stream)[4..8];
    if Le(h[..4]) != Code(k) || (k == Sync && Le(h[4..]) != Size(k)) { return false, []; }
    ok, body := RecvBytes(t, Size(k));
  }

  /** What tcp_recv_dma_data accepts. */
  predicate AcceptableData(s: seq<byte>) {
    && |s| >= HEADER + DATA_HEADER && TypeOf(s) == DMA_DATA && LengthOf(s) >= DATA_HEADER
    && LengthOf(s) == (DATA_HEADER + DataLength(s)) % WRAP && |s| >= HEADER + DATA_HEADER + DataLength(s)
  }

  method RecvData(t: Stream) returns (ok: bool, head: seq<byte>, bytes: seq<byte>)
    modifies t
    ensures ok ==> AcceptableData(old(t.stream)) && t.faults == old(t.faults)
    ensures !ok ==> t.faults > old(t.faults) || !AcceptableData(old(t.stream))
    ensures ok ==> var n := HEADER + DATA_HEADER + DataLength(old(t.stream));
      head == old(t.stream)[8..24] && bytes == old(t.stream)[32..n] && t.stream == old(t.stream)[n..]
  {
    var h, dh;
    head, bytes := [], [];
    ok, h := RecvBytes(t, HEADER);
    if !ok { return; }
    assert h[..4] == old(t.stream)[..4] && h[4..] == old(t.stream)[4..8];
    if Le(h[..4]) != DMA_DATA || Le(h[4..]) < DATA_HEADER { return false, [], []; }
    ok, dh := RecvBytes(t, DATA_HEADER);
    if !ok { return; }
    assert dh[16..20] == old(t.stream)[24..28] && dh[..16] == old(t.stream)[8..24];
    var n := Le(dh[16..20]);
    if Le(h[4..]) != (DATA_HEADER + n) % WRAP { return false, [], []; }
    head := dh[..16];
    ok, bytes := RecvBytes(t, n);
  }

  /** Header and payload have been sent. */
  predicate WholeMessage(s: seq<byte>) { |s| >= HEADER && HEADER + LengthOf(s) <= |s| }

  /** tcp_skip_aux_msg: drop header and payload, 4096 bytes at a time. */
  method Skip(t: Stream) returns (ok: bool)
    modifies t
    ensures ok ==> WholeMessage(old(t.stream)) && t.faults == old(t.faults)
    ensures ok ==> t.stream == old(t.stream)[HEADER + LengthOf(old(t.stream))..]
    ensures !ok ==> t.faults > old(t.faults) || !WholeMessage(old(t.stream))
  {
    var h, chunk;
    ok, h := RecvBytes(t, HEADER);
    if !ok { return; }
    assert h[4..] == old(t.stream)[4..8];
    ghost var len := LengthOf(old(t.stream));
    var remaining := Le(h[4..]);
    while remaining > 0
      invariant 0 <= remaining <= len && HEADER + len - remaining <= |old(t.stream)|
      invariant t.stream == old(t.stream)[HEADER + len - remaining..] && t.faults == old(t.faults)
    {
      var n := if remaining < 4096 then remaining else 4096;
      ok, chunk := RecvBytes(t, n);
      if !ok { return; }
      remaining := remaining - n;
    }
    ok := true;
  }

  /** A whole header can be peeked at. */
  predicate HeaderThere(t: Stream)
    reads t
  {
    t.arrived >= HEADER && |t.stream| >= HEADER
  }

  /** tcp_peek_aux_msg_type: the type of the next message, -1 if its header is not there yet, the
      poll was interrupted, or the connection failed. */
  method Peek(t: Stream) returns (code: int)
    modifies t`signals, t`faults
    ensures code >= 0 ==> HeaderThere(t) && code == TypeOf(t.stream) && t.faults == old(t.faults)
    ensures code < 0 ==> code == -1 && (!HeaderThere(t) || t.faults > old(t.faults) || t.signals < old(t.signals))
  {
    var interrupted: bool, fails: bool := *, *;
    if interrupted && t.signals > 0 {
      t.signals := t.signals - 1;
      return -1;
    }
    if fails {
      t.faults := t.faults + 1;
      return -1;
    }
    if t.arrived >= HEADER && |t.stream| >= HEADER { return Le(t.stream[..4]); }
    return -1;
  }

  /** tcp_recv_dma_req_nb and tcp_recv_msi_nb: 1 and nothing consumed unless a message of this
      type is at the head. */
  method RecvIfThere(t: Stream, k: Kind) returns (rc: int, body: seq<byte>)
    modifies t
    ensures rc == 1 || rc == 0 || rc == -1
    ensures rc == 1 ==> t.stream == old(t.stream)
    ensures rc == 1 ==> !old(HeaderThere(t)) || TypeOf(old(t.stream)) != Code(k) || t.faults > old(t.faults) || t.signals < old(t.signals)
    ensures rc != 1 ==> |old(t.stream)| >= HEADER && TypeOf(old(t.stream)) == Code(k)
    ensures rc == 0 ==> |old(t.stream)| >= HEADER + Size(k) && body == old(t.stream)[HEADER..HEADER + Size(k)]
                        && t.stream == old(t.stream)[HEADER + Size(k)..] && t.faults == old(t.faults)
    ensures rc == -1 ==> t.faults > old(t.faults) || |old(t.stream)| < HEADER + Size(k)
  {
    body := [];
    var code := Peek(t);
    if code != Code(k) { return 1, []; }
    var ok, h := RecvBytes(t, HEADER);
    if !ok { return -1, []; }
    ok, body := RecvBytes(t, Size(k));
    rc := if ok then 0 else -1;
  }

  // ---------- what was sent is what is received ----------

  lemma HeaderDecodes(code: nat, len: nat, rest: seq<byte>)
    requires code < WRAP && len < WRAP
    ensures TypeOf(Header(code, len) + rest) == code && LengthOf(Header(code, len) + rest) == len
  {
    var s := Header(code, len) + rest;
    LeRound(code, 4);
    LeRound(len, 4);
    assert s[..4] == LeBytes(code, 4) && s[4..8] == LeBytes(len, 4);
  }

  /** A fixed message is recognized by its own receive function and by no other. */
  lemma FixedDecodes(k: Kind, body: seq<byte>, rest: seq<byte>, expected: Kind)
    requires |body| == Size(k)
    ensures var s := Encode(Fixed(k, body)) + rest;
      && (Acceptable(s, expected) <==> expected == k) && !AcceptableData(s)
      && s[HEADER..HEADER + Size(k)] == body && s[HEADER + Size(k)..] == rest
      && HEADER + LengthOf(s) == |Encode(Fixed(k, body))|
  {
    var s := Encode(Fixed(k, body)) + rest;
    assert s == Header(Code(k), |body|) + (body + rest);
    HeaderDecodes(Code(k), |body|, body + rest);
  }

  lemma FieldIs(s: seq<byte>, i: nat, v: nat)
    requires i + 4 <= |s| && v < WRAP
    ensures Le(s[i..i + 4]) == v <==> s[i..i + 4] == Bytes4(v)
  {
    LeUnique(s[i..i + 4]);
    LeRound(v, 4);
    LeBytes4(v);
  }

  /** What is accepted as a fixed message, byte for byte: its type, enough bytes and, for a sync
      message only, its length. */
  lemma AcceptableMeans(s: seq<byte>, k: Kind)
    ensures Acceptable(s, k) <==>
      var (code, size) := match k
                          case Sync => (1, 8) case Tlp => (2, 112) case Cpl => (3, 84)
                          case DmaReq => (4, 32) case DmaCpl => (5, 16) case Msi => (6, 16);
      |s| >= 8 + size && s[..4] == Bytes4(code) && (k == Sync ==> s[4..8] == Bytes4(8))
  {
    if |s| >= 8 {
      assert s[..4] == s[0..4];
      FieldIs(s, 0, Code(k));
      FieldIs(s, 4, 8);
    }
  }

  /** And as a DMA_DATA: type 8, and two lengths that agree. */
  lemma AcceptableDataMeans(s: seq<byte>)
    ensures AcceptableData(s) <==>
      && |s| >= 32 && s[..4] == Bytes4(8)
      && var len, n := Le(s[4..8]), Le(s[24..28]); len >= 24 && len == (24 + n) % 0x1_0000_0000 && |s| >= 32 + n
  {
    if |s| >= 8 {
      assert s[..4] == s[0..4];
      FieldIs(s, 0, 8);
    }
  }

  lemma Middle(x: seq<byte>, y: seq<byte>, z: seq<byte>)
    ensures (x + y + z)[|x|..|x| + |y|] == y && (x + y + z)[|x| + |y|..] == z
  {
  }

  lemma Regroup(a: seq<byte>, b: seq<byte>, c: seq<byte>, d: seq<byte>)
    ensures a + (b + c + [0, 0, 0, 0]) + d == a + b + (c + [0, 0, 0, 0] + d)
    ensures a + (b + c + [0, 0, 0, 0]) + d == (a + b) + c + ([0, 0, 0, 0] + d)
  {
  }

  lemma DataParts(n: nat, head: seq<byte>, len: seq<byte>, bytes: seq<byte>, rest: seq<byte>)
    requires |head| == 16 && |len| == 4
    ensures var h := Header(DMA_DATA, n);
      var s := h + (head + len + [0, 0, 0, 0]) + bytes + rest;
      && s == h + (head + len + [0, 0, 0, 0] + bytes + rest)
      && s[8..24] == head && s[24..28] == len && s[32..32 + |bytes|] == bytes && s[32 + |bytes|..] == rest
  {
    var h, mid := Header(DMA_DATA, n), head + len + [0, 0, 0, 0];
    var s := h + mid + bytes + rest;
    assert s == h + (mid + bytes + rest);
    Middle(h + mid, bytes, rest);
    assert h + mid + (bytes + rest) == s;
    Regroup(h, head, len, bytes + rest);
    Middle(h, head, len + [0, 0, 0, 0] + (bytes + rest));
    Middle(h + head, len, [0, 0, 0, 0] + (bytes + rest));
  }

  lemma DataFields(head: seq<byte>, bytes: seq<byte>, rest: seq<byte>)
    requires Proper(Data(head, bytes))
    ensures var s := Encode(Data(head, bytes)) + rest;
      && TypeOf(s) == DMA_DATA && LengthOf(s) == (DATA_HEADER + |bytes|) % WRAP && DataLength(s) == |bytes|
      && s[8..24] == head && s[32..32 + |bytes|] == bytes && s[32 + |bytes|..] == rest
  {
    var n := (DATA_HEADER + |bytes|) % WRAP;
    DataParts(n, head, LeBytes(|bytes|, 4), bytes, rest);
    HeaderDecodes(DMA_DATA, n, head + LeBytes(|bytes|, 4) + [0, 0, 0, 0] + bytes + rest);
    LeRound(|bytes|, 4);
  }

  /** A DMA_DATA is accepted exactly when its payload length fits the 32-bit field, and then
      comes out whole; a longer one is rejected. */
  lemma DataDecodes(head: seq<byte>, bytes: seq<byte>, rest: seq<byte>)
    requires Proper(Data(head, bytes))
    ensures var s := Encode(Data(head, bytes)) + rest;
      && (forall k :: !Acceptable(s, k)) && (AcceptableData(s) <==> DATA_HEADER + |bytes| < WRAP)
      && DataLength(s) == |bytes| && s[8..24] == head && s[32..32 + |bytes|] == bytes && s[32 + |bytes|..] == rest
  {
    DataFields(head, bytes, rest);
    HeaderFits(|bytes|);
    Lengths(head, bytes, rest);
  }

  lemma Lengths(head: seq<byte>, bytes: seq<byte>, rest: seq<byte>)
    requires Proper(Data(head, bytes))
    ensures |Encode(Data(head, bytes)) + rest| == HEADER + DATA_HEADER + |bytes| + |rest|
  {
  }

  lemma HeaderFits(n: nat)
    requires n < WRAP
    ensures (DATA_HEADER + n) % WRAP >= DATA_HEADER <==> DATA_HEADER + n < WRAP
  {
  }

  /** Shorter than 2^32 - 24 bytes: the messages the protocol can carry. */
  predicate Carried(m: Msg) { Proper(m) && (m.Data? ==> DATA_HEADER + |m.bytes| < WRAP) }

  /** tcp_skip_aux_msg consumes exactly one message. */
  lemma SkipsOne(m: Msg, rest: seq<byte>)
    requires Carried(m)
    ensures var s := Encode(m) + rest; |s| >= HEADER && HEADER + LengthOf(s) == |Encode(m)|
    ensures (Encode(m) + rest)[|Encode(m)|..] == rest
  {
    match m
    case Fixed(k, body) => FixedDecodes(k, body, rest, k);
    case Data(head, bytes) => DataFields(head, bytes, rest);
  }

  method SendEncoded(t: Stream, m: Msg, ghost enc: Msg -> seq<byte>) returns (ok: bool)
    requires Proper(m) && Encodes(enc)
    modifies t
    ensures ok ==> t.stream == old(t.stream) + enc(m)
    ensures ok ==> t.faults == old(t.faults)
    ensures !ok ==> t.faults > old(t.faults)
  {
    assert enc(m) == Encode(m);
    ok := SendMsg(t, m);
  }

  method SendAllMsgs(t: Stream, ms: seq<Msg>, ghost enc: Msg -> seq<byte>) returns (ok: bool)
    requires Encodes(enc) && forall m :: m in ms ==> Proper(m)
    modifies t
    ensures ok ==> t.stream == old(t.stream) + EncodeAll(enc, ms)
    ensures ok ==> t.faults == old(t.faults)
    ensures !ok ==> t.faults > old(t.faults)
  {
    var i := 0;
    assert ms[0..] == ms;
    while i < |ms|
      invariant t.faults == old(t.faults)
      invariant 0 <= i <= |ms| && t.stream + EncodeAll(enc, ms[i..]) == old(t.stream) + EncodeAll(enc, ms)
    {
      EncodeNext(enc, ms, i);
      ghost var before, one, tail := t.stream, enc(ms[i]), EncodeAll(enc, ms[i + 1..]);
      ok := SendEncoded(t, ms[i], enc);
      if !ok { return; }
      assert before + (one + tail) == (before + one) + tail;
      i := i + 1;
    }
    assert EncodeAll(enc, ms[i..]) == [];
    ok := true;
  }

  /** What the receiver expects next. */
  datatype Shape = AnyData | OneOf(kind: Kind)

  function ShapeOf(m: Msg): Shape { if m.Data? then AnyData else OneOf(m.kind) }

  /** The receive call for a message of the expected kind. */
  method RecvMsg(t: Stream, shape: Shape, ghost m: Msg, ghost rest: seq<byte>, ghost enc: Msg -> seq<byte>) returns (ok: bool, got: Msg)
    requires Encodes(enc) && Carried(m) && t.stream == enc(m) + rest && shape == ShapeOf(m)
    modifies t
    ensures ok ==> got == m && t.stream == rest
    ensures ok ==> t.faults == old(t.faults)
    ensures !ok ==> t.faults > old(t.faults)
  {
    assert enc(m) == Encode(m);
    match shape {
      case AnyData =>
        DataDecodes(m.head, m.bytes, rest);
        var head, bytes;
        ok, head, bytes := RecvData(t);
        got := Data(head, bytes);
      case OneOf(k) =>
        FixedDecodes(k, m.body, rest, k);
        var body;
        ok, body := RecvFixed(t, k);
        got := Fixed(k, body);
    }
  }

  /** Any list of messages, cut into pieces in any way on either side, comes out as it went in,
      and what follows it in the stream is untouched; only a failing connection prevents that. */
  method RecvAllMsgs(t: Stream, shapes: seq<Shape>, ghost ms: seq<Msg>, ghost rest: seq<byte>, ghost enc: Msg -> seq<byte>)
    returns (ok: bool, got: seq<Msg>)
    requires Encodes(enc) && (forall m :: m in ms ==> Carried(m)) && |shapes| == |ms|
    requires forall i :: 0 <= i < |ms| ==> shapes[i] == ShapeOf(ms[i])
    requires t.stream == EncodeAll(enc, ms) + rest
    modifies t
    ensures ok ==> got == ms && t.stream == rest
    ensures ok ==> t.faults == old(t.faults)
    ensures !ok ==> t.faults > old(t.faults)
  {
    got := [];
    var i := 0;
    assert ms[0..] == ms;
    while i < |shapes|
      invariant t.faults == old(t.faults)
      invariant 0 <= i <= |shapes| && got == ms[..i] && t.stream == EncodeAll(enc, ms[i..]) + rest
    {
      EncodeNext(enc, ms, i);
      ghost var m, tail := ms[i], EncodeAll(enc, ms[i + 1..]);
      assert enc(m) + tail + rest == enc(m) + (tail + rest);
      var one;
      ok, one := RecvMsg(t, shapes[i], m, tail + rest, enc);
      if !ok { return; }
      got := got + [one];
      i := i + 1;
    }
    assert EncodeAll(enc, ms[i..]) == [];
    ok := true;
  }
}
