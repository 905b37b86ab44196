// The IPC frame codec: the server's send path and the receive path (DkmRtpIpc/src/dkmrtp_ipc.cpp,
// lines 150-204 and 251-318) and the peer's codec (Simulator/ipc_protocol.py, lines 17-42).
module FrameCodec {
  import opened Wrappers
  import opened Bytes

  const MAGIC := 0x52495043
  const VERSION := 1
  const REQ := 0x1000
  const RSP := 0x1001
  const EVT := 0x1002
  const HEADER := 24
  const BUFFER := 65536

  datatype Header = Header(magic: nat, version: nat, ftype: nat, corr: nat, length: nat, ts: nat)

  predicate Fields(ftype: nat, corr: nat, ts: nat) {
    ftype < 0x1_0000 && corr < TWO32 && ts < Pow256(8)
  }

  // The packed struct as the host stores it: every field already swapped.
  function Memory(h: Header): (r: seq<byte>)
    ensures |r| == HEADER
  {
    LE(4, h.magic) + LE(2, h.version) + LE(2, h.ftype) + LE(4, h.corr) + LE(4, h.length) + LE(8, h.ts)
  }

  function WireHeader(ftype: nat, corr: nat, length: nat, ts: nat): Header {
    Header(Swap(4, MAGIC), Swap(2, VERSION), Swap(2, ftype), Swap(4, corr), Swap(4, length), Htonll(ts))
  }

  // The bytes of a frame, in network order.
  function Layout(ftype: nat, corr: nat, length: nat, ts: nat): (r: seq<byte>)
    ensures |r| == HEADER
  {
    BE(4, MAGIC) + BE(2, VERSION) + BE(2, ftype) + BE(4, corr) + BE(4, length) + BE(8, ts)
  }

  function FrameBytes(ftype: nat, corr: nat, ts: nat, payload: seq<byte>): seq<byte> {
    Layout(ftype, corr, |payload|, ts) + payload
  }

  lemma MemoryIsLayout(ftype: nat, corr: nat, length: nat, ts: nat)
    requires ts < Pow256(8)
    ensures Memory(WireHeader(ftype, corr, length, ts)) == Layout(ftype, corr, length, ts)
  {
    hide Pow256, LE, BE, Swap, Htonll;
    SwapInMemory(4, MAGIC);
    SwapInMemory(2, VERSION);
    SwapInMemory(2, ftype);
    SwapInMemory(4, corr);
    SwapInMemory(4, length);
    HtonllInMemory(ts);
  }

  // ---------- Receiving ----------

  // The header as memcpy finds it, then each field swapped.
  function Stored(s: seq<byte>): Header
    requires |s| >= HEADER
  {
    Header(FromLE(s[0..4]), FromLE(s[4..6]), FromLE(s[6..8]), FromLE(s[8..12]), FromLE(s[12..16]), FromLE(s[16..24]))
  }

  function HostHeader(s: seq<byte>): Header
    requires |s| >= HEADER
  {
    var w := Stored(s);
    Header(Swap(4, w.magic), Swap(2, w.version), Swap(2, w.ftype), Swap(4, w.corr), Swap(4, w.length), Htonll(w.ts))
  }

  // struct.unpack of the peer: each field read in network order.
  function PeerHeader(s: seq<byte>): Header
    requires |s| >= HEADER
  {
    Header(FromBE(s[0..4]), FromBE(s[4..6]), FromBE(s[6..8]), FromBE(s[8..12]), FromBE(s[12..16]), FromBE(s[16..24]))
  }

  datatype Received = Received(header: Header, payload: seq<byte>)

  // Datagrams no longer than a header are dropped before the header is looked at.
  function Parse(s: seq<byte>): Option<Received> {
    if |s| <= HEADER then None
    else
      var h := HostHeader(s);
      if h.magic != MAGIC || h.version != VERSION || h.length != |s| - HEADER then None
      else Some(Received(h, s[HEADER..]))
  }

  // recvfrom fills at most the buffer; the rest of the datagram is lost.
  function Truncated(s: seq<byte>): seq<byte> { if |s| > BUFFER then s[..BUFFER] else s }

  // ---------- The two codecs agree ----------

  lemma HtonllFromMemory(s: seq<byte>)
    requires |s| == 8
    ensures Htonll(FromLE(s)) == FromBE(s)
  {
    Pow256Is();
    HtonllInMemory(FromLE(s));
    WritesBack(s);
    ReadsBack(8, Htonll(FromLE(s)));
  }

  lemma SameHeader(s: seq<byte>)
    requires |s| >= HEADER
    ensures HostHeader(s) == PeerHeader(s)
  {
    hide FromLE, FromBE, Swap, Htonll;
    SwapFromMemory(s[0..4]);
    SwapFromMemory(s[4..6]);
    SwapFromMemory(s[6..8]);
    SwapFromMemory(s[8..12]);
    SwapFromMemory(s[12..16]);
    HtonllFromMemory(s[16..24]);
  }

  lemma LayoutSlices(ftype: nat, corr: nat, length: nat, ts: nat, payload: seq<byte>)
    ensures var s := Layout(ftype, corr, length, ts) + payload;
            && s[0..4] == BE(4, MAGIC) && s[4..6] == BE(2, VERSION) && s[6..8] == BE(2, ftype)
            && s[8..12] == BE(4, corr) && s[12..16] == BE(4, length) && s[16..24] == BE(8, ts)
            && s[HEADER..] == payload
  {
    hide BE;
  }

  // A header reads back as it was written.
  lemma HeaderReadsBack(ftype: nat, corr: nat, length: nat, ts: nat, payload: seq<byte>)
    requires Fields(ftype, corr, ts) && length < TWO32
    ensures PeerHeader(Layout(ftype, corr, length, ts) + payload) == Header(MAGIC, VERSION, ftype, corr, length, ts)
  {
    Pow256Is();
    hide Pow256, BE, FromBE, Layout;
    LayoutSlices(ftype, corr, length, ts, payload);
    ReadsBackBE(4, MAGIC);
    ReadsBackBE(2, VERSION);
    ReadsBackBE(2, ftype);
    ReadsBackBE(4, corr);
    ReadsBackBE(4, length);
    ReadsBackBE(8, ts);
  }

  // What was sent is received, exactly when the payload is neither empty nor too big for the buffer.
  lemma RoundTrip(ftype: nat, corr: nat, ts: nat, payload: seq<byte>)
    requires Fields(ftype, corr, ts) && |payload| < TWO32
    ensures Parse(Truncated(FrameBytes(ftype, corr, ts, payload))) ==
            if 1 <= |payload| <= BUFFER - HEADER
            then Some(Received(Header(MAGIC, VERSION, ftype, corr, |payload|, ts), payload))
            else None
  {
    hide Layout, PeerHeader, HostHeader;
    var s := FrameBytes(ftype, corr, ts, payload);
    var cut := if |s| > BUFFER then payload[..BUFFER - HEADER] else payload;
    assert Truncated(s) == Layout(ftype, corr, |payload|, ts) + cut;
    if payload != [] {
      SameHeader(Truncated(s));
      HeaderReadsBack(ftype, corr, |payload|, ts, cut);
      assert Truncated(s)[HEADER..] == cut;
    }
  }

  lemma Slices(s: seq<byte>)
    requires |s| >= HEADER
    ensures s == s[0..4] + s[4..6] + s[6..8] + s[8..12] + s[12..16] + s[16..24] + s[24..]
  {
    assert s[..4] + s[4..6] == s[..6];
    assert s[..6] + s[6..8] == s[..8];
    assert s[..8] + s[8..12] == s[..12];
    assert s[..12] + s[12..16] == s[..16];
    assert s[..16] + s[16..24] == s[..24];
  }

  // The header's fields, written out again, are the bytes they came from.
  lemma HeaderWritesBack(s: seq<byte>)
    requires |s| >= HEADER
    ensures var h := PeerHeader(s);
            && s == BE(4, h.magic) + BE(2, h.version) + BE(2, h.ftype) + BE(4, h.corr) + BE(4, h.length) + BE(8, h.ts)
                    + s[24..]
            && Fields(h.ftype, h.corr, h.ts)
  {
    Pow256Is();
    Slices(s);
    hide Pow256, BE, FromBE;
    WritesBackBE(s[0..4]);
    WritesBackBE(s[4..6]);
    WritesBackBE(s[6..8]);
    WritesBackBE(s[8..12]);
    WritesBackBE(s[12..16]);
    WritesBackBE(s[16..24]);
  }

  // Only frames are accepted: whatever parses is the frame of the fields it parses to.
  lemma OnlyFrames(s: seq<byte>)
    requires Parse(s).Some?
    ensures var r := Parse(s).value;
            && s == FrameBytes(r.header.ftype, r.header.corr, r.header.ts, r.payload)
            && r.header.length == |r.payload| == |s| - HEADER > 0
            && Fields(r.header.ftype, r.header.corr, r.header.ts)
  {
    hide Pow256, BE, FromBE, HostHeader, PeerHeader;
    SameHeader(s);
    HeaderWritesBack(s);
  }

  // ---------- The server's socket object ----------

  datatype Peer = Peer(addr: nat, port: nat)

  datatype Callbacks = Callbacks(onRequest: bool, onResponse: bool, onEvent: bool, onUnhandled: bool)

  // Which callback a datagram reaches.
  datatype Delivery = Nothing | Request(r: Received) | Response(r: Received) | Event(r: Received) | Unhandled(h: Header)

  function Deliver(cb: Callbacks, r: Received): Delivery {
    if r.header.ftype == REQ && cb.onRequest then Request(r)
    else if r.header.ftype == RSP && cb.onResponse then Response(r)
    else if r.header.ftype == EVT && cb.onEvent then Event(r)
    else if cb.onUnhandled then Unhandled(r.header)
    else Nothing
  }

  function Outcome(cb: Callbacks, datagram: seq<byte>): Delivery {
    match Parse(Truncated(datagram)) case None => Nothing case Some(r) => Deliver(cb, r)
  }

  // The callback that a type of frame has.
  predicate Handles(cb: Callbacks, ftype: nat) {
    (ftype == 0x1000 && cb.onRequest) || (ftype == 0x1001 && cb.onResponse) || (ftype == 0x1002 && cb.onEvent)
  }

  // A frame reaches the callback of its type with its fields and payload, and the one for unhandled
  // frames with its header when there is none for its type. One with no payload, or with more than the
  // buffer has room for, reaches nobody.
  lemma DeliveredExactly(cb: Callbacks, ftype: nat, corr: nat, ts: nat, payload: seq<byte>)
    requires Fields(ftype, corr, ts) && |payload| < 0x1_0000_0000
    ensures var h := Header(0x52495043, 1, ftype, corr, |payload|, ts);
            var d := Outcome(cb, FrameBytes(ftype, corr, ts, payload));
            if 1 <= |payload| <= 65512 then
              && (d == Request(Received(h, payload)) <==> ftype == 0x1000 && cb.onRequest)
              && (d == Response(Received(h, payload)) <==> ftype == 0x1001 && cb.onResponse)
              && (d == Event(Received(h, payload)) <==> ftype == 0x1002 && cb.onEvent)
              && (d == Unhandled(h) <==> !Handles(cb, ftype) && cb.onUnhandled)
              && (d == Nothing <==> !Handles(cb, ftype) && !cb.onUnhandled)
            else d == Nothing
  {
    hide Parse, Truncated, FrameBytes, Fields;
    RoundTrip(ftype, corr, ts, payload);
  }

  // Nor does a datagram that is no frame.
  lemma OnlyFramesDelivered(cb: Callbacks, datagram: seq<byte>)
    ensures Outcome(cb, datagram) != Nothing ==>
            exists ftype, corr, ts, payload ::
              Fields(ftype, corr, ts) && payload != [] && Truncated(datagram) == FrameBytes(ftype, corr, ts, payload)
  {
    hide Parse, Truncated, FrameBytes, Fields;
    if Parse(Truncated(datagram)).Some? {
      OnlyFrames(Truncated(datagram));
      var r := Parse(Truncated(datagram)).value;
      assert Fields(r.header.ftype, r.header.corr, r.header.ts) && r.payload != [];
    }
  }

  // A number of four bytes in network order.
  function Wire32(x: nat): seq<byte>
    requires x < 0x1_0000_0000
  {
    [x / 0x100_0000, x / 0x1_0000 % 256, x / 256 % 256, x % 256]
  }

  // The bytes of a frame: RIPC, version 1, then type, corr_id, length and time stamp.
  lemma FrameBytesAre(ftype: nat, corr: nat, ts: nat, payload: seq<byte>)
    requires ftype < 0x1_0000 && corr < 0x1_0000_0000 && ts < 0x1_0000_0000_0000_0000
    requires |payload| < 0x1_0000_0000
    ensures FrameBytes(ftype, corr, ts, payload) ==
            [0x52, 0x49, 0x50, 0x43, 0x00, 0x01, ftype / 256, ftype % 256] + Wire32(corr) + Wire32(|payload|)
            + Wire32(ts / 0x1_0000_0000) + Wire32(ts % 0x1_0000_0000) + payload
  {
    Pow256Is();
    hide Pow256, BE;
    FourBytes(0x52495043);
    TwoBytes(1);
    TwoBytes(ftype);
    FourBytes(corr);
    FourBytes(|payload|);
    EightBytes(ts);
    FourBytes(ts / 0x1_0000_0000);
    FourBytes(ts % 0x1_0000_0000);
    assert [0x52, 0x49, 0x50, 0x43, 0x00, 0x01, ftype / 256, ftype % 256] ==
           BE(4, MAGIC) + BE(2, VERSION) + BE(2, ftype);
    Rejoin(BE(4, MAGIC) + BE(2, VERSION) + BE(2, ftype) + BE(4, corr) + BE(4, |payload|),
           BE(4, ts / 0x1_0000_0000), BE(4, ts % 0x1_0000_0000));
  }

  lemma Rejoin(a: seq<byte>, b: seq<byte>, c: seq<byte>)
    ensures a + (b + c) == a + b + c
  {
  }

  class DkmRtpIpc {
    const callbacks: Callbacks
    const buf: array<byte>
    var sendBuf: seq<byte>
    var lastPeer: Option<Peer>

    ghost predicate Valid()
      reads this
    {
      buf.Length == BUFFER
    }

    constructor (cb: Callbacks)
      ensures Valid() && fresh(buf) && lastPeer == None && callbacks == cb
    {
      callbacks := cb;
      buf := new byte[BUFFER];
      sendBuf := [];
      lastPeer := None;
    }

    // vector::resize: keeps what fits, pads with zeroes.
    method Resize(n: nat)
      modifies this`sendBuf
      ensures |sendBuf| == n
    {
      sendBuf := if n <= |sendBuf| then sendBuf[..n] else sendBuf + seq(n - |sendBuf|, _ => 0);
    }

    method CopyIn(at: nat, bytes: seq<byte>)
      requires at + |bytes| <= |sendBuf|
      modifies this`sendBuf
      ensures sendBuf == old(sendBuf)[..at] + bytes + old(sendBuf)[at + |bytes|..]
    {
      sendBuf := sendBuf[..at] + bytes + sendBuf[at + |bytes|..];
    }

    // Header and payload, joined in the reused buffer.
    method JoinIn(header: seq<byte>, payload: seq<byte>)
      requires |header| == HEADER
      modifies this`sendBuf
      ensures sendBuf == header + payload
    {
      Resize(HEADER + |payload|);
      CopyIn(0, header);
      assert sendBuf[..HEADER] == header;
      if |payload| > 0 { CopyIn(HEADER, payload); }
    }

    // Server branch: the datagram is the frame, whatever the buffer held before.
    method SendRaw(ftype: nat, corr: nat, payload: seq<byte>, ts: nat) returns (sent: Option<(Peer, seq<byte>)>)
      requires Fields(ftype, corr, ts) && |payload| < TWO32
      modifies this`sendBuf
      ensures sent == match lastPeer
                      case None => None
                      case Some(peer) => Some((peer, FrameBytes(ftype, corr, ts, payload)))
    {
      hide Pow256, Memory, Layout, WireHeader;
      var h := WireHeader(ftype, corr, |payload|, ts);
      if lastPeer.None? { return None; }
      JoinIn(Memory(h), payload);
      MemoryIsLayout(ftype, corr, |payload|, ts);
      return Some((lastPeer.value, sendBuf));
    }

    // One turn of the receive loop: the result depends on the datagram alone, not on what earlier
    // datagrams left in the buffer.
    method Receive(datagram: seq<byte>, peer: Peer) returns (d: Delivery)
      requires Valid()
      modifies this`lastPeer, buf
      ensures Valid()
      ensures lastPeer == if |datagram| > HEADER then Some(peer) else old(lastPeer)
      ensures d == Outcome(callbacks, datagram)
    {
      hide HostHeader;
      var n := if |datagram| > BUFFER then BUFFER else |datagram|;
      Fill(datagram[..n]);
      assert datagram[..n] == Truncated(datagram);
      if n <= HEADER { return Nothing; }
      lastPeer := Some(peer);
      var got := buf[..n];
      var h := HostHeader(got);
      if h.magic != MAGIC { return Nothing; }
      if h.version != VERSION { return Nothing; }
      if h.length != n - HEADER { return Nothing; }
      return Deliver(callbacks, Received(h, buf[HEADER..n]));
    }

    // recvfrom: only the front of the buffer is overwritten.
    method Fill(bytes: seq<byte>)
      requires Valid() && |bytes| <= BUFFER
      modifies buf
      ensures buf[..|bytes|] == bytes
    {
      for i := 0 to |bytes|
        invariant buf[..i] == bytes[..i]
      {
        buf[i] := bytes[i];
        assert buf[..i + 1] == bytes[..i] + [bytes[i]] == bytes[..i + 1];
      }
    }
  }

  // ---------- The peer's functions ----------

  function PackFrame(payload: seq<byte>, ftype: nat, corr: nat, now: nat): (r: seq<byte>)
    ensures |r| == HEADER + |payload|
  {
    BE(4, MAGIC) + BE(2, VERSION) + BE(2, ftype) + BE(4, corr) + BE(4, |payload|) + BE(8, now) + payload
  }

  // None: the buffer is too small for a header.
  function UnpackHeader(buf: seq<byte>): Option<Header> {
    if |buf| < HEADER then None else Some(PeerHeader(buf))
  }

  // Both sides write the same bytes and read the same fields.
  lemma SameLayout(payload: seq<byte>, ftype: nat, corr: nat, ts: nat)
    requires Fields(ftype, corr, ts) && |payload| < TWO32
    ensures PackFrame(payload, ftype, corr, ts) == Memory(WireHeader(ftype, corr, |payload|, ts)) + payload
    ensures UnpackHeader(PackFrame(payload, ftype, corr, ts)) ==
              Some(Header(MAGIC, VERSION, ftype, corr, |payload|, ts))
    ensures UnpackHeader(PackFrame(payload, ftype, corr, ts)) == Some(HostHeader(PackFrame(payload, ftype, corr, ts)))
  {
    MemoryIsLayout(ftype, corr, |payload|, ts);
    HeaderReadsBack(ftype, corr, |payload|, ts, payload);
    SameHeader(PackFrame(payload, ftype, corr, ts));
    hide Memory, HostHeader, PeerHeader, BE, Pow256;
    assert PackFrame(payload, ftype, corr, ts) == Layout(ftype, corr, |payload|, ts) + payload;
  }
}
