/**
 The re-framer: cuts a buffer of length-prefixed packets into interleaved frames (section 10.12 of
 RFC 2326) and writes each frame, header and payload separately, under the connection's mutex.
 */
module RtspWriter {
  import opened Bytes
  import opened RtspRecords

  function BigEndian32(a: int, b: int, c: int, d: int): int
  {
    0x100_0000 * a + 0x1_0000 * b + BigEndian16(c, d)
  }

  /** A packet as the muxer leaves it in a buffer: four bytes of big-endian length, then the data. */
  datatype Packet = Packet(prefix: seq<byte>, data: seq<byte>)
  {
    predicate Valid()
    {
      |prefix| == 4 && BigEndian32(prefix[0], prefix[1], prefix[2], prefix[3]) == |data|
    }
  }

  lemma BigEndianBytes(n: nat)
    requires n < 0x1_0000_0000
    ensures BigEndian32(n / 0x100_0000, n / 0x1_0000 % 256, n / 256 % 256, n % 256) == n
  {
    assert n / 256 / 256 == n / 0x1_0000 && n / 0x1_0000 / 256 == n / 0x100_0000;
  }

  /** Packets as the muxer's buffer writes them: the length in four bytes, the highest first. */
  lemma MuxedPacket(data: seq<byte>)
    requires |data| < 0x1_0000_0000
    ensures var n := |data|; Packet([n / 0x100_0000, n / 0x1_0000 % 256, n / 256 % 256, n % 256], data).Valid()
  {
    BigEndianBytes(|data|);
  }

  /** Where packet `k` starts in a buffer that lays `packets` end to end. */
  function Offset(packets: seq<Packet>, k: nat): nat
    requires k <= |packets|
  {
    if k == 0 then 0 else Offset(packets, k - 1) + 4 + |packets[k - 1].data|
  }

  predicate Holds(buf: seq<byte>, i: nat, p: Packet)
  {
    && i + 4 + |p.data| <= |buf|
    && p.Valid() && buf[i..i + 4] == p.prefix
    && buf[i + 4..i + 4 + |p.data|] == p.data
  }

  /** Packet `k` lies in `buf` where the packets before it end. */
  predicate PacketAt(buf: seq<byte>, packets: seq<Packet>, k: nat)
    requires k < |packets|
  {
    Holds(buf, Offset(packets, k), packets[k])
  }

  /** `buf` is these packets end to end, and nothing else. */
  predicate IsPacketBuffer(buf: seq<byte>, packets: seq<Packet>)
  {
    && |buf| == Offset(packets, |packets|)
    && forall k :: 0 <= k < |packets| ==> PacketAt(buf, packets, k)
  }

  lemma Located(buf: seq<byte>, packets: seq<Packet>, k: nat)
    requires IsPacketBuffer(buf, packets) && k <= |packets|
    ensures Offset(packets, k) <= |buf|
    ensures if k == |packets| then Offset(packets, k) == |buf| else Holds(buf, Offset(packets, k), packets[k])
  {
    assert k < |packets| ==> PacketAt(buf, packets, k);
  }

  function Header(streamid: nat, pktlen: nat): (h: seq<byte>)
    ensures |h| == 4
  {
    [DOLLAR, 2 * streamid % 256, pktlen / 256 % 256, pktlen % 256]
  }

  function Frame(streamid: nat, packet: seq<byte>): seq<byte>
  {
    Header(streamid, |packet|) + packet
  }

  /** Empty packets produce no frame. */
  function FramesOf(streamid: nat, packet: seq<byte>): seq<byte>
  {
    if packet == [] then [] else Frame(streamid, packet)
  }

  /** The wire image of the first `k` packets of a stream, in order. */
  function Frames(streamid: nat, packets: seq<Packet>, k: nat): seq<byte>
    requires k <= |packets|
  {
    if k == 0 then [] else Frames(streamid, packets, k - 1) + FramesOf(streamid, packets[k - 1].data)
  }

  lemma FramesNext(streamid: nat, packets: seq<Packet>, k: nat, before: seq<byte>)
    requires k < |packets|
    ensures before + Frames(streamid, packets, k) + FramesOf(streamid, packets[k].data)
         == before + Frames(streamid, packets, k + 1)
  {
    var sent, frame := Frames(streamid, packets, k), FramesOf(streamid, packets[k].data);
    assert before + sent + frame == before + (sent + frame);
  }

  lemma FrameShape(streamid: nat, packet: seq<byte>)
    ensures var f, h := Frame(streamid, packet), Header(streamid, |packet|);
      && |f| == 4 + |packet| && f[0] == h[0] && f[1] == h[1] && f[2] == h[2] && f[3] == h[3] && f[4..] == packet
  {
  }

  lemma LengthBytes(n: nat)
    ensures BigEndian16(n / 256 % 256, n % 256) == n % 65536
  {
  }

  /** A frame survives the two-byte length exactly when its packet fits it and the read buffer. */
  lemma FrameIsRecord(streamid: nat, packet: seq<byte>, lim: Limits)
    ensures IsRecord(Frame(streamid, packet), lim) <==> |packet| <= 65535 && 4 + |packet| <= lim.rbufsize
  {
    FrameShape(streamid, packet);
    LengthBytes(|packet|);
    assert FrameLength(Frame(streamid, packet)) == 4 + |packet| % 65536;
  }

  /** A header announces bytes that are not there yet. */
  lemma HeaderAlone(streamid: nat, pktlen: nat, lim: Limits)
    requires 0 < pktlen <= 65535
    ensures NextRecord(Header(streamid, pktlen), lim) == Failed
  {
    assert FrameLength(Header(streamid, pktlen)) == 4 + pktlen;
  }

  // A failed write keeps the part of the data it accepted.
  function Accepted(data: seq<byte>, n: int): (s: seq<byte>)
    requires data != [] && -1 <= n <= |data|
    ensures s <= data && (n == |data| ==> s == data) && (n < |data| ==> s < data)
  {
    data[..if n < 0 then 0 else n]
  }

  /** What is sent before anything else, and with nothing behind it. */
  lemma NothingSent(before: seq<byte>, streamid: nat, packets: seq<Packet>, k: nat)
    requires k <= |packets|
    ensures before + Frames(streamid, packets, k) + [] == before + Frames(streamid, packets, k)
    ensures before + Frames(streamid, packets, 0) == before
  {
  }

  class Connection {
    /** Every byte handed to the socket so far. */
    var wire: seq<byte>
    /** The writer mutex. */
    var locked: bool

    /** A socket write: takes all or part of the data, or fails with -1. */
    method Write(data: seq<byte>) returns (n: int)
      requires data != []
      modifies this`wire
      ensures -1 <= n <= |data|
      ensures wire == old(wire) + Accepted(data, n)
    {
      n :| -1 <= n <= |data|;
      wire := wire + Accepted(data, n);
    }

    /** A frame, header and payload, the mutex held across both writes. */
    method WriteFrame(streamid: nat, payload: seq<byte>) returns (ok: bool, ghost part: seq<byte>)
      requires !locked && payload != []
      modifies this
      ensures ok ==> wire == old(wire) + Frame(streamid, payload) && part == []
      ensures !ok ==> wire == old(wire) + part && part < Frame(streamid, payload)
      ensures locked <==> |part| >= 4
    {
      part := [];
      locked := true;
      var header := Header(streamid, |payload|);
      var n := Write(header);
      if n != 4 {
        part := Accepted(header, n);
        locked := false;
        return false, part;
      }
      n := Write(payload);
      if n != |payload| {
        part := header + Accepted(payload, n);
        return false, part;
      }
      locked := false;
      ok := true;
    }

    /** One turn of the re-framing loop: the packet `p` at offset `i`. */
    method WritePacket(streamid: nat, buf: seq<byte>, i: nat, ghost p: Packet)
      returns (ok: bool, next: nat, ghost part: seq<byte>)
      requires !locked && Holds(buf, i, p)
      modifies this
      ensures ok ==> next == i + 4 + |p.data| && part == [] && wire == old(wire) + FramesOf(streamid, p.data)
      ensures !ok ==> next == i && p.data != [] && wire == old(wire) + part && part < Frame(streamid, p.data)
      ensures locked <==> |part| >= 4
    {
      assert forall m :: 0 <= m < 4 ==> buf[i + m] == p.prefix[m];
      var pktlen := BigEndian32(buf[i], buf[i + 1], buf[i + 2], buf[i + 3]);
      if pktlen == 0 {
        return true, i + 4, [];
      }
      ok, part := WriteFrame(streamid, buf[i + 4..i + 4 + pktlen]);
      next := if ok then i + 4 + pktlen else i;
    }

    /** The same, as the next of a buffer's packets. */
    method WriteNext(streamid: nat, buf: seq<byte>, i: nat, ghost packets: seq<Packet>, ghost k: nat,
                     ghost before: seq<byte>)
      returns (ok: bool, next: nat, ghost part: seq<byte>)
      requires !locked && i < |buf| && IsPacketBuffer(buf, packets) && k <= |packets| && i == Offset(packets, k)
      requires wire == before + Frames(streamid, packets, k)
      modifies this
      ensures k < |packets| && (locked <==> |part| >= 4) && next <= |buf|
      ensures ok ==> next == Offset(packets, k + 1) && part == []
      ensures ok ==> wire == before + Frames(streamid, packets, k + 1)
      ensures !ok ==> next == i && packets[k].data != [] && wire == before + Frames(streamid, packets, k) + part
      ensures !ok ==> part < Frame(streamid, packets[k].data)
    {
      Located(buf, packets, k);
      ok, next, part := WritePacket(streamid, buf, i, packets[k]);
      FramesNext(streamid, packets, k, before);
      if ok {
        Located(buf, packets, k + 1);
      }
    }

    /**
     Sends the packets in `buf`. When a write fails, `k` packets went out whole and `part` is what
     the wire holds of the next one. The mutex comes back free unless it was a payload write that
     failed: exactly when `part` holds a complete header.
     */
    method WriteBindata(streamid: nat, buf: seq<byte>, ghost packets: seq<Packet>)
      returns (r: int, ghost k: nat, ghost part: seq<byte>)
      requires !locked && (|buf| < 4 || IsPacketBuffer(buf, packets))
      modifies this
      ensures |buf| < 4 ==> r == |buf| && wire == old(wire) && !locked
      ensures k <= |packets| && (|buf| >= 4 ==> r == Offset(packets, k) <= |buf|)
      ensures wire == old(wire) + Frames(streamid, packets, k) + part
      ensures |buf| >= 4 && r == |buf| ==> k == |packets| && part == []
      ensures r < |buf| ==> k < |packets| && packets[k].data != [] && part < Frame(streamid, packets[k].data)
      ensures locked <==> |part| >= 4
    {
      part, k := [], 0;
      NothingSent(wire, streamid, packets, 0);
      if |buf| < 4 {
        return |buf|, k, part;
      }
      var i := 0;
      while i < |buf|
        invariant k <= |packets| && i == Offset(packets, k) <= |buf|
        invariant !locked && part == []
        invariant wire == old(wire) + Frames(streamid, packets, k)
        decreases |packets| - k
      {
        var ok;
        ok, i, part := WriteNext(streamid, buf, i, packets, k, old(wire));
        if !ok {
          return i, k, part;
        }
        k := k + 1;
      }
      Located(buf, packets, k);
      NothingSent(old(wire), streamid, packets, k);
      r := i;
    }
  }
}
