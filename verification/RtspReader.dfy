/**
 The sliding read buffer of an RTSP connection. The socket hands out its bytes in pieces of any
 positive size, so a contract proved here holds for every way the stream may be cut up.
 */
module RtspReader {
  import opened Bytes
  import opened RtspRecords

  const RBUFSIZE: nat := 65536

  /** A connected socket: the bytes the peer sends until it closes. */
  class Socket {
    var pending: seq<byte>

    constructor (stream: seq<byte>)
      ensures pending == stream
    {
      pending := stream;
    }

    /** Blocks for at least one byte, and may return as few as it likes; empty at end of stream. */
    method Read(max: nat) returns (data: seq<byte>)
      modifies this
      ensures data + pending == old(pending)
      ensures |data| <= max
      ensures data == [] <==> max == 0 || old(pending) == []
    {
      if max == 0 || pending == [] {
        data := [];
      } else {
        var k: nat :| 1 <= k <= max && k <= |pending|;
        data := pending[..k];
        pending := pending[k..];
      }
    }
  }

  lemma TakeFront(buffered: seq<byte>, pending: seq<byte>, n: nat)
    requires n <= |buffered|
    ensures (buffered + pending)[..n] == buffered[..n] && (buffered + pending)[n..] == buffered[n..] + pending
  {
  }

  class RtspContext {
    const fd: Socket
    var rbuffer: array?<byte>
    var rbufhead: nat
    var rbuftail: nat

    constructor (s: Socket)
      ensures fd == s && Valid() && rbuffer == null
      ensures Unread() == s.pending
    {
      fd := s;
      rbuffer := null;
      rbufhead, rbuftail := 0, 0;
    }

    ghost predicate Valid()
      reads this
    {
      && rbufhead <= rbuftail <= RBUFSIZE
      && (rbufhead == rbuftail ==> rbufhead == 0)
      && (if rbuffer == null then rbuftail == 0 else rbuffer.Length == RBUFSIZE)
    }

    /** Everything the peer has sent that no record has yet taken. */
    ghost function Unread(): seq<byte>
      requires Valid()
      reads this, rbuffer, fd
    {
      (if rbuffer == null then [] else rbuffer[rbufhead..rbuftail]) + fd.pending
    }

    method ReadInternal() returns (r: int)
      requires Valid() && rbuffer != null && rbuftail < RBUFSIZE
      modifies this`rbuftail, rbuffer, fd
      ensures Valid() && Unread() == old(Unread())
      ensures r < 0 <==> old(fd.pending) == []
      ensures r < 0 ==> rbuftail == old(rbuftail) && fd.pending == []
      ensures r >= 0 ==> rbuftail > old(rbuftail) && |fd.pending| < |old(fd.pending)|
    {
      var data := fd.Read(RBUFSIZE - rbuftail);
      if data == [] {
        return -1;
      }
      ghost var before := rbuffer[rbufhead..rbuftail];
      forall i | 0 <= i < |data| {
        rbuffer[rbuftail + i] := data[i];
      }
      assert rbuffer[rbufhead..rbuftail + |data|] == before + data;
      assert before + data + fd.pending == before + (data + fd.pending);
      rbuftail := rbuftail + |data|;
      r := rbuftail - rbufhead;
    }

    /** Moves the unread bytes to the front of the buffer; the two places may overlap. */
    method Compact()
      requires Valid() && rbuffer != null
      modifies this`rbufhead, this`rbuftail, rbuffer
      ensures Valid() && rbufhead == 0
      ensures rbuftail == old(rbuftail) - old(rbufhead)
      ensures rbuffer[..rbuftail] == old(rbuffer[rbufhead..rbuftail])
    {
      forall i | 0 <= i < rbuftail - rbufhead {
        rbuffer[i] := rbuffer[rbufhead + i];
      }
      rbufhead, rbuftail := 0, rbuftail - rbufhead;
    }

    /** Takes the first `n` unread bytes. */
    method Take(n: nat) returns (buf: seq<byte>)
      requires Valid() && rbuffer != null && 0 < n <= rbuftail - rbufhead
      modifies this`rbufhead, this`rbuftail
      ensures Valid()
      ensures n <= |old(Unread())| && buf == old(Unread())[..n] && Unread() == old(Unread())[n..]
    {
      TakeFront(rbuffer[rbufhead..rbuftail], fd.pending, n);
      buf := rbuffer[rbufhead..rbufhead + n];
      assert rbuffer[rbufhead..rbuftail][..n] == buf;
      assert rbuffer[rbufhead..rbuftail][n..] == rbuffer[rbufhead + n..rbuftail];
      rbufhead := rbufhead + n;
      if rbufhead == rbuftail {
        rbufhead, rbuftail := 0, 0;
      }
    }

    method ReadText(count: nat) returns (r: int, buf: seq<byte>)
      requires Valid() && rbuffer != null && count > 0
      requires rbufhead < rbuftail && rbuffer[rbufhead] != DOLLAR
      modifies this`rbufhead, this`rbuftail, rbuffer, fd
      ensures Valid()
      ensures match NextRecord(old(Unread()), Limits(RBUFSIZE, count))
        case Got(record, rest) => r == |record| && buf == record && Unread() == rest
        case Failed => r == -1
    {
      ghost var stream := Unread();
      buf := [];
      while true
        invariant Valid() && rbufhead < rbuftail
        invariant Unread() == stream
        decreases |fd.pending|
      {
        var i := rbufhead;
        while i < rbuftail
          invariant rbufhead <= i <= rbuftail
          invariant forall j :: 0 <= j < i - rbufhead ==> stream[j] != LF
        {
          assert rbuffer[i] == stream[i - rbufhead];
          if rbuffer[i] == LF {
            var textlen := i - rbufhead + 1;
            assert LineLength(stream) == textlen;
            if textlen > count - 1 {
              return -1, [];
            }
            buf := Take(textlen);
            return textlen, buf;
          }
          i := i + 1;
        }
        if rbuftail - rbufhead == RBUFSIZE {
          return -1, [];
        }
        Compact();
        assert Unread() == stream;
        var n := ReadInternal();
        if n < 0 {
          assert fd.pending == [] && |stream| == rbuftail;
          return -1, [];
        }
      }
    }

    method ReadBinary() returns (r: int, buf: seq<byte>)
      requires Valid() && rbuffer != null
      requires rbufhead < rbuftail && rbuffer[rbufhead] == DOLLAR
      modifies this`rbufhead, this`rbuftail, rbuffer, fd
      ensures Valid()
      ensures forall count :: match NextRecord(old(Unread()), Limits(RBUFSIZE, count))
        case Got(record, rest) => r == |record| && buf == record && Unread() == rest
        case Failed => r == -1
    {
      ghost var stream := Unread();
      buf := [];
      var readmore := rbuftail - rbufhead < 4;
      while true
        invariant Valid() && rbufhead < rbuftail
        invariant Unread() == stream
        invariant if readmore then rbuftail - rbufhead < 4 else rbufhead + 4 <= rbuftail || rbufhead == 0
        decreases |fd.pending|
      {
        if !readmore {
          // With fewer than four bytes buffered these two are left over from earlier traffic.
          var reqlength := BigEndian16(rbuffer[rbufhead + 2], rbuffer[rbufhead + 3]);
          if 4 + reqlength <= rbuftail - rbufhead {
            assert rbuffer[rbufhead + 2] == stream[2] && rbuffer[rbufhead + 3] == stream[3];
            buf := Take(4 + reqlength);
            return 4 + reqlength, buf;
          }
          if rbuftail - rbufhead == RBUFSIZE {
            assert rbuffer[rbufhead + 2] == stream[2] && rbuffer[rbufhead + 3] == stream[3];
            return -1, [];
          }
        }
        assert rbuftail - rbufhead < 4 || FrameLength(stream) > rbuftail - rbufhead by {
          if rbuftail - rbufhead >= 4 {
            assert rbuffer[rbufhead + 2] == stream[2] && rbuffer[rbufhead + 3] == stream[3];
          }
        }
        Compact();
        assert Unread() == stream;
        var n := ReadInternal();
        if n < 0 {
          assert fd.pending == [] && |stream| == rbuftail;
          return -1, [];
        }
        readmore := false;
      }
    }

    /** The next record is a function of the unread stream: chunk boundaries cannot be observed. */
    method GetNext(count: nat) returns (r: int, buf: seq<byte>)
      requires Valid() && count > 0
      modifies this, rbuffer, fd
      ensures Valid() && rbuffer != null && (old(rbuffer) == null ==> fresh(rbuffer))
      ensures old(rbuffer) != null ==> rbuffer == old(rbuffer)
      ensures match NextRecord(old(Unread()), Limits(RBUFSIZE, count))
        case Got(record, rest) => r == |record| && buf == record && Unread() == rest
        case Failed => r == -1
    {
      ghost var stream := Unread();
      if rbuffer == null {
        rbuffer := new byte[RBUFSIZE];
        rbufhead, rbuftail := 0, 0;
        assert Unread() == stream;
      }
      if rbuftail == rbufhead {
        var n := ReadInternal();
        if n < 0 {
          assert stream == [];
          return -1, [];
        }
      }
      assert rbuffer[rbufhead] == stream[0];
      if rbuffer[rbufhead] != DOLLAR {
        r, buf := ReadText(count);
      } else {
        r, buf := ReadBinary();
      }
    }

    /** The connection's read loop: reads records until one fails. */
    method ReadAll(count: nat) returns (records: seq<seq<byte>>)
      requires Valid() && count > 0
      modifies this, rbuffer, fd
      ensures records == SplitAll(old(Unread()), Limits(RBUFSIZE, count)).0
    {
      ghost var lim := Limits(RBUFSIZE, count);
      records := [];
      ghost var stream := Unread();
      ghost var left := stream;
      while true
        invariant Valid() && Unread() == left
        invariant rbuffer == old(rbuffer) || fresh(rbuffer)
        invariant records + SplitAll(left, lim).0 == SplitAll(stream, lim).0
        decreases |left|
      {
        var r, buf := GetNext(count);
        if r < 0 {
          return;
        }
        ghost var rest := NextRecord(left, lim).rest;
        SplitAllStep(left, lim, buf, rest);
        Reassociate(records, [buf], SplitAll(rest, lim).0);
        left := rest;
        records := records + [buf];
      }
    }
  }
}
