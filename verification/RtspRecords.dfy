/**
 The records of an RTSP connection as a property of the byte stream alone: a text line up to and
 including its line feed, or an interleaved frame (section 10.12 of RFC 2326) of a `$`, a channel,
 a two-byte big-endian length and that many bytes. Nothing here mentions buffers or reads.
 */
module RtspRecords {
  import opened Bytes

  const LF: byte := 10
  const DOLLAR: byte := 36

  /** Capacity of the connection's read buffer, and size of the caller's line buffer. */
  datatype Limits = Limits(rbufsize: nat, count: nat)

  datatype Next = Got(record: seq<byte>, rest: seq<byte>) | Failed

  /** Length of the interleaved frame whose header starts `s`. */
  function FrameLength(s: seq<byte>): (n: nat)
    requires |s| >= 4
    ensures 4 <= n <= 65539
  {
    4 + BigEndian16(s[2], s[3])
  }

  /** What one record is: the reference the splitter is measured against. */
  predicate IsRecord(r: seq<byte>, lim: Limits)
  {
    && 0 < |r| <= lim.rbufsize
    && if r[0] == DOLLAR
       then |r| >= 4 && |r| == FrameLength(r)
       else |r| < lim.count && r[|r| - 1] == LF && forall i :: 0 <= i < |r| - 1 ==> r[i] != LF
  }

  /** Length of the first line with its line feed; more than `|s|` when there is none. */
  function LineLength(s: seq<byte>): (n: nat)
    ensures 1 <= n <= |s| + 1
    ensures n <= |s| ==> s[n - 1] == LF
    ensures forall i :: 0 <= i < n - 1 ==> s[i] != LF
  {
    if s == [] || s[0] == LF then 1 else 1 + LineLength(s[1..])
  }

  /** The first record of a stream, or `Failed` when the stream ends or outgrows a buffer first. */
  function NextRecord(s: seq<byte>, lim: Limits): (next: Next)
    ensures next.Got? ==> |next.rest| < |s|
  {
    if s == [] then Failed
    else if s[0] != DOLLAR then
      var n := LineLength(s);
      if n <= |s| && n <= lim.rbufsize && n < lim.count then Got(s[..n], s[n..]) else Failed
    else if |s| < 4 then Failed
    else
      var n := FrameLength(s);
      if n <= |s| && n <= lim.rbufsize then Got(s[..n], s[n..]) else Failed
  }

  /** All records up to the first failure, and the bytes that failed. */
  function SplitAll(s: seq<byte>, lim: Limits): (result: (seq<seq<byte>>, seq<byte>))
    decreases |s|
  {
    match NextRecord(s, lim)
    case Failed => ([], s)
    case Got(record, rest) =>
      var (records, tail) := SplitAll(rest, lim);
      ([record] + records, tail)
  }

  /** The splitter finds a record exactly when the stream starts with one, and then that one. */
  lemma NextRecordExact(s: seq<byte>, lim: Limits, record: seq<byte>, rest: seq<byte>)
    ensures NextRecord(s, lim) == Got(record, rest) <==> IsRecord(record, lim) && s == record + rest
  {
    if NextRecord(s, lim) == Got(record, rest) {
      assert s == s[..|record|] + s[|record|..];
    }
    if IsRecord(record, lim) && s == record + rest {
      assert s[0] == record[0] && record == s[..|record|] && rest == s[|record|..];
      if s[0] != DOLLAR {
        var n := LineLength(s);
        assert s[|record| - 1] == record[|record| - 1] == LF;
        assert forall i :: 0 <= i < |record| ==> s[i] == record[i];
      } else {
        assert s[2] == record[2] && s[3] == record[3];
      }
    }
  }

  /** A text line: everything up to the first line feed, with it, if buffer and caller have room. */
  lemma LineInFront(line: seq<byte>, rest: seq<byte>, lim: Limits)
    requires (line != [] ==> line[0] != 36) && forall i :: 0 <= i < |line| ==> line[i] != 10
    ensures NextRecord(line + [10] + rest, lim) ==
      if |line| + 1 <= lim.rbufsize && |line| + 1 < lim.count then Got(line + [10], rest) else Failed
  {
    var record := line + [10];
    var s := record + rest;
    var n := LineLength(s);
    assert s[|line|] == 10 && s[0] == record[0];
    assert forall i :: 0 <= i < |line| ==> s[i] == line[i];
    assert s[..|record|] == record && s[|record|..] == rest;
  }

  /** An interleaved frame: a dollar sign, the channel, the length of the payload in two bytes, the payload. */
  lemma FrameInFront(channel: byte, payload: seq<byte>, rest: seq<byte>, lim: Limits)
    requires |payload| < 0x1_0000
    ensures NextRecord([36, channel, |payload| / 256, |payload| % 256] + payload + rest, lim) ==
      if |payload| + 4 <= lim.rbufsize then Got([36, channel, |payload| / 256, |payload| % 256] + payload, rest)
      else Failed
  {
    var record := [36, channel, |payload| / 256, |payload| % 256] + payload;
    var s := record + rest;
    assert s[0] == 36 && s[2] == |payload| / 256 && s[3] == |payload| % 256;
    assert FrameLength(s) == |record|;
    assert s[..|record|] == record && s[|record|..] == rest;
  }

  lemma RecordInFront(record: seq<byte>, records: seq<seq<byte>>, tail: seq<byte>)
    ensures Flatten([record] + records) + tail == record + (Flatten(records) + tail)
  {
    FlattenCons(record, records);
    Reassociate(record, Flatten(records), tail);
  }

  lemma SplitAllStep(s: seq<byte>, lim: Limits, record: seq<byte>, rest: seq<byte>)
    requires NextRecord(s, lim) == Got(record, rest)
    ensures SplitAll(s, lim) == ([record] + SplitAll(rest, lim).0, SplitAll(rest, lim).1)
  {
  }

  /**
   Unique parsing: any list of records followed by bytes that start no record splits into exactly
   that list and those bytes.
   */
  lemma {:induction false} SplitAllInverse(records: seq<seq<byte>>, tail: seq<byte>, lim: Limits)
    requires forall r :: r in records ==> IsRecord(r, lim)
    requires NextRecord(tail, lim) == Failed
    ensures SplitAll(Flatten(records) + tail, lim) == (records, tail)
  {
    if records == [] {
      assert Flatten(records) + tail == tail;
    } else {
      var record, later := records[0], records[1..];
      assert records == [record] + later;
      var s, rest := Flatten(records) + tail, Flatten(later) + tail;
      RecordInFront(record, later, tail);
      NextRecordExact(s, lim, record, rest);
      SplitAllInverse(later, tail, lim);
      SplitAllStep(s, lim, record, rest);
    }
  }

  /** Nothing is lost, reordered or invented: the records and the failing tail are the stream. */
  lemma {:induction false} SplitAllSound(s: seq<byte>, lim: Limits)
    ensures var (records, tail) := SplitAll(s, lim);
      && Flatten(records) + tail == s
      && (forall r :: r in records ==> IsRecord(r, lim))
      && NextRecord(tail, lim) == Failed
    decreases |s|
  {
    match NextRecord(s, lim)
    case Failed =>
      assert Flatten<byte>([]) + s == s;
    case Got(record, rest) =>
      NextRecordExact(s, lim, record, rest);
      SplitAllSound(rest, lim);
      var (records, tail) := SplitAll(rest, lim);
      RecordInFront(record, records, tail);
  }
}
