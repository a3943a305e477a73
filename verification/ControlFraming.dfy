/**
 How the controller's TCP loop cuts the bytes of its connection into messages. The loop goes on
 reading without resetting its buffer head, so it is right exactly while no receive leaves part of a
 message behind a complete one.
 */
module ControlFraming {
  import opened Bytes

  const SIZE: nat := 8192

  function Header(s: seq<byte>, at: nat): nat
    requires at + 2 <= |s|
  {
    BigEndian16(s[at], s[at + 1])
  }

  /** A message starts with its own size. */
  predicate IsMessage(m: seq<byte>)
  {
    2 <= |m| <= SIZE && Header(m, 0) == |m|
  }

  /** What a client sends: the size of the whole message in network byte order, and the rest. */
  lemma SentIsMessage(body: seq<byte>)
    requires |body| + 2 <= SIZE
    ensures var n := |body| + 2; IsMessage([n / 256, n % 256] + body)
  {
    var n := |body| + 2;
    assert ([n / 256, n % 256] + body)[0] == n / 256 && ([n / 256, n % 256] + body)[1] == n % 256;
  }

  ghost predicate AllMessages(msgs: seq<seq<byte>>)
  {
    forall i :: 0 <= i < |msgs| ==> IsMessage(msgs[i])
  }

  /** Nothing, or the beginning of a message. */
  ghost predicate Partial(p: seq<byte>)
  {
    exists rest: seq<byte> :: rest != [] && IsMessage(p + rest)
  }

  /** The receive buffer and where in it the loop believes its data is. */
  datatype Conn = Conn(buf: seq<byte>, head: nat, len: nat)

  /** What came of looking at the buffer; a fault is an access outside it. */
  datatype Turn = Turn(conn: Conn, replayed: seq<seq<byte>>, fault: bool)

  /** `s` with `data` written over it at `at`. */
  function Overwrite(s: seq<byte>, at: nat, data: seq<byte>): (r: seq<byte>)
    requires at + |data| <= |s|
    ensures |r| == |s|
  {
    s[..at] + data + s[at + |data|..]
  }

  /** One `recv`, which writes behind `len` bytes counted from the start of the buffer. */
  function Receive(c: Conn, chunk: seq<byte>): Conn
    requires c.len + |chunk| <= |c.buf|
  {
    Conn(Overwrite(c.buf, c.len, chunk), c.head, c.len + |chunk|)
  }

  /** One look at the buffer: more must be received, or a message is replayed, or the access is outside. */
  datatype Look = Wait(conn: Conn) | Replay(msg: seq<byte>, conn: Conn) | Fault

  function LookAt(c: Conn): (l: Look)
    requires |c.buf| == SIZE
    ensures !l.Fault? ==> |l.conn.buf| == SIZE
    ensures l.Replay? ==> l.conn.len < c.len
  {
    if c.len < 2 then Wait(c)
    else if c.head + 2 > SIZE then Fault
    else
      var msglen := Header(c.buf, c.head);
      if msglen == 0 then Wait(c.(head := 0))
      else if c.len < msglen then
        if c.head + c.len > SIZE then Fault
        else Wait(c.(buf := Overwrite(c.buf, 0, c.buf[c.head..c.head + c.len])))
      else if c.head + msglen > SIZE then Fault
      else if c.len > msglen then
        Replay(c.buf[c.head..c.head + msglen], Conn(c.buf, c.head + msglen, c.len - msglen))
      else Replay(c.buf[c.head..c.head + msglen], Conn(c.buf, 0, 0))
  }

  /** The loop from `tcp_again` until it must receive more. */
  function Again(c: Conn): (t: Turn)
    requires |c.buf| == SIZE
    ensures |t.conn.buf| == SIZE
    decreases c.len
  {
    match LookAt(c)
    case Wait(d) => Turn(d, [], false)
    case Fault => Turn(c, [], true)
    case Replay(msg, d) =>
      if d.len == 0 then Turn(d, [msg], false)
      else
        var t := Again(d);
        t.(replayed := [msg] + t.replayed)
  }

  // ---------------------------------------------------------------- what one receive gives

  lemma PartialHeader(p: seq<byte>)
    requires Partial(p) && |p| >= 2
    ensures |p| < Header(p, 0) <= SIZE
  {
    var rest: seq<byte> :| rest != [] && IsMessage(p + rest);
    assert Header(p + rest, 0) == Header(p, 0);
  }

  lemma FirstMessage(buf: seq<byte>, head: nat, len: nat, m: seq<byte>, rest: seq<byte>)
    requires head + len <= |buf| && buf[head..head + len] == m + rest
    ensures buf[head..head + |m|] == m && buf[head + |m|..head + len] == rest
    ensures |m| >= 2 ==> Header(buf, head) == Header(m, 0)
  {
    var s := buf[head..head + len];
    assert |s| == |m| + |rest|;
    assert s[..|m|] == m && s[|m|..] == rest;
    assert |m| >= 2 ==> m[0] == s[0] == buf[head] && m[1] == s[1] == buf[head + 1];
  }

  lemma MessagesOccupy(msgs: seq<seq<byte>>)
    requires AllMessages(msgs)
    ensures Flatten(msgs) == [] <==> msgs == []
  {
    if msgs != [] {
      assert |Flatten(msgs)| >= |msgs[0]|;
    }
  }

  /** The last case of the induction: nothing but the beginning of a message. */
  lemma AgainWaits(c: Conn, p: seq<byte>)
    requires |c.buf| == SIZE && c.head + c.len <= SIZE && c.len > 0
    requires Partial(p) && c.buf[c.head..c.head + c.len] == p
    ensures var t := Again(c);
      && !t.fault && t.replayed == [] && |t.conn.buf| == SIZE && t.conn.len == |p| && t.conn.head == c.head
      && (c.head == 0 ==> t.conn.buf[..|p|] == p)
  {
    if |p| >= 2 {
      PartialHeader(p);
      assert p + [] == p;
      FirstMessage(c.buf, c.head, c.len, p, []);
    }
  }

  lemma AgainReplays(c: Conn, m: seq<byte>, rest: seq<byte>)
    requires |c.buf| == SIZE && c.head + c.len <= SIZE
    requires IsMessage(m) && c.buf[c.head..c.head + c.len] == m + rest
    ensures Again(c) ==
      if rest == [] then Turn(Conn(c.buf, 0, 0), [m], false)
      else
        var t := Again(c.(head := c.head + |m|, len := |rest|));
        t.(replayed := [m] + t.replayed)
  {
    FirstMessage(c.buf, c.head, c.len, m, rest);
    assert c.len == |m| + |rest|;
  }

  /** Complete messages are replayed one by one; the head stays behind them if anything is left. */
  lemma {:induction false} AgainSplits(c: Conn, msgs: seq<seq<byte>>, p: seq<byte>)
    requires |c.buf| == SIZE && c.head + c.len <= SIZE && c.len > 0
    requires AllMessages(msgs) && Partial(p) && c.buf[c.head..c.head + c.len] == Flatten(msgs) + p
    ensures var t := Again(c);
      && !t.fault && t.replayed == msgs && |t.conn.buf| == SIZE
      && t.conn.len == |p| && t.conn.head == (if p == [] then 0 else c.head + |Flatten(msgs)|)
      && (c.head == 0 && msgs == [] ==> t.conn.buf[..|p|] == p)
    decreases |msgs|
  {
    if msgs == [] {
      AgainWaits(c, p);
    } else {
      var m, rest := msgs[0], Flatten(msgs[1..]) + p;
      Reassociate(m, Flatten(msgs[1..]), p);
      AgainReplays(c, m, rest);
      MessagesOccupy(msgs[1..]);
      if rest != [] {
        FirstMessage(c.buf, c.head, c.len, m, rest);
        AgainSplits(c.(head := c.head + |m|, len := |rest|), msgs[1..], p);
      }
    }
  }

  // ---------------------------------------------------------------- right while the head is zero

  /** Between receives, as it should be: the pending bytes lie at the front. */
  ghost predicate Clean(c: Conn, pending: seq<byte>)
  {
    |c.buf| == SIZE && c.head == 0 && c.len == |pending| <= SIZE && c.buf[..c.len] == pending
  }

  lemma ReceiveBehind(c: Conn, pending: seq<byte>, chunk: seq<byte>)
    requires Clean(c, pending) && c.len + |chunk| <= SIZE
    ensures Clean(Receive(c, chunk), pending + chunk)
  {
  }

  /** A receive that leaves nothing behind a complete message is cut into exactly the messages it completes. */
  lemma ReceiveSplits(c: Conn, pending: seq<byte>, chunk: seq<byte>, msgs: seq<seq<byte>>, p: seq<byte>)
    requires Clean(c, pending) && chunk != [] && c.len + |chunk| <= SIZE
    requires pending + chunk == Flatten(msgs) + p && AllMessages(msgs) && Partial(p)
    requires msgs == [] || p == []
    ensures var t := Again(Receive(c, chunk)); !t.fault && t.replayed == msgs && Clean(t.conn, p) && t.conn.len < SIZE
  {
    ReceiveBehind(c, pending, chunk);
    var d := Receive(c, chunk);
    assert d.buf[d.head..d.head + d.len] == d.buf[..d.len];
    AgainSplits(d, msgs, p);
    var rest: seq<byte> :| rest != [] && IsMessage(p + rest);
    assert |p + rest| <= SIZE;
  }

  /** What one receive brings: the messages it completes, and the beginning of another. */
  datatype Arrival = Arrival(chunk: seq<byte>, msgs: seq<seq<byte>>, rest: seq<byte>)

  /** Arrivals in which no receive leaves part of a message behind a complete one. */
  ghost predicate Orderly(pending: seq<byte>, arrivals: seq<Arrival>)
    decreases |arrivals|
  {
    arrivals == [] ||
      (var a := arrivals[0];
       && a.chunk != [] && |pending| + |a.chunk| <= SIZE
       && pending + a.chunk == Flatten(a.msgs) + a.rest && AllMessages(a.msgs) && Partial(a.rest)
       && (a.msgs == [] || a.rest == [])
       && Orderly(a.rest, arrivals[1..]))
  }

  function Run(c: Conn, chunks: seq<seq<byte>>): (t: Turn)
    requires |c.buf| == SIZE
    ensures |t.conn.buf| == SIZE
    decreases |chunks|
  {
    if chunks == [] then Turn(c, [], false)
    else if c.len + |chunks[0]| > SIZE then Turn(c, [], true)
    else
      var t := Again(Receive(c, chunks[0]));
      if t.fault then t
      else
        var u := Run(t.conn, chunks[1..]);
        u.(replayed := t.replayed + u.replayed)
  }

  function Chunks(arrivals: seq<Arrival>): seq<seq<byte>>
  {
    if arrivals == [] then [] else [arrivals[0].chunk] + Chunks(arrivals[1..])
  }

  function Messages(arrivals: seq<Arrival>): seq<seq<byte>>
  {
    if arrivals == [] then [] else arrivals[0].msgs + Messages(arrivals[1..])
  }

  function Rest(pending: seq<byte>, arrivals: seq<Arrival>): seq<byte>
  {
    if arrivals == [] then pending else arrivals[|arrivals| - 1].rest
  }

  lemma RestLater(pending: seq<byte>, arrivals: seq<Arrival>)
    requires arrivals != []
    ensures Rest(pending, arrivals) == Rest(arrivals[0].rest, arrivals[1..])
  {
  }

  lemma Regroup(m: seq<byte>, n: seq<byte>, r: seq<byte>, p: seq<byte>, c: seq<byte>, q: seq<byte>, d: seq<byte>)
    requires n + r == p + c && q + d == m + p
    ensures m + n + r == q + (d + c)
  {
    assert m + n + r == m + (n + r);
    assert m + (p + c) == (m + p) + c;
  }

  /** The messages completed and the bytes left over are the stream. */
  lemma {:induction false} OrderlyStream(pending: seq<byte>, arrivals: seq<Arrival>)
    requires Orderly(pending, arrivals)
    ensures Flatten(Messages(arrivals)) + Rest(pending, arrivals) == pending + Flatten(Chunks(arrivals))
    decreases |arrivals|
  {
    if arrivals == [] {
      assert pending + [] == pending;
    } else {
      var a, later := arrivals[0], arrivals[1..];
      OrderlyStream(a.rest, later);
      RestLater(pending, arrivals);
      FlattenAppend(a.msgs, Messages(later));
      assert Chunks(arrivals)[1..] == Chunks(later);
      Regroup(Flatten(a.msgs), Flatten(Messages(later)), Rest(a.rest, later), a.rest, Flatten(Chunks(later)),
              pending, a.chunk);
    }
  }

  lemma RunFirst(c: Conn, chunk: seq<byte>, later: seq<seq<byte>>)
    requires |c.buf| == SIZE && c.len + |chunk| <= SIZE && !Again(Receive(c, chunk)).fault
    ensures var t := Again(Receive(c, chunk)); var u := Run(t.conn, later);
      Run(c, [chunk] + later) == u.(replayed := t.replayed + u.replayed)
  {
    assert ([chunk] + later)[1..] == later;
  }

  /** Over any orderly run: exactly the messages sent, in order, and the loop always has room to receive. */
  lemma {:induction false} OrderlyRun(c: Conn, pending: seq<byte>, arrivals: seq<Arrival>)
    requires Clean(c, pending) && c.len < SIZE && Orderly(pending, arrivals)
    ensures var t := Run(c, Chunks(arrivals));
      && !t.fault && t.replayed == Messages(arrivals)
      && Clean(t.conn, Rest(pending, arrivals)) && t.conn.len < SIZE
    decreases |arrivals|
  {
    if arrivals != [] {
      var a, later := arrivals[0], arrivals[1..];
      ReceiveSplits(c, pending, a.chunk, a.msgs, a.rest);
      RunFirst(c, a.chunk, Chunks(later));
      OrderlyRun(Again(Receive(c, a.chunk)).conn, a.rest, later);
      RestLater(pending, arrivals);
    }
  }

  // ---------------------------------------------------------------- wrong otherwise

  /** Right: no access outside the buffer, and the completed message is replayed. */
  ghost predicate Completes(c: Conn, p: seq<byte>, more: seq<byte>)
    requires |c.buf| == SIZE && c.len + |more| <= SIZE
  {
    var t := Again(Receive(c, more));
    !t.fault && t.replayed == [p + more]
  }

  /** The beginning of a message can be completed with any last byte but one that would change its size. */
  lemma Completion(p: seq<byte>, stale: seq<byte>) returns (more: seq<byte>)
    requires Partial(p) && p != []
    ensures more != [] && IsMessage(p + more)
    ensures |p + more| <= |stale| ==> more[|more| - 1] != stale[|p + more| - 1]
  {
    var rest: seq<byte> :| rest != [] && IsMessage(p + rest);
    var n, start := |p + rest|, rest;
    var first: int := p[0];
    if |p| == 1 && first == 0 {
      n, start := 3, [3, 0];
    } else if |p| == 1 {
      assert (p + rest)[0] == first;
      n, start := 256 * first, [0] + Zeros(256 * first - 2);
    }
    var last: byte := if n <= |stale| && stale[n - 1] == 0 then 1 else 0;
    more := start[..|start| - 1] + [last];
    assert |p + more| == n;
    assert (p + more)[0] == p[0];
  }

  lemma FirstReplayed(c: Conn)
    requires |c.buf| == SIZE
    ensures var t := Again(c);
      !t.fault && t.replayed != [] ==>
        c.head + |t.replayed[0]| <= SIZE && t.replayed[0] == c.buf[c.head..c.head + |t.replayed[0]|]
  {
  }

  /** When the head was left behind, the loop looks for the message's last byte where nothing new was written. */
  lemma HeadLeftBehind(d: Conn, p: seq<byte>, more: seq<byte>)
    requires |d.buf| == SIZE && d.head > 0 && d.len == |p|
    requires more != [] && IsMessage(p + more)
    requires var n := |p + more|; d.head + n <= SIZE ==> more[|more| - 1] != d.buf[d.head + n - 1]
    ensures !Completes(d, p, more)
  {
    var n, c := |p + more|, Receive(d, more);
    FirstReplayed(c);
    assert (p + more)[n - 1] == more[|more| - 1];
    if d.head + n <= SIZE {
      assert c.buf[d.head..d.head + n][n - 1] == c.buf[d.head + n - 1] == d.buf[d.head + n - 1];
    }
  }

  lemma NothingIsPartial()
    ensures Partial([])
  {
    var m: seq<byte> := [0, 2];
    assert [] + m == m && IsMessage(m);
  }

  lemma OrderlyCompletes(d: Conn, p: seq<byte>, more: seq<byte>)
    requires Clean(d, p) && more != [] && IsMessage(p + more)
    ensures Completes(d, p, more)
  {
    NothingIsPartial();
    var m := p + more;
    assert Flatten([m]) + [] == m;
    ReceiveSplits(d, p, more, [m], []);
  }

  lemma DisorderlyFails(d: Conn, p: seq<byte>) returns (more: seq<byte>)
    requires |d.buf| == SIZE && d.head > 0 && d.len == |p| && Partial(p) && p != []
    ensures more != [] && IsMessage(p + more) && !Completes(d, p, more)
  {
    more := Completion(p, if d.head <= SIZE then d.buf[d.head..] else []);
    var n := |p + more|;
    assert d.head + n <= SIZE ==> d.buf[d.head..][n - 1] == d.buf[d.head + n - 1];
    HeadLeftBehind(d, p, more);
  }

  /**
   After a receive, every way the next message may be completed is handled right exactly when the
   receive did not leave part of a message behind a complete one.
   */
  lemma RightExactlyWhenOrderly(c: Conn, pending: seq<byte>, chunk: seq<byte>, msgs: seq<seq<byte>>, p: seq<byte>)
    requires Clean(c, pending) && chunk != [] && c.len + |chunk| <= SIZE
    requires pending + chunk == Flatten(msgs) + p && AllMessages(msgs) && Partial(p)
    ensures var d := Again(Receive(c, chunk)).conn;
      (forall more: seq<byte> :: more != [] && IsMessage(p + more) ==> d.len == |p| && Completes(d, p, more))
      <==> (msgs == [] || p == [])
  {
    var d := Again(Receive(c, chunk)).conn;
    if msgs == [] || p == [] {
      ReceiveSplits(c, pending, chunk, msgs, p);
      forall more: seq<byte> | more != [] && IsMessage(p + more)
        ensures d.len == |p| && Completes(d, p, more)
      {
        OrderlyCompletes(d, p, more);
      }
    } else {
      ReceiveBehind(c, pending, chunk);
      var r := Receive(c, chunk);
      assert r.buf[r.head..r.head + r.len] == r.buf[..r.len];
      AgainSplits(r, msgs, p);
      MessagesOccupy(msgs);
      var more := DisorderlyFails(d, p);
    }
  }

  // ---------------------------------------------------------------- the loop itself

  function After(replayed: seq<seq<byte>>, t: Turn): Turn
  {
    t.(replayed := replayed + t.replayed)
  }

  lemma AfterStep(replayed: seq<seq<byte>>, msg: seq<byte>, c: Conn)
    requires |c.buf| == SIZE && LookAt(c).Replay? && LookAt(c).msg == msg
    ensures var d := LookAt(c).conn;
      After(replayed, Again(c)) ==
        if d.len == 0 then Turn(d, replayed + [msg], false) else After(replayed + [msg], Again(d))
  {
    var d := LookAt(c).conn;
    if d.len != 0 {
      assert replayed + ([msg] + Again(d).replayed) == replayed + [msg] + Again(d).replayed;
    }
  }

  class Controller {
    const buf: array<byte>
    var bufhead: nat
    var buflen: nat

    ghost predicate Valid()
      reads this
    {
      buf.Length == SIZE
    }

    function State(): Conn
      reads this, buf
    {
      Conn(buf[..], bufhead, buflen)
    }

    constructor ()
      ensures Valid() && Clean(State(), []) && fresh(buf)
    {
      buf := new byte[SIZE];
      bufhead, buflen := 0, 0;
    }

    /** Stores what one `recv` returned. */
    method Store(chunk: seq<byte>)
      requires Valid() && buflen + |chunk| <= SIZE
      modifies this`buflen, buf
      ensures State() == Receive(old(State()), chunk)
    {
      forall i | 0 <= i < |chunk| {
        buf[buflen + i] := chunk[i];
      }
      buflen := buflen + |chunk|;
    }

    /** Copies the unread bytes to the front, and leaves the head where it is. */
    method CopyDown()
      requires Valid() && bufhead + buflen <= SIZE
      modifies buf
      ensures buf[..] == Overwrite(old(buf[..]), 0, old(buf[bufhead..bufhead + buflen]))
    {
      forall i | 0 <= i < buflen {
        buf[i] := buf[bufhead + i];
      }
    }

    method LookInBuffer() returns (look: Look)
      requires Valid()
      modifies this`bufhead, this`buflen, buf
      ensures look == LookAt(old(State())) && State() == if look.Fault? then old(State()) else look.conn
      ensures look.Fault? || old(buflen) < 2 ==> State() == old(State())
      ensures old(buflen) >= 2 && old(bufhead) + 2 <= SIZE ==>
        var head, len, n := old(bufhead), old(buflen), BigEndian16(old(buf[bufhead]), old(buf[bufhead + 1]));
        if n == 0 then look.Wait? && bufhead == 0 && buflen == len && buf[..] == old(buf[..])
        else if len < n then
          if head + len > SIZE then look.Fault?
          else
            && look.Wait? && bufhead == head && buflen == len
            && buf[..len] == old(buf[bufhead..bufhead + buflen]) && buf[len..] == old(buf[buflen..])
        else if head + n > SIZE then look.Fault?
        else
          && look.Replay? && look.msg == old(buf[..])[head..head + n] && buf[..] == old(buf[..])
          && buflen == len - n && bufhead == if len == n then 0 else head + n
    {
      if buflen < 2 {
        return Wait(State());
      }
      if bufhead + 2 > SIZE {
        return Fault;
      }
      var msglen := BigEndian16(buf[bufhead], buf[bufhead + 1]);
      if msglen == 0 {
        bufhead := 0;
        return Wait(State());
      }
      if buflen < msglen {
        if bufhead + buflen > SIZE {
          return Fault;
        }
        CopyDown();
        return Wait(State());
      }
      if bufhead + msglen > SIZE {
        return Fault;
      }
      var msg := buf[bufhead..bufhead + msglen];
      if buflen > msglen {
        bufhead := bufhead + msglen;
        buflen := buflen - msglen;
      } else {
        bufhead, buflen := 0, 0;
      }
      look := Replay(msg, State());
    }

    /** Replays what one receive completes; true for a fault, where the original would leave its buffer. */
    method HandleReceive(chunk: seq<byte>) returns (replayed: seq<seq<byte>>, fault: bool)
      requires Valid() && buflen + |chunk| <= SIZE
      modifies this, buf
      ensures Turn(State(), replayed, fault) == Again(Receive(old(State()), chunk))
    {
      Store(chunk);
      ghost var goal := Again(State());
      replayed := [];
      while true
        invariant goal == After(replayed, Again(State()))
        decreases buflen
      {
        ghost var c, before := State(), replayed;
        var look := LookInBuffer();
        match look
        case Wait(_) => return replayed, false;
        case Fault => return replayed, true;
        case Replay(msg, d) =>
          replayed := replayed + [msg];
          AfterStep(before, msg, c);
          if buflen == 0 {
            return replayed, false;
          }
      }
    }
  }
}
