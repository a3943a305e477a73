/**
 The queue of control messages between the network thread and the event player: a ring of fixed-size
 slots in one byte array. The player reads a message in place and releases it later.
 */
module ControlQueue {
  import opened Bytes

  /** Bytes of a slot used besides the message: the size field, and two bytes never used. */
  const HEADER: nat := 4

  /** What a slot keeps of a message: its size field is 16 bits wide. */
  function Kept(msg: seq<byte>): (kept: seq<byte>)
    ensures kept <= msg && |kept| == |msg| % 0x1_0000
    ensures |msg| < 0x1_0000 ==> kept == msg
  {
    msg[..|msg| % 0x1_0000]
  }

  /** A queue of at most `capacity` messages that drops what comes when it is full. */
  function Offer(queue: seq<seq<byte>>, capacity: int, msg: seq<byte>): seq<seq<byte>>
  {
    if |queue| < capacity then queue + [msg] else queue
  }

  function OfferOne(queue: seq<seq<byte>>, capacity: int, unit: nat, msg: seq<byte>): seq<seq<byte>>
  {
    if |msg| + HEADER > unit then queue else Offer(queue, capacity, Kept(msg))
  }

  function OfferAll(queue: seq<seq<byte>>, capacity: int, unit: nat, msgs: seq<seq<byte>>): seq<seq<byte>>
  {
    if msgs == [] then queue
    else OfferOne(OfferAll(queue, capacity, unit, msgs[..|msgs| - 1]), capacity, unit, msgs[|msgs| - 1])
  }

  lemma {:induction false} OfferAllExtends(queue: seq<seq<byte>>, capacity: int, unit: nat, msgs: seq<seq<byte>>)
    ensures queue <= OfferAll(queue, capacity, unit, msgs)
  {
    if msgs != [] {
      OfferAllExtends(queue, capacity, unit, msgs[..|msgs| - 1]);
    }
  }

  /** The messages that fit a slot, as a slot keeps them. */
  function Fitting(msgs: seq<seq<byte>>, unit: nat): seq<seq<byte>>
  {
    if msgs == [] then []
    else
      var n := |msgs| - 1;
      Fitting(msgs[..n], unit) + if |msgs[n]| + HEADER <= unit then [Kept(msgs[n])] else []
  }

  lemma TakeSnoc<T>(s: seq<T>, x: T, room: nat)
    ensures (if |s + [x]| <= room then s + [x] else (s + [x])[..room])
      == (if |s| <= room then s else s[..room]) + if |s| < room then [x] else []
  {
  }

  /** What is dropped is what fits no slot, and the newest: of the rest, the first ones there is room for get in. */
  lemma {:induction false} NewestDropped(queue: seq<seq<byte>>, capacity: int, unit: nat, msgs: seq<seq<byte>>)
    requires |queue| <= capacity
    ensures var room, fitting := capacity - |queue|, Fitting(msgs, unit);
      OfferAll(queue, capacity, unit, msgs) == queue + if |fitting| <= room then fitting else fitting[..room]
  {
    if msgs != [] {
      var n := |msgs| - 1;
      NewestDropped(queue, capacity, unit, msgs[..n]);
      TakeSnoc(Fitting(msgs[..n], unit), Kept(msgs[n]), capacity - |queue|);
    }
  }

  /** Number of the slot `i` places after slot `head`. */
  function SlotAt(head: nat, i: nat, slots: nat): nat
  {
    if head + i < slots then head + i else if head + i < 2 * slots then head + i - slots else 0
  }

  lemma Disjoint(j: nat, k: nat, unit: nat)
    requires j != k
    ensures Extent(j, unit) + unit <= Extent(k, unit) || Extent(k, unit) + unit <= Extent(j, unit)
  {
    ExtentsApart(if j < k then j else k, if j < k then k else j, unit);
  }

  lemma NextSlots(head: nat, n: nat, slots: nat)
    requires head < slots && n < slots
    ensures forall i :: 1 <= i <= n ==> SlotAt(SlotAt(head, 1, slots), i - 1, slots) == SlotAt(head, i, slots)
    ensures forall i :: 0 <= i < n ==> SlotAt(head, i, slots) != SlotAt(head, n, slots)
    ensures forall i :: 0 <= i <= n ==> SlotAt(head, i, slots) < slots
  {
  }

  lemma OneGone<T>(gone: seq<T>, queued: seq<T>)
    requires queued != []
    ensures gone + queued == gone + [queued[0]] + queued[1..]
  {
  }

  lemma OneMore<T>(gone: seq<T>, queued: seq<T>, x: T)
    ensures gone + (queued + [x]) == gone + queued + [x]
  {
  }

  lemma HeadOfExtended<T>(queue: seq<T>, longer: seq<T>)
    requires queue != [] && queue <= longer
    ensures longer != [] && longer[0] == queue[0] && [queue[0]] + longer[1..] == longer
  {
  }

  class Queue {
    const qsize: nat
    const qunit: nat
    const qbuffer: array<byte>
    var qhead: nat
    var qtail: nat

    ghost const slots: nat
    ghost var head: nat
    /** The messages in the ring, eldest first. */
    ghost var queued: seq<seq<byte>>
    /** All messages ever let in, and those released or cleared since. */
    ghost var accepted: seq<seq<byte>>
    ghost var gone: seq<seq<byte>>

    /** The slot at `pos` holds this message: its size in little-endian order, then its bytes. */
    ghost predicate SlotHolds(pos: nat, msg: seq<byte>)
      reads qbuffer
    {
      && pos + qunit <= qbuffer.Length && |msg| + HEADER <= qunit
      && BigEndian16(qbuffer[pos + 1], qbuffer[pos]) == |msg|
      && qbuffer[pos + 2..pos + 2 + |msg|] == msg
    }

    ghost predicate Shape()
      reads this
    {
      && HEADER <= qunit && qsize == Extent(slots, qunit) == qbuffer.Length
      && head < slots && |queued| < slots
      && qhead == Extent(head, qunit) && qtail == Extent(SlotAt(head, |queued|, slots), qunit)
    }

    ghost predicate Holds(h: nat, msgs: seq<seq<byte>>)
      reads qbuffer
    {
      forall i :: 0 <= i < |msgs| ==> SlotHolds(Extent(SlotAt(h, i, slots), qunit), msgs[i])
    }

    ghost predicate Valid()
      reads this, qbuffer
    {
      Shape() && Holds(head, queued) && accepted == gone + queued
    }

    ghost function Capacity(): int
    {
      slots - 1
    }

    /** The ring can be used exactly when there is room for a slot. */
    constructor (size: nat, maxunit: nat)
      ensures Valid() <==> size >= maxunit + HEADER
      ensures queued == [] && gone == [] && qhead == qtail == 0 && qbuffer.Length == qsize && fresh(qbuffer)
      ensures qunit == maxunit + HEADER && Capacity() == size / qunit - 1
    {
      var unit := maxunit + HEADER;
      qunit := unit;
      qsize := size - size % unit;
      slots := size / unit;
      qbuffer := new byte[size - size % unit];
      qhead, qtail := 0, 0;
      head, queued, accepted, gone := 0, [], [], [];
      new;
      ExtentIsProduct(size / unit, unit);
      assert size == unit * (size / unit) + size % unit;
      assert size < unit ==> size / unit == 0;
      assert size >= unit ==> size / unit >= 1;
    }

    lemma NextPosition()
      requires Shape()
      ensures qtail + qunit <= qsize
      ensures (if qtail + qunit == qsize then 0 else qtail + qunit) == Extent(SlotAt(head, |queued| + 1, slots), qunit)
      ensures Extent(SlotAt(head, |queued| + 1, slots), qunit) == qhead <==> |queued| == Capacity()
    {
      var tail := SlotAt(head, |queued|, slots);
      ExtentsApart(tail, slots, qunit);
      if tail + 1 != slots {
        ExtentsApart(tail + 1, slots, qunit);
      }
      if |queued| != Capacity() {
        Disjoint(SlotAt(head, |queued| + 1, slots), head, qunit);
      }
    }

    lemma EmptyExactly()
      requires Shape()
      ensures qtail == qhead <==> queued == []
    {
      if queued != [] {
        Disjoint(SlotAt(head, |queued|, slots), head, qunit);
      }
    }

    /** Position of the eldest message, or none. */
    method ReadMsg() returns (found: bool, pos: nat)
      requires Valid()
      ensures found <==> queued != []
      ensures found ==> pos == qhead && SlotHolds(pos, queued[0])
    {
      EmptyExactly();
      found, pos := qtail != qhead, qhead;
    }

    lemma HeadMoves()
      requires Shape() && queued != []
      ensures (if qhead + qunit == qsize then 0 else qhead + qunit) == Extent(SlotAt(head, 1, slots), qunit)
      ensures qtail == Extent(SlotAt(SlotAt(head, 1, slots), |queued| - 1, slots), qunit)
    {
      ExtentsApart(head, slots, qunit);
      if head + 1 != slots {
        ExtentsApart(head + 1, slots, qunit);
      }
      NextSlots(head, |queued|, slots);
    }

    lemma RestHolds()
      requires head < slots && 0 < |queued| < slots && Holds(head, queued)
      ensures Holds(SlotAt(head, 1, slots), queued[1..])
    {
      NextSlots(head, |queued|, slots);
      var rest := queued[1..];
      forall i | 0 <= i < |rest|
        ensures SlotHolds(Extent(SlotAt(SlotAt(head, 1, slots), i, slots), qunit), rest[i])
      {
        assert rest[i] == queued[i + 1];
        assert SlotAt(SlotAt(head, 1, slots), (i + 1) - 1, slots) == SlotAt(head, i + 1, slots);
      }
    }

    /** Takes the eldest message away. When `msg` is not where it is, a warning is all that comes of it. */
    method ReleaseMsg(msg: nat)
      requires Valid()
      modifies this`qhead, this`head, this`queued, this`gone
      ensures Valid()
      ensures queued == if old(queued) == [] then [] else old(queued)[1..]
      ensures gone == if old(queued) == [] then old(gone) else old(gone) + [old(queued)[0]]
    {
      EmptyExactly();
      if qhead == qtail {
        return;
      }
      HeadMoves();
      RestHolds();
      OneGone(gone, queued);
      NextSlots(head, 1, slots);
      qhead := qhead + qunit;
      if qhead == qsize {
        qhead := 0;
      }
      gone := gone + [queued[0]];
      head := SlotAt(head, 1, slots);
      queued := queued[1..];
    }

    lemma OneMoreHolds(h: nat, msgs: seq<seq<byte>>, msg: seq<byte>)
      requires Holds(h, msgs) && SlotHolds(Extent(SlotAt(h, |msgs|, slots), qunit), msg)
      ensures Holds(h, msgs + [msg])
    {
    }

    /** Writes a message into a slot and nowhere else. */
    method WriteSlot(pos: nat, msg: seq<byte>)
      requires pos + qunit <= qbuffer.Length && |msg| + HEADER <= qunit
      modifies qbuffer
      ensures SlotHolds(pos, Kept(msg))
      ensures forall k :: 0 <= k < qbuffer.Length && (k < pos || pos + qunit <= k) ==> qbuffer[k] == old(qbuffer[k])
    {
      var size := |msg| % 0x1_0000;
      qbuffer[pos] := size % 256;
      qbuffer[pos + 1] := size / 256;
      forall i | 0 <= i < |msg| {
        qbuffer[pos + 2 + i] := msg[i];
      }
      assert qbuffer[pos + 2..pos + 2 + |Kept(msg)|] == Kept(msg);
    }

    /** Writes a message behind the queued ones, which stay as they are. */
    method Append(pos: nat, msg: seq<byte>, ghost h: nat, ghost msgs: seq<seq<byte>>)
      requires pos + qunit <= qbuffer.Length && |msg| + HEADER <= qunit
      requires h < slots && |msgs| < slots && Holds(h, msgs) && pos == Extent(SlotAt(h, |msgs|, slots), qunit)
      modifies qbuffer
      ensures Holds(h, msgs + [Kept(msg)])
    {
      WriteSlot(pos, msg);
      NextSlots(h, |msgs|, slots);
      forall i | 0 <= i < |msgs|
        ensures SlotHolds(Extent(SlotAt(h, i, slots), qunit), msgs[i])
      {
        var at := Extent(SlotAt(h, i, slots), qunit);
        assert old(SlotHolds(at, msgs[i]));
        Disjoint(SlotAt(h, i, slots), SlotAt(h, |msgs|, slots), qunit);
        assert qbuffer[at + 2..at + 2 + |msgs[i]|] == old(qbuffer[at + 2..at + 2 + |msgs[i]|]);
      }
      OneMoreHolds(h, msgs, Kept(msg));
    }

    /** Returns how many bytes it took: none if the message is too long for a slot or the ring is full. */
    method WriteMsg(msg: seq<byte>) returns (n: nat)
      requires Valid()
      modifies this`qtail, this`queued, this`accepted, qbuffer
      ensures Valid()
      ensures queued == OfferOne(old(queued), Capacity(), qunit, msg)
      ensures if |msg| + HEADER <= qunit && |old(queued)| < Capacity()
        then n == |msg| && queued == old(queued) + [Kept(msg)] else n == 0 && queued == old(queued)
    {
      if |msg| + HEADER > qunit {
        return 0;
      }
      NextPosition();
      var nextpos := qtail + qunit;
      if nextpos == qsize {
        nextpos := 0;
      }
      if nextpos == qhead {
        return 0;
      }
      Append(qtail, msg, head, queued);
      OneMore(gone, queued, Kept(msg));
      qtail := nextpos;
      queued := queued + [Kept(msg)];
      accepted := accepted + [Kept(msg)];
      n := |msg|;
    }

    method Clear()
      requires Valid()
      modifies this`qhead, this`qtail, this`head, this`queued, this`gone
      ensures Valid() && queued == []
    {
      qhead, qtail := 0, 0;
      gone := gone + queued;
      head, queued := 0, [];
    }

    /** Whatever the network thread writes meanwhile, the message being read stays where and as it is. */
    method WriteAll(msgs: seq<seq<byte>>)
      requires Valid()
      modifies this`qtail, this`queued, this`accepted, qbuffer
      ensures Valid()
      ensures queued == OfferAll(old(queued), Capacity(), qunit, msgs)
      ensures old(queued) != [] ==> SlotHolds(qhead, old(queued[0]))
    {
      var i := 0;
      while i < |msgs|
        invariant 0 <= i <= |msgs| && Valid()
        invariant queued == OfferAll(old(queued), Capacity(), qunit, msgs[..i])
      {
        var n := WriteMsg(msgs[i]);
        assert msgs[..i + 1][..i] == msgs[..i];
        i := i + 1;
      }
      assert msgs[..|msgs|] == msgs;
      OfferAllExtends(old(queued), Capacity(), qunit, msgs);
    }

    /** Copies a message out of its slot, if it is not too long. */
    method CopyOut(qm: nat, msglen: nat, ghost content: seq<byte>) returns (ret: int, msg: seq<byte>)
      requires SlotHolds(qm, content)
      ensures if |content| > msglen then ret == -1 else ret == |content| && msg == content
    {
      var size := BigEndian16(qbuffer[qm + 1], qbuffer[qm]);
      if size > msglen {
        ret, msg := -1, [];
      } else {
        ret, msg := size, qbuffer[qm + 2..qm + 2 + size];
      }
    }

    /**
     The player's turn: peek, copy, release, with any writes by the network thread in between.
     Blocks when there is nothing to read; a message longer than `msglen` is lost.
     */
    method ReadNext(msglen: nat, arrivals: seq<seq<byte>>) returns (blocked: bool, ret: int, msg: seq<byte>)
      requires Valid()
      modifies this, qbuffer
      ensures Valid() && (blocked <==> old(queued) == [])
      ensures blocked ==> queued == old(queued) && gone == old(gone)
      ensures !blocked ==> gone == old(gone) + [old(queued[0])]
      ensures !blocked ==> [old(queued[0])] + queued == OfferAll(old(queued), Capacity(), qunit, arrivals)
      ensures !blocked ==> if |old(queued[0])| > msglen then ret == -1 else ret == |msg| && msg == old(queued[0])
    {
      var found, qm := ReadMsg();
      if !found {
        return true, 0, [];
      }
      ghost var content := queued[0];
      OfferAllExtends(queued, Capacity(), qunit, arrivals);
      HeadOfExtended(queued, OfferAll(queued, Capacity(), qunit, arrivals));
      WriteAll(arrivals);
      ret, msg := CopyOut(qm, msglen, content);
      ReleaseMsg(qm);
      blocked := false;
    }
  }
}
