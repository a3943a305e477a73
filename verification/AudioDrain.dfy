/**
 The client's audio output: packets queue up, and a callback that must deliver exactly `ssize` bytes
 decodes as many of them as it takes, keeping what is left over for next time.
 */
module AudioDrain {
  import opened Bytes

  /** Four times the codec library's largest audio frame. */
  const ABMAXSIZE: nat := 768000
  /** Silence put in after a decoding error. */
  const SILENCE: nat := 1024

  /**
   A packet, with what the decoder makes of it: the samples each call yields (none if it has no frame
   ready), and whether the calls use up the packet or the last one fails.
   */
  datatype Packet = Packet(size: nat, frames: seq<seq<byte>>, ok: bool)
  {
    function Sound(): seq<byte>
    {
      Flatten(frames) + if ok then [] else Zeros(SILENCE)
    }
  }

  function SoundList(packets: seq<Packet>): seq<seq<byte>>
  {
    seq(|packets|, i requires 0 <= i < |packets| => packets[i].Sound())
  }

  function Sounds(packets: seq<Packet>): seq<byte>
  {
    Flatten(SoundList(packets))
  }

  function Sizes(packets: seq<Packet>): nat
  {
    if packets == [] then 0 else packets[0].size + Sizes(packets[1..])
  }

  lemma {:induction false} SizesSnoc(packets: seq<Packet>, p: Packet)
    ensures Sizes(packets + [p]) == Sizes(packets) + p.size
  {
    if packets == [] {
      assert [p][1..] == [];
    } else {
      SizesSnoc(packets[1..], p);
      assert (packets + [p])[1..] == packets[1..] + [p];
    }
  }

  lemma SoundsAppend(a: seq<Packet>, b: seq<Packet>)
    ensures Sounds(a + b) == Sounds(a) + Sounds(b)
  {
    assert SoundList(a + b) == SoundList(a) + SoundList(b);
    FlattenAppend(SoundList(a), SoundList(b));
  }

  lemma SoundsSnoc(packets: seq<Packet>, p: Packet)
    ensures Sounds(packets + [p]) == Sounds(packets) + p.Sound()
  {
    assert SoundList(packets + [p]) == SoundList(packets) + [p.Sound()];
    FlattenOne(SoundList(packets), p.Sound());
  }

  lemma SoundsHead(packets: seq<Packet>)
    requires packets != []
    ensures Sounds(packets) == packets[0].Sound() + Sounds(packets[1..])
  {
    assert SoundList(packets) == [packets[0].Sound()] + SoundList(packets[1..]);
    FlattenCons(packets[0].Sound(), SoundList(packets[1..]));
  }

  // ---------------------------------------------------------------- what is kept

  /** What fits the buffer: the rest is cut off. */
  function Clip(s: seq<byte>): (r: seq<byte>)
    ensures |r| <= ABMAXSIZE
  {
    if |s| <= ABMAXSIZE then s else s[..ABMAXSIZE]
  }

  lemma ClipTwice(a: seq<byte>, b: seq<byte>)
    ensures Clip(Clip(a) + b) == Clip(a + b)
  {
    if |a| > ABMAXSIZE {
      assert (a + b)[..ABMAXSIZE] == a[..ABMAXSIZE] == (a[..ABMAXSIZE] + b)[..ABMAXSIZE];
    }
  }

  /** Silence is put in without looking whether there is room for it. */
  predicate Overruns(left: seq<byte>, p: Packet)
  {
    !p.ok && |Clip(left + Flatten(p.frames))| + SILENCE > ABMAXSIZE
  }

  /** The buffer after a packet has been decoded behind what was left in it. */
  function After(left: seq<byte>, p: Packet): (r: seq<byte>)
    requires !Overruns(left, p)
    ensures |r| <= ABMAXSIZE
  {
    Clip(left + Flatten(p.frames)) + if p.ok then [] else Zeros(SILENCE)
  }

  /** A packet's sound is kept whole, and the buffer not overrun, exactly when it fits beside what is left. */
  lemma KeptExactly(left: seq<byte>, p: Packet)
    requires |left| <= ABMAXSIZE
    ensures |left| + |p.Sound()| <= ABMAXSIZE <==> !Overruns(left, p) && After(left, p) == left + p.Sound()
    ensures !Overruns(left, p) && |left| + |p.Sound()| > ABMAXSIZE ==> |After(left, p)| < |left| + |p.Sound()|
  {
    if !Overruns(left, p) && |left + Flatten(p.frames)| <= ABMAXSIZE {
      assert left + Flatten(p.frames) + (if p.ok then [] else Zeros(SILENCE)) == left + p.Sound();
    }
  }

  /** What the callback comes to: enough bytes, or all packets used up, or a write outside the buffer. */
  datatype Fetched = Enough(left: seq<byte>, rest: seq<Packet>) | Starved(left: seq<byte>) | Broken

  /** Packets are decoded one by one until there are `ssize` bytes. */
  function Fetch(left: seq<byte>, queue: seq<Packet>, ssize: nat): (f: Fetched)
    ensures f.Enough? ==> |f.left| >= ssize
    ensures f.Starved? ==> |f.left| < ssize
    decreases |queue|
  {
    if |left| >= ssize then Enough(left, queue)
    else if queue == [] then Starved(left)
    else if Overruns(left, queue[0]) then Broken
    else Fetch(After(left, queue[0]), queue[1..], ssize)
  }

  /** Every packet that is decoded fits. */
  predicate Fits(left: seq<byte>, queue: seq<Packet>, ssize: nat)
    decreases |queue|
  {
    |left| >= ssize || queue == [] ||
    (|left| + |queue[0].Sound()| <= ABMAXSIZE && Fits(left + queue[0].Sound(), queue[1..], ssize))
  }

  lemma {:induction false} FetchKeeps(left: seq<byte>, queue: seq<Packet>, ssize: nat)
    requires |left| <= ABMAXSIZE
    ensures match Fetch(left, queue, ssize)
      case Enough(l, rest) =>
        && |l| + |Sounds(rest)| <= |left| + |Sounds(queue)|
        && (Fits(left, queue, ssize) <==> l + Sounds(rest) == left + Sounds(queue))
      case Starved(l) =>
        |l| <= |left| + |Sounds(queue)| && (Fits(left, queue, ssize) <==> l == left + Sounds(queue))
      case Broken => !Fits(left, queue, ssize)
    decreases |queue|
  {
    if |left| < ssize && queue == [] {
      assert left + [] == left;
    } else if |left| < ssize {
      var p, rest := queue[0], queue[1..];
      KeptExactly(left, p);
      SoundsHead(queue);
      Reassociate(left, p.Sound(), Sounds(rest));
      if !Overruns(left, p) {
        FetchKeeps(After(left, p), rest, ssize);
      }
    }
  }

  /**
   No byte is lost exactly when every packet fits when it is decoded; then the callback gets the next
   bytes of the concatenated sounds, or waits exactly when all of them are too few.
   */
  lemma FetchExactly(left: seq<byte>, queue: seq<Packet>, ssize: nat)
    requires |left| <= ABMAXSIZE
    ensures Fits(left, queue, ssize) <==> match Fetch(left, queue, ssize)
      case Enough(l, rest) => l + Sounds(rest) == left + Sounds(queue)
      case Starved(l) => l == left + Sounds(queue)
      case Broken => false
    ensures Fits(left, queue, ssize) ==> (Fetch(left, queue, ssize).Starved? <==> |left| + |Sounds(queue)| < ssize)
  {
    FetchKeeps(left, queue, ssize);
  }

  /** It is enough that each packet fits beside the bytes asked for. */
  lemma {:induction false} SmallPacketsFit(left: seq<byte>, queue: seq<Packet>, ssize: nat)
    requires forall i :: 0 <= i < |queue| ==> |queue[i].Sound()| + ssize <= ABMAXSIZE
    ensures Fits(left, queue, ssize)
    decreases |queue|
  {
    if |left| < ssize && queue != [] {
      SmallPacketsFit(left + queue[0].Sound(), queue[1..], ssize);
    }
  }

  /** No packet is decoded before it is needed: with any fewer than those taken, the callback would wait. */
  lemma {:induction false} FetchTakes(left: seq<byte>, queue: seq<Packet>, ssize: nat) returns (n: nat)
    requires Fetch(left, queue, ssize).Enough?
    ensures n <= |queue| && Fetch(left, queue, ssize).rest == queue[n..]
    ensures forall m :: 0 <= m < n ==> Fetch(left, queue[..m], ssize).Starved?
    decreases |queue|
  {
    if |left| >= ssize {
      n := 0;
    } else {
      n := FetchTakes(After(left, queue[0]), queue[1..], ssize);
      n := n + 1;
      forall m | 0 <= m < n
        ensures Fetch(left, queue[..m], ssize).Starved?
      {
        if m > 0 {
          assert queue[..m][0] == queue[0] && queue[..m][1..] == queue[1..][..m - 1];
        }
      }
    }
  }

  class PacketQueue {
    var queue: seq<Packet>
    var size: int
    /** Packets ever put, and packets taken out again. */
    ghost var arrived: seq<Packet>
    ghost var gone: seq<Packet>

    ghost predicate Valid()
      reads this
    {
      size == Sizes(queue) && arrived == gone + queue
    }

    constructor ()
      ensures Valid() && queue == [] && gone == []
    {
      queue, size, arrived, gone := [], 0, [], [];
    }

    method Put(p: Packet)
      requires Valid()
      modifies this
      ensures Valid() && queue == old(queue) + [p] && arrived == old(arrived) + [p] && gone == old(gone)
    {
      SizesSnoc(queue, p);
      assert gone + (queue + [p]) == gone + queue + [p];
      queue := queue + [p];
      size := size + p.size;
      arrived := arrived + [p];
    }

    /** Not ready stands for waiting, when the caller blocks. */
    method Get() returns (ready: bool, p: Packet)
      requires Valid()
      modifies this
      ensures Valid() && (ready <==> old(queue) != []) && arrived == old(arrived)
      ensures ready ==> [p] + queue == old(queue) && gone == old(gone) + [p] && size == old(size) - p.size
      ensures !ready ==> queue == old(queue) && gone == old(gone)
    {
      if |queue| > 0 {
        p := queue[0];
        assert gone + queue == gone + [p] + queue[1..];
        queue := queue[1..];
        size := size - p.size;
        gone := gone + [p];
        ready := true;
      } else {
        ready, p := false, Packet(0, [], true);
      }
    }
  }

  datatype Outcome = Delivered(stream: seq<byte>) | Waits | Overrun

  class AudioOut {
    const q: PacketQueue
    const audiobuf: array<byte>
    var absize: nat
    var abpos: nat
    ghost var delivered: seq<byte>
    /** Whether sound has ever been cut off. */
    ghost var clipped: bool

    ghost predicate Shape()
      reads this
    {
      audiobuf.Length == ABMAXSIZE && abpos <= absize <= ABMAXSIZE
    }

    ghost function Left(): seq<byte>
      requires Shape()
      reads this, audiobuf
    {
      audiobuf[abpos..absize]
    }

    /** Unless sound was cut off: what was delivered and what is left over are the sounds of the packets taken. */
    ghost predicate Valid()
      reads this, audiobuf, q
    {
      && Shape() && q.Valid()
      && (if clipped then |delivered| + |Left()| < |Sounds(q.gone)| else delivered + Left() == Sounds(q.gone))
    }

    constructor (queue: PacketQueue)
      requires queue.Valid() && queue.gone == []
      ensures Valid() && q == queue && delivered == [] && !clipped && Left() == [] && fresh(audiobuf)
    {
      q := queue;
      audiobuf := new byte[ABMAXSIZE];
      absize, abpos, delivered, clipped := 0, 0, [], false;
    }

    /** Moves what is left over to the front; the two places may overlap. */
    method Compact()
      requires Shape()
      modifies this`absize, this`abpos, audiobuf
      ensures Shape() && abpos == 0 && audiobuf[..absize] == Left() == old(Left())
    {
      ghost var left := Left();
      forall i | 0 <= i < absize - abpos {
        audiobuf[i] := audiobuf[abpos + i];
      }
      assert audiobuf[..absize - abpos] == left;
      absize, abpos := absize - abpos, 0;
    }

    /** Adds the samples of one decoder call, as many as there is room for. */
    method AddFrame(samples: seq<byte>)
      requires Shape() && abpos == 0
      modifies this`absize, audiobuf
      ensures Shape() && audiobuf[..absize] == Clip(old(audiobuf[..absize]) + samples)
    {
      var datalen := |samples|;
      if absize + datalen > ABMAXSIZE {
        datalen := datalen - (absize + datalen - ABMAXSIZE);
      }
      ghost var before := audiobuf[..absize];
      forall i | 0 <= i < datalen {
        audiobuf[absize + i] := samples[i];
      }
      assert audiobuf[..absize + datalen] == before + samples[..datalen];
      absize := absize + datalen;
    }

    lemma NextFrame(start: seq<byte>, frames: seq<seq<byte>>, i: nat)
      requires i < |frames|
      ensures Clip(Clip(start + Flatten(frames[..i])) + frames[i]) == Clip(start + Flatten(frames[..i + 1]))
    {
      assert frames[..i + 1] == frames[..i] + [frames[i]];
      FlattenOne(frames[..i], frames[i]);
      ClipTwice(start + Flatten(frames[..i]), frames[i]);
      assert start + Flatten(frames[..i]) + frames[i] == start + (Flatten(frames[..i]) + frames[i]);
    }

    /** Adds the samples of every decoder call. */
    method AddFrames(frames: seq<seq<byte>>)
      requires Shape() && abpos == 0
      modifies this`absize, audiobuf
      ensures Shape() && audiobuf[..absize] == Clip(old(audiobuf[..absize]) + Flatten(frames))
    {
      ghost var start := audiobuf[..absize];
      var i := 0;
      assert start + Flatten(frames[..0]) == start;
      while i < |frames|
        invariant 0 <= i <= |frames| && Shape()
        invariant audiobuf[..absize] == Clip(start + Flatten(frames[..i]))
      {
        NextFrame(start, frames, i);
        AddFrame(frames[i]);
        i := i + 1;
      }
      assert frames[..|frames|] == frames;
    }

    /** Adds silence, where it fits. */
    method AddSilence()
      requires Shape() && abpos == 0 && absize + SILENCE <= ABMAXSIZE
      modifies this`absize, audiobuf
      ensures Shape() && audiobuf[..absize] == old(audiobuf[..absize]) + Zeros(SILENCE)
    {
      ghost var before := audiobuf[..absize];
      forall i | 0 <= i < SILENCE {
        audiobuf[absize + i] := 0;
      }
      assert audiobuf[..absize + SILENCE] == before + Zeros(SILENCE);
      absize := absize + SILENCE;
    }

    /** Decodes a packet; true where the original would write outside its buffer. */
    method DecodePacket(p: Packet) returns (overrun: bool)
      requires Shape() && abpos == 0
      modifies this`absize, audiobuf
      ensures Shape() && overrun == Overruns(old(audiobuf[..absize]), p)
      ensures !overrun ==> audiobuf[..absize] == After(old(audiobuf[..absize]), p)
      ensures var all := old(audiobuf[..absize]) + Flatten(p.frames);
        var kept := if |all| <= ABMAXSIZE then all else all[..ABMAXSIZE];
        if p.ok then !overrun && audiobuf[..absize] == kept
        else
          && (overrun <==> |kept| + SILENCE > ABMAXSIZE)
          && (!overrun ==> audiobuf[..absize] == kept + seq(SILENCE, _ => 0))
    {
      ghost var left := audiobuf[..absize];
      AddFrames(p.frames);
      assert |audiobuf[..absize]| == absize;
      if !p.ok {
        if absize + SILENCE > ABMAXSIZE {
          return true;
        }
        AddSilence();
      } else {
        assert Clip(left + Flatten(p.frames)) + [] == Clip(left + Flatten(p.frames));
      }
      overrun := false;
    }

    /** Copies `ssize` bytes out. */
    method CopyOut(ssize: nat) returns (stream: seq<byte>)
      requires Valid() && absize - abpos >= ssize
      modifies this`abpos, this`delivered
      ensures Valid() && stream == old(Left())[..ssize] && Left() == old(Left())[ssize..]
      ensures delivered == old(delivered) + stream
    {
      stream := audiobuf[abpos..abpos + ssize];
      ghost var rest := audiobuf[abpos + ssize..absize];
      assert audiobuf[abpos..absize] == stream + rest;
      assert delivered + (stream + rest) == delivered + stream + rest;
      abpos := abpos + ssize;
      delivered := delivered + stream;
    }

    /** Takes one packet from the queue and decodes it behind what is left over. */
    method Refill() returns (ready: bool, overrun: bool)
      requires Valid()
      modifies this`absize, this`abpos, this`clipped, audiobuf, q
      ensures Shape() && q.Valid() && q.arrived == old(q.arrived) && (ready <==> old(q.queue) != [])
      ensures !ready ==> Valid() && !overrun && q.queue == [] && Left() == old(Left()) && clipped == old(clipped)
      ensures ready ==> q.queue == old(q.queue)[1..] && overrun == Overruns(old(Left()), old(q.queue)[0])
      ensures ready && !overrun ==> Valid() && Left() == After(old(Left()), old(q.queue)[0])
      ensures ready && !overrun ==>
        clipped == (old(clipped) || |old(Left())| + |old(q.queue)[0].Sound()| > ABMAXSIZE)
    {
      ghost var left, taken := Left(), q.gone;
      Compact();
      var p;
      ready, p := q.Get();
      overrun := false;
      if ready {
        overrun := DecodePacket(p);
        KeptExactly(left, p);
        SoundsSnoc(taken, p);
        assert delivered + (left + p.Sound()) == delivered + left + p.Sound();
        clipped := clipped || |left| + |p.Sound()| > ABMAXSIZE;
      }
    }

    lemma Arrived()
      requires Valid()
      ensures !clipped ==> delivered <= Sounds(q.arrived)
    {
      SoundsAppend(q.gone, q.queue);
    }

    /**
     Delivers exactly `ssize` bytes, or waits because everything that has arrived is too little; a wait
     ends by calling again, when more packets have been put.
     */
    method FillBuffer(ssize: nat) returns (outcome: Outcome)
      requires Valid()
      modifies this, audiobuf, q
      ensures q.arrived == old(q.arrived)
      ensures match Fetch(old(Left()), old(q.queue), ssize)
        case Enough(l, rest) =>
          && Valid() && outcome == Delivered(l[..ssize]) && delivered == old(delivered) + l[..ssize]
          && Left() == l[ssize..] && q.queue == rest
        case Starved(l) => Valid() && outcome == Waits && delivered == old(delivered) && Left() == l && q.queue == []
        case Broken => outcome == Overrun
      ensures outcome != Overrun ==> (clipped <==> old(clipped) || !Fits(old(Left()), old(q.queue), ssize))
      ensures outcome != Overrun && !clipped ==> delivered <= Sounds(q.arrived)
    {
      ghost var goal, fits := Fetch(Left(), q.queue, ssize), Fits(Left(), q.queue, ssize);
      while absize - abpos < ssize
        invariant Valid() && q.arrived == old(q.arrived) && delivered == old(delivered)
        invariant goal == Fetch(Left(), q.queue, ssize)
        invariant if old(clipped) || clipped then clipped && (old(clipped) || !fits)
          else fits == Fits(Left(), q.queue, ssize)
        decreases |q.queue|
      {
        ghost var left := Left();
        assert left + [] == left;
        KeptExactly(left, if q.queue == [] then Packet(0, [], true) else q.queue[0]);
        var ready, overrun := Refill();
        if !ready {
          Arrived();
          return Waits;
        }
        if overrun {
          return Overrun;
        }
      }
      var stream := CopyOut(ssize);
      Arrived();
      outcome := Delivered(stream);
    }
  }
}
