/**
 The client's video assembly: buffers from the network are collected until the time stamp changes or
 a marker says the access unit is complete, then handed to the decoder in one piece.
 */
module AccessUnits {
  import opened Bytes

  const PRIVATE_BUFFER_SIZE: nat := 1048576

  datatype Timeval = Timeval(sec: int, usec: int)

  datatype Buf = Buf(data: seq<byte>, pts: Timeval, marker: bool)

  /** Units already decoded and the one being collected, each as the buffers it is made of. */
  datatype Assembly = Assembly(units: seq<seq<Buf>>, pending: seq<Buf>, lastpts: Timeval)

  function Datas(bufs: seq<Buf>): seq<seq<byte>>
  {
    seq(|bufs|, i requires 0 <= i < |bufs| => bufs[i].data)
  }

  function Data(bufs: seq<Buf>): seq<byte>
  {
    Flatten(Datas(bufs))
  }

  lemma DataSnoc(bufs: seq<Buf>, b: Buf)
    ensures Data(bufs + [b]) == Data(bufs) + b.data
  {
    assert Datas(bufs + [b]) == Datas(bufs) + [b.data];
    FlattenOne(Datas(bufs), b.data);
  }

  function Flush(a: Assembly): Assembly
  {
    if a.pending == [] then a else a.(units := a.units + [a.pending], pending := [])
  }

  /** Before a buffer is taken: a new time stamp ends the unit being collected. */
  function OnPts(a: Assembly, b: Buf): Assembly
  {
    if b.pts != a.lastpts then Flush(a) else a
  }

  /** Whether a buffer is lost because it does not fit behind what is pending. */
  predicate Overflows(a: Assembly, b: Buf)
  {
    b.data != [] && |Data(OnPts(a, b).pending)| + |b.data| > PRIVATE_BUFFER_SIZE
  }

  function Play(a: Assembly, b: Buf): Assembly
  {
    if b.data == [] then a
    else if Overflows(a, b) then Flush(OnPts(a, b))
    else
      var c := OnPts(a, b).(pending := OnPts(a, b).pending + [b], lastpts := b.pts);
      if b.marker then Flush(c) else c
  }

  const START := Assembly([], [], Timeval(0, 0))

  function PlayAll(bufs: seq<Buf>): Assembly
  {
    if bufs == [] then START else Play(PlayAll(bufs[..|bufs| - 1]), bufs[|bufs| - 1])
  }

  /** The buffers that were neither empty nor lost. */
  function Kept(bufs: seq<Buf>): seq<Buf>
  {
    if bufs == [] then []
    else
      var before, b := bufs[..|bufs| - 1], bufs[|bufs| - 1];
      if b.data == [] || Overflows(PlayAll(before), b) then Kept(before) else Kept(before) + [b]
  }

  predicate NeverOverflows(bufs: seq<Buf>)
  {
    bufs == [] ||
      (NeverOverflows(bufs[..|bufs| - 1]) && !Overflows(PlayAll(bufs[..|bufs| - 1]), bufs[|bufs| - 1]))
  }

  ghost predicate OnePts(bufs: seq<Buf>, pts: Timeval)
  {
    forall i :: 0 <= i < |bufs| ==> bufs[i].pts == pts
  }

  /** Every unit is for one time stamp, as is the pending one, which fits its buffer. */
  ghost predicate Uniform(a: Assembly)
  {
    && (forall i :: 0 <= i < |a.units| ==> a.units[i] != [] && OnePts(a.units[i], a.units[i][0].pts))
    && OnePts(a.pending, a.lastpts)
    && |Data(a.pending)| <= PRIVATE_BUFFER_SIZE
  }

  lemma FlushUniform(a: Assembly)
    requires Uniform(a)
    ensures Uniform(Flush(a)) && Flatten(Flush(a).units) + Flush(a).pending == Flatten(a.units) + a.pending
  {
    assert Data([]) == [];
    if a.pending != [] {
      FlattenOne(a.units, a.pending);
      assert OnePts(a.pending, a.pending[0].pts);
      assert Flush(a).pending == [];
    }
  }

  lemma PlayUniform(a: Assembly, b: Buf)
    requires Uniform(a)
    ensures Uniform(Play(a, b))
    ensures Flatten(Play(a, b).units) + Play(a, b).pending ==
      Flatten(a.units) + a.pending + if b.data == [] || Overflows(a, b) then [] else [b]
  {
    if b.data != [] {
      var o := OnPts(a, b);
      if b.pts != a.lastpts {
        FlushUniform(a);
      }
      if Overflows(a, b) {
        FlushUniform(o);
      } else {
        DataSnoc(o.pending, b);
        var c := o.(pending := o.pending + [b], lastpts := b.pts);
        assert b.pts != a.lastpts ==> o.pending == [];
        assert Uniform(c);
        assert Flatten(o.units) + (o.pending + [b]) == Flatten(o.units) + o.pending + [b];
        FlushUniform(c);
      }
    }
  }

  /**
   Whatever arrives: units never mix time stamps, the pending unit fits its buffer, and nothing is
   reordered or repeated or lost but empty buffers and those that overflow.
   */
  lemma {:induction false} UnitsOfOnePts(bufs: seq<Buf>)
    ensures Uniform(PlayAll(bufs))
    ensures Flatten(PlayAll(bufs).units) + PlayAll(bufs).pending == Kept(bufs)
  {
    if bufs == [] {
      assert Data([]) == [];
    } else {
      UnitsOfOnePts(bufs[..|bufs| - 1]);
      PlayUniform(PlayAll(bufs[..|bufs| - 1]), bufs[|bufs| - 1]);
    }
  }

  ghost predicate Unmarked(bufs: seq<Buf>)
  {
    forall i :: 0 <= i < |bufs| ==> !bufs[i].marker
  }

  /** A unit that ends before `next` had reason to: its marker, or the other's time stamp. */
  ghost predicate CutBefore(unit: seq<Buf>, next: Buf)
  {
    unit != [] && (unit[|unit| - 1].marker || unit[|unit| - 1].pts != next.pts)
  }

  ghost predicate UnitsCut(units: seq<seq<Buf>>)
  {
    && (forall i :: 0 <= i < |units| ==> units[i] != [] && Unmarked(units[i][..|units[i]| - 1]))
    && (forall i :: 0 < i < |units| ==> CutBefore(units[i - 1], units[i][0]))
  }

  ghost predicate LastCutBefore(units: seq<seq<Buf>>, next: Buf)
  {
    units == [] || CutBefore(units[|units| - 1], next)
  }

  /** Units are as long as they can be: cut only after a marker and where the time stamp changes. */
  ghost predicate WellCut(a: Assembly)
  {
    && UnitsCut(a.units) && Unmarked(a.pending)
    && (if a.pending != [] then LastCutBefore(a.units, a.pending[0])
        else a.units == [] || (var last := a.units[|a.units| - 1]; last != [] && last[|last| - 1].marker))
  }

  lemma UnitsCutSnoc(units: seq<seq<Buf>>, unit: seq<Buf>)
    requires UnitsCut(units) && unit != [] && Unmarked(unit[..|unit| - 1]) && LastCutBefore(units, unit[0])
    ensures UnitsCut(units + [unit])
  {
    var longer := units + [unit];
    forall i | 0 < i < |longer|
      ensures CutBefore(longer[i - 1], longer[i][0])
    {
      assert i < |units| ==> CutBefore(units[i - 1], units[i][0]);
    }
  }

  lemma OnPtsWellCut(a: Assembly, b: Buf)
    requires Uniform(a) && WellCut(a)
    ensures var o := OnPts(a, b);
      && UnitsCut(o.units) && Unmarked(o.pending)
      && LastCutBefore(o.units, if o.pending == [] then b else o.pending[0])
  {
    if b.pts != a.lastpts && a.pending != [] {
      assert a.pending[|a.pending| - 1].pts == a.lastpts;
      UnitsCutSnoc(a.units, a.pending);
    }
  }

  lemma TakeWellCut(o: Assembly, b: Buf)
    requires UnitsCut(o.units) && Unmarked(o.pending)
    requires LastCutBefore(o.units, if o.pending == [] then b else o.pending[0])
    ensures var c := o.(pending := o.pending + [b], lastpts := b.pts); WellCut(if b.marker then Flush(c) else c)
  {
    var pending := o.pending + [b];
    assert pending[..|pending| - 1] == o.pending && pending[0] == if o.pending == [] then b else o.pending[0];
    if b.marker {
      UnitsCutSnoc(o.units, pending);
      var units := o.units + [pending];
      assert units[|units| - 1] == pending && pending[|pending| - 1] == b;
    }
  }

  lemma PlayWellCut(a: Assembly, b: Buf)
    requires Uniform(a) && WellCut(a) && !Overflows(a, b)
    ensures WellCut(Play(a, b))
  {
    if b.data != [] {
      OnPtsWellCut(a, b);
      TakeWellCut(OnPts(a, b), b);
    }
  }

  /** While nothing overflows, the units are exactly the input cut after markers and at new time stamps. */
  lemma {:induction false} UnitsWellCut(bufs: seq<Buf>)
    requires NeverOverflows(bufs)
    ensures WellCut(PlayAll(bufs))
  {
    if bufs != [] {
      UnitsWellCut(bufs[..|bufs| - 1]);
      UnitsOfOnePts(bufs[..|bufs| - 1]);
      PlayWellCut(PlayAll(bufs[..|bufs| - 1]), bufs[|bufs| - 1]);
    }
  }

  lemma DataEmpty(bufs: seq<Buf>)
    requires forall i :: 0 <= i < |bufs| ==> bufs[i].data != []
    ensures Data(bufs) == [] <==> bufs == []
  {
    if bufs != [] {
      assert Datas(bufs)[0] == bufs[0].data;
    }
  }

  /** A buffer that overflows ends the unit that was pending, and nothing of it is kept. */
  lemma OverflowEndsUnit(a: Assembly, b: Buf)
    requires Overflows(a, b)
    ensures Play(a, b).pending == []
    ensures a.pending != [] ==> Play(a, b).units == a.units + [a.pending]
    ensures a.pending == [] ==> Play(a, b).units == a.units
  {
  }

  /** One decoder call: the bytes of a unit and the time stamp that goes with them. */
  datatype Decoded = Decoded(pts: Timeval, data: seq<byte>)

  class DecoderBuffer {
    const privbuf: array<byte>
    var privbuflen: nat
    var lastpts: Timeval
    /** What has been handed to the decoder. */
    ghost var decoded: seq<Decoded>
    ghost var a: Assembly

    ghost predicate Valid()
      reads this, privbuf
    {
      && privbuf.Length == PRIVATE_BUFFER_SIZE && privbuflen <= PRIVATE_BUFFER_SIZE
      && Uniform(a) && lastpts == a.lastpts
      && privbuf[..privbuflen] == Data(a.pending)
      && (forall i :: 0 <= i < |a.pending| ==> a.pending[i].data != [])
      && |decoded| == |a.units|
      && (forall i :: 0 <= i < |decoded| ==> decoded[i] == Decoded(a.units[i][0].pts, Data(a.units[i])))
    }

    constructor ()
      ensures Valid() && a == START && decoded == [] && fresh(privbuf)
    {
      privbuf := new byte[PRIVATE_BUFFER_SIZE];
      privbuflen, lastpts := 0, Timeval(0, 0);
      decoded, a := [], START;
    }

    /** The decoder call that what is pending makes, if anything is. */
    ghost function Handed(): seq<Decoded>
      requires privbuflen <= privbuf.Length
      reads this, privbuf
    {
      if privbuflen > 0 then [Decoded(lastpts, privbuf[..privbuflen])] else []
    }

    /** Hands what is pending to the decoder, which does nothing with an empty buffer. */
    method PlayPending()
      requires Valid()
      modifies this`privbuflen, this`decoded, this`a
      ensures Valid() && a == Flush(old(a)) && privbuflen == 0
      ensures decoded == old(decoded) + old(Handed())
    {
      DataEmpty(a.pending);
      FlushUniform(a);
      if privbuflen > 0 {
        decoded := decoded + [Decoded(lastpts, privbuf[..privbuflen])];
      }
      privbuflen := 0;
      a := Flush(a);
    }

    /** Copies a buffer behind what is pending. */
    method Append(b: Buf)
      requires Valid() && b.data != [] && privbuflen + |b.data| <= PRIVATE_BUFFER_SIZE
      requires b.pts == lastpts || a.pending == []
      modifies this`privbuflen, this`lastpts, this`a, privbuf
      ensures Valid() && a == old(a).(pending := old(a.pending) + [b], lastpts := b.pts)
      ensures lastpts == b.pts && privbuf[..privbuflen] == old(privbuf[..privbuflen]) + b.data
    {
      DataSnoc(a.pending, b);
      ghost var before := privbuf[..privbuflen];
      forall i | 0 <= i < |b.data| {
        privbuf[privbuflen + i] := b.data[i];
      }
      assert privbuf[..privbuflen + |b.data|] == before + b.data;
      privbuflen := privbuflen + |b.data|;
      lastpts := b.pts;
      a := a.(pending := a.pending + [b], lastpts := b.pts);
    }

    /** `before` is what a new time stamp hands over, `kept` what then lies before `b`. */
    method PlayVideo(b: Buf)
      requires Valid()
      modifies this, privbuf
      ensures Valid() && a == Play(old(a), b)
      ensures b.data == [] ==> (decoded, privbuflen, lastpts) == old((decoded, privbuflen, lastpts))
      ensures b.data != [] ==>
        var same := b.pts == old(lastpts);
        var before := old(decoded) + if same then [] else old(Handed());
        var kept := if same then old(privbuf[..privbuflen]) else [];
        if |kept| + |b.data| > PRIVATE_BUFFER_SIZE then
          privbuflen == 0 && decoded == before + if same then old(Handed()) else []
        else
          && lastpts == b.pts
          && if b.marker then privbuflen == 0 && decoded == before + [Decoded(b.pts, kept + b.data)]
             else privbuf[..privbuflen] == kept + b.data && decoded == before
    {
      if |b.data| <= 0 {
        return;
      }
      if b.pts != lastpts {
        PlayPending();
      }
      assert a == OnPts(old(a), b);
      if privbuflen + |b.data| <= PRIVATE_BUFFER_SIZE {
        Append(b);
        if b.marker && privbuflen > 0 {
          PlayPending();
        }
      } else {
        PlayPending();
      }
    }

    /** Any sequence of buffers. */
    method PlaySequence(bufs: seq<Buf>)
      requires Valid() && a == START
      modifies this, privbuf
      ensures Valid() && a == PlayAll(bufs)
    {
      for i := 0 to |bufs|
        invariant Valid() && a == PlayAll(bufs[..i])
      {
        PlayVideo(bufs[i]);
        assert bufs[..i + 1][..i] == bufs[..i];
      }
      assert bufs[..|bufs|] == bufs;
    }
  }
}
