/**
 The buffer between an audio capture thread and one encoder: whole frames in at the tail, whole
 frames out at the head, and the contents moved to the front when the tail runs out of room.
 */
module AudioBuffer {
  import opened Bytes

  /** Bytes in a number of frames, rounded down. */
  function ByteSize(frames: nat, channels: nat, bits: nat): nat
  {
    frames * channels * bits / 8
  }

  lemma {:induction false} EightExtents(n: nat, unit: nat)
    ensures 8 * Extent(n, unit) == n * (8 * unit)
  {
    if n > 0 {
      EightExtents(n - 1, unit);
      var eight := 8 * unit;
      assert n * eight == (n - 1) * eight + eight;
    }
  }

  lemma Associate(a: nat, b: nat, c: nat)
    ensures a * b * c == a * (b * c)
  {
  }

  lemma ByteSizeIsExtent(frames: nat, channels: nat, bits: nat)
    requires channels * bits % 8 == 0
    ensures ByteSize(frames, channels, bits) == Extent(frames, channels * bits / 8)
  {
    Associate(frames, channels, bits);
    var w := channels * bits;
    assert w == 8 * (w / 8);
    EightExtents(frames, w / 8);
  }

  ghost predicate AddsUp(channels: nat, bits: nat)
  {
    forall m: nat, n: nat ::
      ByteSize(m + n, channels, bits) == ByteSize(m, channels, bits) + ByteSize(n, channels, bits)
  }

  lemma WholeBytesAddUp(channels: nat, bits: nat)
    requires channels * bits % 8 == 0
    ensures AddsUp(channels, bits)
  {
    forall m: nat, n: nat
      ensures ByteSize(m + n, channels, bits) == ByteSize(m, channels, bits) + ByteSize(n, channels, bits)
    {
      ByteSizeIsExtent(m, channels, bits);
      ByteSizeIsExtent(n, channels, bits);
      ByteSizeIsExtent(m + n, channels, bits);
      ExtentAdd(m, n, channels * bits / 8);
    }
  }

  lemma AddingUpTakesWholeBytes(channels: nat, bits: nat)
    requires AddsUp(channels, bits)
    ensures channels * bits % 8 == 0
  {
    var w := channels * bits;
    assert ByteSize(1, channels, bits) == w / 8 by { assert 1 * channels * bits == w; }
    assert ByteSize(8, channels, bits) == w by { assert 8 * channels * bits == 8 * w; }
    assert ByteSize(1 + 1, channels, bits) == 2 * (w / 8);
    assert ByteSize(2 + 2, channels, bits) == 4 * (w / 8);
    assert ByteSize(4 + 4, channels, bits) == 8 * (w / 8);
  }

  /** Frames can be counted in bytes, wherever the cuts, exactly when a frame is a whole number of bytes. */
  lemma BytesAddUp(channels: nat, bits: nat)
    ensures AddsUp(channels, bits) <==> channels * bits % 8 == 0
  {
    if channels * bits % 8 == 0 {
      WholeBytesAddUp(channels, bits);
    } else if AddsUp(channels, bits) {
      AddingUpTakesWholeBytes(channels, bits);
    }
  }

  // ---------------------------------------------------------------- the counts

  /** The fields of a buffer that count: where its contents lie, and how many frames they are. */
  datatype Counts = Counts(head: int, tail: int, frames: int)

  /** What a fill of `frames` frames does to the counts: nothing, when they exceed the free space. */
  function FillCounts(c: Counts, frames: int, channels: nat, bits: nat, bufsize: nat): Counts
  {
    if frames <= 0 then c
    else
      var framesize := ByteSize(frames, channels, bits);
      if framesize > c.head + (bufsize - c.tail) then c
      else if framesize <= bufsize - c.tail then Counts(c.head, c.tail + framesize, c.frames + frames)
      else Counts(0, c.tail - c.head + framesize, c.frames + frames)
  }

  /** What a read does: it takes as many frames as asked, or all. */
  function ReadCounts(c: Counts, frames: int, channels: nat, bits: nat): Counts
  {
    var n := if c.frames >= frames then frames else c.frames;
    if n <= 0 then c
    else if n == c.frames then Counts(0, 0, 0)
    else Counts(c.head + ByteSize(n, channels, bits), c.tail, c.frames - n)
  }

  /**
   Taking `n` of the frames counted takes bytes that are there, and with the last frame the last byte.
   Otherwise bytes never given are read, or some that were given are dropped.
   */
  predicate SoundRead(c: Counts, n: nat, channels: nat, bits: nat)
  {
    ByteSize(n, channels, bits) <= c.tail - c.head &&
    (n == c.frames ==> ByteSize(n, channels, bits) == c.tail - c.head)
  }

  datatype Operation = Fill(frames: int) | Read(frames: int)

  function RunCounts(c: Counts, ops: seq<Operation>, channels: nat, bits: nat, bufsize: nat): Counts
    decreases |ops|
  {
    if ops == [] then c
    else
      var next :=
        match ops[0]
        case Fill(frames) => FillCounts(c, frames, channels, bits, bufsize)
        case Read(frames) => ReadCounts(c, frames, channels, bits);
      RunCounts(next, ops[1..], channels, bits, bufsize)
  }

  /** The contents are as many bytes as the frames counted take. */
  predicate InStep(c: Counts, channels: nat, bits: nat)
  {
    c.frames >= 0 && c.tail - c.head == ByteSize(c.frames, channels, bits)
  }

  lemma BytesOfSum(m: nat, n: nat, channels: nat, bits: nat)
    requires channels * bits % 8 == 0
    ensures ByteSize(m + n, channels, bits) == ByteSize(m, channels, bits) + ByteSize(n, channels, bits)
    ensures ByteSize(0, channels, bits) == 0
  {
    WholeBytesAddUp(channels, bits);
    assert ByteSize(0 + 0, channels, bits) == ByteSize(0, channels, bits) + ByteSize(0, channels, bits);
  }

  lemma FillInStep(c: Counts, frames: int, channels: nat, bits: nat, bufsize: nat)
    requires channels * bits % 8 == 0 && InStep(c, channels, bits)
    ensures InStep(FillCounts(c, frames, channels, bits, bufsize), channels, bits)
  {
    if frames > 0 {
      BytesOfSum(c.frames, frames, channels, bits);
    }
  }

  lemma ReadInStep(c: Counts, frames: int, channels: nat, bits: nat)
    requires channels * bits % 8 == 0 && InStep(c, channels, bits)
    ensures InStep(ReadCounts(c, frames, channels, bits), channels, bits)
  {
    var n := if c.frames >= frames then frames else c.frames;
    if n > 0 {
      BytesOfSum(c.frames - n, n, channels, bits);
    }
  }

  lemma {:induction false} RunsInStep(c: Counts, ops: seq<Operation>, channels: nat, bits: nat, bufsize: nat)
    requires channels * bits % 8 == 0 && InStep(c, channels, bits)
    ensures InStep(RunCounts(c, ops, channels, bits, bufsize), channels, bits)
    decreases |ops|
  {
    if ops != [] {
      match ops[0]
      case Fill(frames) =>
        FillInStep(c, frames, channels, bits, bufsize);
        RunsInStep(FillCounts(c, frames, channels, bits, bufsize), ops[1..], channels, bits, bufsize);
      case Read(frames) =>
        ReadInStep(c, frames, channels, bits);
        RunsInStep(ReadCounts(c, frames, channels, bits), ops[1..], channels, bits, bufsize);
    }
  }

  const EMPTY := Counts(0, 0, 0)

  lemma DivByEight(x: nat, q: nat, r: nat)
    requires x == 8 * q + r && r < 8
    ensures x / 8 == q
  {
  }

  lemma RoundingAt(w: nat, k: nat)
    requires w % 8 != 0 && k == if w % 8 >= 4 then 1 else if w % 8 >= 2 then 2 else 4
    ensures 2 * (k * w / 8) < 2 * k * w / 8 <= w
  {
    var q, r := w / 8, w % 8;
    if k == 1 {
      DivByEight(w, q, r);
      DivByEight(2 * w, 2 * q + 1, 2 * r - 8);
      assert k * w == w && 2 * k * w == 2 * w;
    } else if k == 2 {
      DivByEight(2 * w, 2 * q, 2 * r);
      DivByEight(4 * w, 4 * q + 1, 4 * r - 8);
      assert k * w == 2 * w && 2 * k * w == 4 * w;
    } else {
      DivByEight(4 * w, 4 * q, 4);
      DivByEight(8 * w, 8 * q + 1, 0);
      assert k * w == 4 * w && 2 * k * w == 8 * w;
    }
  }

  lemma Rounding(channels: nat, bits: nat) returns (k: nat)
    requires channels * bits % 8 != 0
    ensures k > 0 && 2 * ByteSize(k, channels, bits) < ByteSize(2 * k, channels, bits) <= channels * bits
  {
    var w := channels * bits;
    k := if w % 8 >= 4 then 1 else if w % 8 >= 2 then 2 else 4;
    Associate(k, channels, bits);
    Associate(2 * k, channels, bits);
    RoundingAt(w, k);
  }

  lemma FillFits(tail: nat, frames: nat, k: nat, channels: nat, bits: nat, bufsize: nat)
    requires k > 0 && tail + ByteSize(k, channels, bits) <= bufsize
    ensures FillCounts(Counts(0, tail, frames), k, channels, bits, bufsize)
      == Counts(0, tail + ByteSize(k, channels, bits), frames + k)
  {
  }

  lemma RunTwo(c: Counts, m: int, n: int, channels: nat, bits: nat, bufsize: nat)
    ensures RunCounts(c, [Fill(m), Fill(n)], channels, bits, bufsize)
      == FillCounts(FillCounts(c, m, channels, bits, bufsize), n, channels, bits, bufsize)
  {
    var next, ops := FillCounts(c, m, channels, bits, bufsize), [Fill(m), Fill(n)];
    assert ops[1..] == [Fill(n)] && [Fill(n)][1..] == [];
    assert RunCounts(c, ops, channels, bits, bufsize) == RunCounts(next, [Fill(n)], channels, bits, bufsize);
  }

  lemma TwoFills(k: nat, channels: nat, bits: nat, bufsize: nat)
    requires k > 0 && 2 * ByteSize(k, channels, bits) <= bufsize
    ensures RunCounts(EMPTY, [Fill(k), Fill(k)], channels, bits, bufsize)
      == Counts(0, 2 * ByteSize(k, channels, bits), 2 * k)
  {
    RunTwo(EMPTY, k, k, channels, bits, bufsize);
    FillFits(0, 0, k, channels, bits, bufsize);
    FillFits(ByteSize(k, channels, bits), k, k, channels, bits, bufsize);
  }

  lemma EightFramesFit(chunksize: nat, w: nat)
    requires chunksize >= 2
    ensures 4 * chunksize * w / 8 >= w
  {
    assert 4 * chunksize * w >= 8 * w;
  }

  /** Two equal fills whose rounding shows, in any buffer that has room for eight frames. */
  lemma TwoFillsBreak(channels: nat, bits: nat, chunksize: nat) returns (k: nat)
    requires channels * bits % 8 != 0 && chunksize >= 2
    ensures var bufsize := ByteSize(4 * chunksize, channels, bits);
      !InStep(RunCounts(EMPTY, [Fill(k), Fill(k)], channels, bits, bufsize), channels, bits)
  {
    k := Rounding(channels, bits);
    Associate(4 * chunksize, channels, bits);
    EightFramesFit(chunksize, channels * bits);
    TwoFills(k, channels, bits, ByteSize(4 * chunksize, channels, bits));
  }

  /**
   In every buffer, whatever is filled and read, the contents stay in step with the frames counted if and
   only if a frame is a whole number of bytes.
   */
  lemma InStepExactly(channels: nat, bits: nat)
    ensures channels * bits % 8 == 0 <==>
      forall chunksize: nat, ops ::
        InStep(RunCounts(EMPTY, ops, channels, bits, ByteSize(4 * chunksize, channels, bits)), channels, bits)
  {
    if channels * bits % 8 == 0 {
      BytesOfSum(0, 0, channels, bits);
      forall chunksize: nat, ops
        ensures InStep(RunCounts(EMPTY, ops, channels, bits, ByteSize(4 * chunksize, channels, bits)), channels, bits)
      {
        RunsInStep(EMPTY, ops, channels, bits, ByteSize(4 * chunksize, channels, bits));
      }
    } else {
      var k := TwoFillsBreak(channels, bits, 2);
    }
  }

  // ---------------------------------------------------------------- the buffer

  /** What a fill is given: samples, or a null pointer that stands for silence. */
  datatype Samples = Null | Data(bytes: seq<byte>)
  {
    function Bytes(size: nat): seq<byte>
    {
      if Null? then Zeros(size) else bytes
    }
  }

  /** Chunks a capture thread may bring: as many bytes as their frames take. */
  ghost predicate Sized(chunks: seq<(Samples, int)>, channels: nat, bits: nat)
  {
    forall i :: 0 <= i < |chunks| && chunks[i].0.Data? && chunks[i].1 > 0 ==>
      |chunks[i].0.bytes| == ByteSize(chunks[i].1, channels, bits)
  }

  /** What a buffer with these counts takes of a chunk: all of it, or nothing. */
  function Accepts(c: Counts, chunk: (Samples, int), channels: nat, bits: nat, bufsize: nat): seq<byte>
  {
    if chunk.1 <= 0 then []
    else
      var framesize := ByteSize(chunk.1, channels, bits);
      if framesize > bufsize - (c.tail - c.head) then [] else chunk.0.Bytes(framesize)
  }

  /** The counts after some chunks, filled in one after the other, and the bytes taken of them. */
  function Filled(c: Counts, chunks: seq<(Samples, int)>, channels: nat, bits: nat, bufsize: nat): (Counts, seq<byte>)
  {
    if chunks == [] then (c, [])
    else
      var (before, bytes) := Filled(c, chunks[..|chunks| - 1], channels, bits, bufsize);
      var chunk := chunks[|chunks| - 1];
      (FillCounts(before, chunk.1, channels, bits, bufsize), bytes + Accepts(before, chunk, channels, bits, bufsize))
  }

  /** The bytes of some chunks, and how many frames they are. */
  function Brought(chunks: seq<(Samples, int)>, channels: nat, bits: nat): (seq<byte>, nat)
  {
    if chunks == [] then ([], 0)
    else
      var (bytes, frames) := Brought(chunks[..|chunks| - 1], channels, bits);
      var chunk := chunks[|chunks| - 1];
      if chunk.1 <= 0 then (bytes, frames)
      else (bytes + chunk.0.Bytes(ByteSize(chunk.1, channels, bits)), frames + chunk.1)
  }

  lemma SizedButLast(chunks: seq<(Samples, int)>, channels: nat, bits: nat)
    requires Sized(chunks, channels, bits) && chunks != []
    ensures Sized(chunks[..|chunks| - 1], channels, bits)
    ensures var chunk := chunks[|chunks| - 1];
      chunk.1 > 0 ==> |chunk.0.Bytes(ByteSize(chunk.1, channels, bits))| == ByteSize(chunk.1, channels, bits)
  {
  }

  /** Chunks that fit the free space together are all taken, in order, and every frame is counted. */
  lemma {:induction false} FittingChunksStay(
    c: Counts, chunks: seq<(Samples, int)>, channels: nat, bits: nat, bufsize: nat)
    requires Sized(chunks, channels, bits)
    requires |Brought(chunks, channels, bits).0| <= bufsize - (c.tail - c.head)
    ensures var (c', bytes) := Filled(c, chunks, channels, bits, bufsize);
      && bytes == Brought(chunks, channels, bits).0
      && c'.frames == c.frames + Brought(chunks, channels, bits).1
      && c'.tail - c'.head == c.tail - c.head + |bytes|
  {
    if chunks != [] {
      SizedButLast(chunks, channels, bits);
      FittingChunksStay(c, chunks[..|chunks| - 1], channels, bits, bufsize);
    }
  }

  class Buffer {
    const channels: nat
    const bitspersample: nat
    const bufsize: nat
    const buffer: array<byte>
    var bufhead: nat
    var buftail: nat
    var bframes: nat
    var bufPts: nat

    /** All bytes ever let in, and all bytes ever read. */
    ghost var accepted: seq<byte>
    ghost var delivered: seq<byte>

    ghost predicate Valid()
      reads this, buffer
    {
      && bufsize == buffer.Length && bufhead <= buftail <= bufsize
      && accepted == delivered + buffer[bufhead..buftail]
    }

    function CountsNow(): Counts
      reads this
    {
      Counts(bufhead, buftail, bframes)
    }

    /** Frames are whole bytes, and every count of frames agrees with the bytes counted. */
    ghost predicate Counted()
      reads this
    {
      && channels * bitspersample % 8 == 0 && InStep(CountsNow(), channels, bitspersample)
      && |delivered| == ByteSize(bufPts, channels, bitspersample)
    }

    ghost function Unit(): nat
    {
      channels * bitspersample / 8
    }

    ghost function Contents(): seq<byte>
      requires Valid()
      reads this, buffer
    {
      buffer[bufhead..buftail]
    }

    constructor (chunksize: nat, ch: nat, bits: nat)
      ensures Valid() && accepted == [] && CountsNow() == EMPTY && bufPts == 0 && fresh(buffer)
      ensures channels == ch && bitspersample == bits && bufsize == ByteSize(chunksize * 4, ch, bits)
      ensures ch * bits % 8 == 0 ==> Counted()
    {
      channels, bitspersample := ch, bits;
      bufsize := ByteSize(chunksize * 4, ch, bits);
      buffer := new byte[ByteSize(chunksize * 4, ch, bits)];
      bufhead, buftail, bframes, bufPts := 0, 0, 0, 0;
      accepted, delivered := [], [];
      new;
      if ch * bits % 8 == 0 {
        BytesOfSum(0, 0, ch, bits);
      }
    }

    /** Moves the contents to the front of the buffer; the two places may overlap. */
    method Compact()
      requires Valid()
      modifies this`bufhead, this`buftail, buffer
      ensures Valid() && bufhead == 0 && Contents() == old(Contents())
    {
      forall i | 0 <= i < buftail - bufhead {
        buffer[i] := buffer[bufhead + i];
      }
      assert buffer[..buftail - bufhead] == old(buffer[bufhead..buftail]);
      bufhead, buftail := 0, buftail - bufhead;
    }

    /** Case 1 of a fill: there is room at the end. */
    method Append(samples: Samples, frames: nat, framesize: nat)
      requires Valid() && framesize <= bufsize - buftail
      requires samples.Data? ==> |samples.bytes| == framesize
      modifies this`buftail, this`bframes, this`accepted, buffer
      ensures Valid() && accepted == old(accepted) + samples.Bytes(framesize)
      ensures buftail == old(buftail) + framesize && bframes == old(bframes) + frames
    {
      var data := samples.Bytes(framesize);
      ghost var before := buffer[bufhead..buftail];
      forall i | 0 <= i < framesize {
        buffer[buftail + i] := data[i];
      }
      assert buffer[bufhead..buftail + framesize] == before + data;
      assert delivered + (before + data) == delivered + before + data;
      buftail := buftail + framesize;
      bframes := bframes + frames;
      accepted := accepted + data;
    }

    lemma StaysCounted(c: Counts, frames: int)
      ensures channels * bitspersample % 8 == 0 && InStep(c, channels, bitspersample) ==>
        InStep(FillCounts(c, frames, channels, bitspersample, bufsize), channels, bitspersample)
    {
      if channels * bitspersample % 8 == 0 && InStep(c, channels, bitspersample) {
        FillInStep(c, frames, channels, bitspersample, bufsize);
      }
    }

    /** Takes a chunk, or drops all of it when the free space at both ends together is too small. */
    method FillOne(samples: Samples, frames: int) returns (ghost tries: nat)
      requires Valid() && Sized([(samples, frames)], channels, bitspersample)
      modifies this`bufhead, this`buftail, this`bframes, this`accepted, buffer
      ensures Valid() && tries <= 2 && (old(Counted()) ==> Counted())
      ensures CountsNow() == FillCounts(old(CountsNow()), frames, channels, bitspersample, bufsize)
      ensures
        if frames <= 0 then accepted == old(accepted)
        else
          var framesize := ByteSize(frames, channels, bitspersample);
          if framesize > bufsize - |old(Contents())| then accepted == old(accepted) && bframes == old(bframes)
          else accepted == old(accepted) + samples.Bytes(framesize) && bframes == old(bframes) + frames
    {
      tries := 0;
      if frames <= 0 {
        return;
      }
      assert [(samples, frames)][0] == (samples, frames);
      var framesize := ByteSize(frames, channels, bitspersample);
      ghost var before := CountsNow();
      while true
        invariant Valid() && Contents() == old(Contents())
        invariant accepted == old(accepted) && bframes == old(bframes)
        invariant if tries == 0 then CountsNow() == before
          else tries == 1 && bufhead == 0 && buftail == before.tail - before.head
               && before.tail + framesize > bufsize && framesize <= bufsize - buftail
        decreases 1 - tries
      {
        tries := tries + 1;
        var headspace, tailspace := bufhead, bufsize - buftail;
        if framesize > headspace + tailspace {
          return;
        }
        if framesize <= tailspace {
          Append(samples, frames, framesize);
          StaysCounted(before, frames);
          return;
        }
        Compact();
      }
    }

    lemma ReadStaysCounted(n: nat)
      requires Counted() && 0 < n <= bframes
      ensures SoundRead(CountsNow(), n, channels, bitspersample)
      ensures InStep(ReadCounts(CountsNow(), n, channels, bitspersample), channels, bitspersample)
      ensures ByteSize(bufPts + n, channels, bitspersample) ==
        ByteSize(bufPts, channels, bitspersample) + ByteSize(n, channels, bitspersample)
    {
      BytesOfSum(n, bframes - n, channels, bitspersample);
      BytesOfSum(bufPts, n, channels, bitspersample);
      ReadInStep(CountsNow(), n, channels, bitspersample);
    }

    /** Takes frames from the front, if that is sound; otherwise nothing is done. */
    method CopyOut(copyframe: nat) returns (sound: bool, buf: seq<byte>)
      requires Valid() && 0 < copyframe <= bframes
      modifies this`bufhead, this`buftail, this`bframes, this`bufPts, this`delivered
      ensures Valid() && (old(Counted()) ==> sound && Counted())
      ensures sound == SoundRead(old(CountsNow()), copyframe, channels, bitspersample)
      ensures sound ==> delivered == old(delivered) + buf && |buf| == ByteSize(copyframe, channels, bitspersample)
      ensures sound ==> bframes == old(bframes) - copyframe && bufPts == old(bufPts) + copyframe
      ensures sound ==> CountsNow() == ReadCounts(old(CountsNow()), copyframe, channels, bitspersample)
      ensures sound && bframes == 0 ==> bufhead == buftail == 0
    {
      var copysize := ByteSize(copyframe, channels, bitspersample);
      if Counted() {
        ReadStaysCounted(copyframe);
      }
      sound, buf := SoundRead(CountsNow(), copyframe, channels, bitspersample), [];
      if !sound {
        return;
      }
      buf := buffer[bufhead..bufhead + copysize];
      ghost var rest := buffer[bufhead + copysize..buftail];
      assert buffer[bufhead..buftail] == buf + rest;
      assert delivered + (buf + rest) == delivered + buf + rest;
      delivered := delivered + buf;
      bufhead := bufhead + copysize;
      bframes := bframes - copyframe;
      bufPts := bufPts + copyframe;
      if bframes == 0 {
        bufhead, buftail := 0, 0;
      }
    }

    /** The counts a reader finds, having waited for chunks if there was nothing, and the bytes that came. */
    ghost function Awaited(arrivals: seq<(Samples, int)>): (Counts, seq<byte>)
      reads this
    {
      if bframes > 0 then (CountsNow(), []) else Filled(CountsNow(), arrivals, channels, bitspersample, bufsize)
    }

    /** Chunks the capture thread brings, one after the other. */
    method FillAll(chunks: seq<(Samples, int)>)
      requires Valid() && Sized(chunks, channels, bitspersample)
      modifies this`bufhead, this`buftail, this`bframes, this`accepted, buffer
      ensures Valid() && (old(Counted()) ==> Counted())
      ensures var (c, bytes) := Filled(old(CountsNow()), chunks, channels, bitspersample, bufsize);
        CountsNow() == c && accepted == old(accepted) + bytes
    {
      ghost var start, before := CountsNow(), accepted;
      for i := 0 to |chunks|
        invariant Valid() && (old(Counted()) ==> Counted())
        invariant var (c, bytes) := Filled(start, chunks[..i], channels, bitspersample, bufsize);
          CountsNow() == c && accepted == before + bytes
      {
        ghost var (c, bytes) := Filled(start, chunks[..i], channels, bitspersample, bufsize);
        Reassociate(before, bytes, Accepts(c, chunks[i], channels, bitspersample, bufsize));
        ghost var tries := FillOne(chunks[i].0, chunks[i].1);
        assert chunks[..i + 1][..i] == chunks[..i];
      }
      assert chunks[..|chunks|] == chunks;
    }

    /** A reader waits only if there is nothing. */
    method Await(arrivals: seq<(Samples, int)>)
      requires Valid() && Sized(arrivals, channels, bitspersample)
      modifies this`bufhead, this`buftail, this`bframes, this`accepted, buffer
      ensures Valid() && (old(Counted()) ==> Counted())
      ensures CountsNow() == old(Awaited(arrivals).0) && accepted == old(accepted + Awaited(arrivals).1)
    {
      if bframes == 0 {
        FillAll(arrivals);
      } else {
        assert accepted + [] == accepted;
      }
    }

    /**
     Reads up to `frames` frames. An empty buffer makes the reader wait once, for at most a second;
     `arrivals` is what comes meanwhile. `found` are the counts the reader then finds.
     */
    method Read(frames: int, arrivals: seq<(Samples, int)>)
      returns (n: nat, buf: seq<byte>, sound: bool, ghost found: Counts)
      requires Valid() && Sized(arrivals, channels, bitspersample)
      modifies this, buffer
      ensures Valid() && (old(Counted()) ==> sound && Counted())
      ensures if frames <= 0 then found == old(CountsNow()) && accepted == old(accepted)
        else found == old(Awaited(arrivals).0) && accepted == old(accepted + Awaited(arrivals).1)
      ensures n == if frames <= 0 then 0 else if found.frames >= frames then frames else found.frames
      ensures sound <==> n == 0 || SoundRead(found, n, channels, bitspersample)
      ensures sound ==> delivered == old(delivered) + buf && bufPts == old(bufPts) + n
      ensures sound && n > 0 ==> |buf| == ByteSize(n, channels, bitspersample)
      ensures sound && n > 0 ==> CountsNow() == ReadCounts(found, n, channels, bitspersample)
      ensures n == 0 ==> buf == [] && CountsNow() == found
    {
      n, buf, sound, found := 0, [], true, CountsNow();
      if frames <= 0 {
        return;
      }
      Await(arrivals);
      found := CountsNow();
      n := if bframes >= frames then frames else bframes;
      if n > 0 {
        sound, buf := CopyOut(n);
      }
    }
  }

  /** `audio_source_buffer_init`: no buffer for a format or chunk size of zero. */
  method BufferInit(chunksize: nat, channels: nat, bits: nat) returns (ab: Buffer?)
    ensures ab == null <==> chunksize == 0 || channels == 0 || bits == 0
    ensures ab != null ==> fresh(ab) && fresh(ab.buffer) && ab.Valid() && ab.accepted == [] && ab.CountsNow() == EMPTY
    ensures ab != null ==> ab.channels == channels && ab.bitspersample == bits
    ensures ab != null ==> ab.bufsize == ByteSize(4 * chunksize, channels, bits)
    ensures ab != null && channels * bits % 8 == 0 ==> ab.Counted() && ab.bufPts == 0
  {
    if chunksize * 4 == 0 || channels == 0 || bits == 0 {
      return null;
    }
    ab := new Buffer(chunksize, channels, bits);
  }
}
