/**
 The audio encoder's loop: read what there is, and submit the samples in pieces of exactly one codec
 frame, whatever sizes the reads come in.
 */
module AudioEncoder {
  import opened Bytes
  import opened AudioBuffer

  /** One codec frame as submitted. */
  datatype Piece = Piece(pts: int, samples: seq<byte>)

  /** The samples of some pieces, piece by piece. */
  function Cut(pieces: seq<Piece>): seq<seq<byte>>
  {
    seq(|pieces|, i requires 0 <= i < |pieces| => pieces[i].samples)
  }

  lemma SamplesSnoc(pieces: seq<Piece>, p: Piece)
    ensures Flatten(Cut(pieces + [p])) == Flatten(Cut(pieces)) + p.samples
  {
    assert Cut(pieces + [p]) == Cut(pieces) + [p.samples];
    FlattenOne(Cut(pieces), p.samples);
  }

  /** Successive time stamps leave room for the samples between them. */
  ghost predicate Spaced(pieces: seq<Piece>, frameSize: nat)
  {
    forall i :: 0 < i < |pieces| ==> pieces[i].pts >= pieces[i - 1].pts + frameSize
  }

  lemma SplitSlice<T>(s: seq<T>, i: nat, j: nat, k: nat)
    requires i <= j <= k <= |s|
    ensures s[i..k] == s[i..j] + s[j..k]
  {
  }

  lemma SpacedSnoc(pieces: seq<Piece>, p: Piece, frameSize: nat)
    requires Spaced(pieces, frameSize)
    requires pieces != [] ==> p.pts >= pieces[|pieces| - 1].pts + frameSize
    ensures Spaced(pieces + [p], frameSize)
  {
  }

  lemma {:induction false} SpacedApart(pieces: seq<Piece>, frameSize: nat, i: nat, j: nat)
    requires Spaced(pieces, frameSize) && i <= j < |pieces|
    ensures pieces[j].pts >= pieces[i].pts + Extent(j - i, frameSize)
  {
    if i < j {
      SpacedApart(pieces, frameSize, i, j - 1);
      assert Extent(j - i, frameSize) == Extent(j - i - 1, frameSize) + frameSize;
    }
  }

  /**
   What happens around one turn of the encoder: chunks that come before it, while the encoder was busy;
   chunks that come while it waits on an empty buffer; and what its clock says.
   */
  datatype Round = Round(between: seq<(Samples, int)>, waiting: seq<(Samples, int)>, elapsed: int, sync: nat)

  /** Where the two ends stand: the buffer's counts, frames pending, frames submitted, bytes let in. */
  datatype Feed = Feed(counts: Counts, pending: int, submitted: nat, bytes: seq<byte>)

  /** Chunks come while nobody reads. */
  function Fills(f: Feed, chunks: seq<(Samples, int)>, channels: nat, bits: nat, bufsize: nat): Feed
  {
    var (c, bytes) := Filled(f.counts, chunks, channels, bits, bufsize);
    f.(counts := c, bytes := f.bytes + bytes)
  }

  /** A read takes what a codec frame lacks, or all there is, and a complete frame is submitted. */
  function Reads(f: Feed, frameSize: nat, channels: nat, bits: nat): Feed
  {
    var missing := frameSize - f.pending;
    var r := if f.counts.frames >= missing then missing else f.counts.frames;
    var whole := r == missing;
    f.(counts := ReadCounts(f.counts, r, channels, bits), pending := if whole then 0 else f.pending + r,
       submitted := f.submitted + if whole then 1 else 0)
  }

  function Turns(
    f: Feed, waiting: seq<(Samples, int)>, frameSize: nat, channels: nat, bits: nat, bufsize: nat): Feed
  {
    Reads(if f.counts.frames > 0 then f else Fills(f, waiting, channels, bits, bufsize), frameSize, channels, bits)
  }

  lemma TurnsTo(f: Feed, waiting: seq<(Samples, int)>, frameSize: nat, channels: nat, bits: nat, bufsize: nat,
                found: Counts, bytes: seq<byte>, r: int)
    requires (found, bytes) ==
      if f.counts.frames > 0 then (f.counts, []) else Filled(f.counts, waiting, channels, bits, bufsize)
    requires var missing := frameSize - f.pending; r == if found.frames >= missing then missing else found.frames
    ensures var whole := r == frameSize - f.pending;
      Turns(f, waiting, frameSize, channels, bits, bufsize) ==
        Feed(ReadCounts(found, r, channels, bits), if whole then 0 else f.pending + r,
             f.submitted + (if whole then 1 else 0), f.bytes + bytes)
  {
    assert f.bytes + [] == f.bytes;
  }

  function Feeds(f: Feed, round: Round, frameSize: nat, channels: nat, bits: nat, bufsize: nat): Feed
  {
    Turns(Fills(f, round.between, channels, bits, bufsize), round.waiting, frameSize, channels, bits, bufsize)
  }

  function FeedsAll(f: Feed, rounds: seq<Round>, frameSize: nat, channels: nat, bits: nat, bufsize: nat): Feed
  {
    if rounds == [] then f
    else
      Feeds(FeedsAll(f, rounds[..|rounds| - 1], frameSize, channels, bits, bufsize), rounds[|rounds| - 1],
            frameSize, channels, bits, bufsize)
  }

  class Encoder {
    const frameSize: nat
    const frameunit: nat
    const samples: array<byte>
    var nsamples: nat
    var samplebytes: nat
    var pts: int
    var ptsSync: nat
    var ptsOffset: nat
    /** The pieces handed to the codec. */
    ghost var submitted: seq<Piece>

    ghost predicate Shape()
      reads this
    {
      && frameSize > 0 && frameunit > 0 && samples.Length == Extent(frameSize, frameunit)
      && nsamples <= frameSize && samplebytes == Extent(nsamples, frameunit) <= samples.Length
    }

    /** Time stamps: none before the first read, then never negative and always a frame apart. */
    ghost predicate Stamped()
      reads this
    {
      && (pts == -1 ==> submitted == []) && pts >= -1
      && Spaced(submitted, frameSize)
      && (submitted != [] ==> pts >= submitted[|submitted| - 1].pts + frameSize)
      && (forall i :: 0 <= i < |submitted| ==> |submitted[i].samples| == Extent(frameSize, frameunit))
    }

    ghost predicate Valid()
      reads this
    {
      Shape() && Stamped() && nsamples < frameSize
    }

    /** Everything read so far, as pieces and what is still to be cut. */
    ghost function Received(): seq<byte>
      requires samplebytes <= samples.Length
      reads this, samples
    {
      Flatten(Cut(submitted)) + samples[..samplebytes]
    }

    constructor (size: nat, ab: Buffer)
      requires size > 0 && ab.Valid() && ab.Counted() && ab.channels * ab.bitspersample > 0
      ensures Valid() && Received() == [] && pts == -1 && frameSize == size && frameunit == ab.Unit() && fresh(samples)
    {
      var unit := ab.channels * ab.bitspersample / 8;
      frameSize, frameunit := size, unit;
      samples := new byte[ByteSize(size, ab.channels, ab.bitspersample)];
      nsamples, samplebytes, pts, ptsSync, ptsOffset := 0, 0, -1, 0, 0;
      submitted := [];
      new;
      ByteSizeIsExtent(size, ab.channels, ab.bitspersample);
    }

    /** The time stamp for a read of `r` frames: pushed forward by the clock, never back. */
    method Stamp(r: nat, elapsed: int, sync: nat)
      requires Stamped()
      modifies this`pts, this`ptsSync, this`ptsOffset
      ensures Stamped() && pts >= 0
      ensures old(pts) == -1 ==> pts == ptsSync == sync && ptsOffset == r
      ensures old(pts) != -1 ==> ptsSync == old(ptsSync) && ptsOffset == old(ptsOffset)
      ensures old(pts) != -1 ==> var clock := ptsSync + elapsed - r - ptsOffset;
        pts == if clock > old(pts) then clock else old(pts)
    {
      var newpts: int;
      if pts == -1 {
        ptsSync := sync;
        newpts := sync;
        pts := sync;
        ptsOffset := r;
      } else {
        newpts := ptsSync + elapsed;
        newpts := newpts - r;
        newpts := newpts - ptsOffset;
      }
      if newpts > pts {
        pts := newpts;
      }
    }

    /** Hands one frame to the codec. */
    method Submit(offset: nat) returns (next: nat)
      requires Stamped() && pts >= 0 && nsamples >= frameSize
      requires offset + Extent(nsamples, frameunit) == samplebytes <= samples.Length
      modifies this`nsamples, this`pts, this`submitted
      ensures Stamped() && pts == old(pts) + frameSize && nsamples == old(nsamples) - frameSize
      ensures next + Extent(nsamples, frameunit) == samplebytes && next >= offset
      ensures |submitted| == |old(submitted)| + 1 && old(submitted) <= submitted
      ensures submitted[|submitted| - 1].pts == old(pts)
      ensures Flatten(Cut(submitted)) + samples[next..samplebytes]
        == old(Flatten(Cut(submitted)) + samples[offset..samplebytes])
    {
      ExtentAdd(frameSize, nsamples - frameSize, frameunit);
      next := offset + Extent(frameSize, frameunit);
      ghost var p := Piece(pts, samples[offset..next]);
      SpacedSnoc(submitted, p, frameSize);
      SamplesSnoc(submitted, p);
      SplitSlice(samples[..], offset, next, samplebytes);
      Reassociate(Flatten(Cut(submitted)), samples[offset..next], samples[next..samplebytes]);
      submitted := submitted + [p];
      nsamples := nsamples - frameSize;
      pts := pts + frameSize;
    }

    /** Moves what is not yet submitted to the front. */
    method Shift(offset: nat)
      requires offset <= samplebytes <= samples.Length
      modifies this`samplebytes, samples
      ensures samplebytes == old(samplebytes) - offset && samples[..samplebytes] == old(samples[offset..samplebytes])
    {
      if samplebytes - offset > 0 {
        forall i | 0 <= i < samplebytes - offset {
          samples[i] := samples[offset + i];
        }
      }
      samplebytes := samplebytes - offset;
    }

    /** Submits every whole frame, then moves the rest to the front. */
    method Chop()
      requires Shape() && Stamped() && pts >= 0
      modifies this`nsamples, this`samplebytes, this`pts, this`submitted, samples
      ensures Valid() && pts >= 0 && Received() == old(Received())
      ensures old(submitted) <= submitted
      ensures if old(nsamples) < frameSize then (submitted, pts, nsamples) == old((submitted, pts, nsamples))
        else
          && |submitted| == |old(submitted)| + 1 && submitted[|old(submitted)|].pts == old(pts)
          && pts == old(pts) + frameSize && nsamples == 0
    {
      var offset := 0;
      while nsamples >= frameSize
        invariant offset + Extent(nsamples, frameunit) == samplebytes <= samples.Length
        invariant Stamped() && pts >= 0 && old(submitted) <= submitted
        invariant if offset == 0 then (submitted, pts, nsamples) == old((submitted, pts, nsamples))
          else
            && old(nsamples) == frameSize && nsamples == 0
            && |submitted| == |old(submitted)| + 1 && submitted[|old(submitted)|].pts == old(pts)
            && pts == old(pts) + frameSize
        invariant Flatten(Cut(submitted)) + samples[offset..samplebytes] == old(Received())
      {
        offset := Submit(offset);
      }
      if offset > 0 {
        Shift(offset);
      }
    }

    /** Copies what was read behind what is pending. */
    method Take(r: nat, data: seq<byte>)
      requires Valid() && |data| == Extent(r, frameunit) && nsamples + r <= frameSize
      modifies this`nsamples, this`samplebytes, samples
      ensures Shape() && nsamples == old(nsamples) + r && Received() == old(Received()) + data
    {
      ExtentAdd(nsamples, r, frameunit);
      ExtentAdd(nsamples + r, frameSize - nsamples - r, frameunit);
      ghost var before := samples[..samplebytes];
      forall i | 0 <= i < |data| {
        samples[samplebytes + i] := data[i];
      }
      assert samples[..samplebytes + |data|] == before + data;
      assert Flatten(Cut(submitted)) + (before + data) == Flatten(Cut(submitted)) + before + data;
      nsamples := nsamples + r;
      samplebytes := samplebytes + |data|;
    }

    /** Asks for what is missing from a codec frame, and gets it or all there is. */
    method ReadFrames(ab: Buffer, frames: nat, arrivals: seq<(Samples, int)>) returns (r: nat, data: seq<byte>)
      requires ab.Valid() && ab.Counted() && frames > 0 && Sized(arrivals, ab.channels, ab.bitspersample)
      modifies ab, ab.buffer
      ensures ab.Valid() && ab.Counted() && ab.delivered == old(ab.delivered) + data && |data| == Extent(r, ab.Unit())
      ensures var (found, bytes) := old(ab.Awaited(arrivals));
        && ab.accepted == old(ab.accepted) + bytes
        && r == (if found.frames >= frames then frames else found.frames)
        && ab.CountsNow() == ReadCounts(found, r, ab.channels, ab.bitspersample)
    {
      var sound;
      ghost var found;
      r, data, sound, found := ab.Read(frames, arrivals);
      ByteSizeIsExtent(r, ab.channels, ab.bitspersample);
    }

    /** Stamps what was read, and submits a frame exactly when it completes one. */
    method Encode(r: nat, data: seq<byte>, elapsed: int, sync: nat)
      requires Valid() && |data| == Extent(r, frameunit) && nsamples + r <= frameSize
      modifies this, samples
      ensures Valid() && Received() == old(Received()) + data && old(submitted) <= submitted
      ensures nsamples == if old(nsamples) + r == frameSize then 0 else old(nsamples) + r
      ensures (ptsSync, ptsOffset) == if old(pts) == -1 then (sync, r) else old((ptsSync, ptsOffset))
      ensures var clock := ptsSync + elapsed - r - ptsOffset;
        var stamp := if old(pts) == -1 then sync else if clock > old(pts) then clock else old(pts);
        if old(nsamples) + r < frameSize then submitted == old(submitted) && pts == stamp
        else
          && |submitted| == |old(submitted)| + 1 && submitted[|old(submitted)|].pts == stamp
          && pts == stamp + frameSize
    {
      Stamp(r, elapsed, sync);
      assert Received() == old(Received());
      Take(r, data);
      Chop();
    }

    ghost function FeedNow(ab: Buffer): Feed
      reads this, ab
    {
      Feed(ab.CountsNow(), nsamples, |submitted|, ab.accepted)
    }

    /**
     One turn of the loop: it reads what is missing from a codec frame, or all there is, and submits a frame
     exactly when that completes one. `arrivals` is what the capture thread brings while this one waits,
     `elapsed` the sample count the clock suggests, `sync` the starting time stamp if this is the first read.
     */
    method Turn(ab: Buffer, arrivals: seq<(Samples, int)>, elapsed: int, sync: nat) returns (r: nat)
      requires Valid() && ab.Valid() && ab.Counted() && frameunit == ab.Unit() && Received() == ab.delivered
      requires ab.buffer != samples && Sized(arrivals, ab.channels, ab.bitspersample)
      modifies this, samples, ab, ab.buffer
      ensures Valid() && ab.Valid() && ab.Counted() && Received() == ab.delivered && old(submitted) <= submitted
      ensures var (found, bytes) := old(ab.Awaited(arrivals)); var missing := frameSize - old(nsamples);
        && ab.accepted == old(ab.accepted) + bytes
        && r == (if found.frames >= missing then missing else found.frames)
        && ab.CountsNow() == ReadCounts(found, r, ab.channels, ab.bitspersample)
        && nsamples == if r == missing then 0 else old(nsamples) + r
      ensures FeedNow(ab) == Turns(old(FeedNow(ab)), arrivals, frameSize, ab.channels, ab.bitspersample, ab.bufsize)
      ensures r == 0 ==> submitted == old(submitted) && (pts, ptsSync, ptsOffset) == old((pts, ptsSync, ptsOffset))
      ensures r > 0 ==>
        && (ptsSync, ptsOffset) == (if old(pts) == -1 then (sync, r) else old((ptsSync, ptsOffset)))
        && var clock := ptsSync + elapsed - r - ptsOffset;
           var stamp := if old(pts) == -1 then sync else if clock > old(pts) then clock else old(pts);
           if old(nsamples) + r < frameSize then submitted == old(submitted) && pts == stamp
           else
             && |submitted| == |old(submitted)| + 1 && submitted[|old(submitted)|].pts == stamp
             && pts == stamp + frameSize
    {
      ghost var before, found := FeedNow(ab), ab.Awaited(arrivals);
      var data;
      r, data := ReadFrames(ab, frameSize - nsamples, arrivals);
      TurnsTo(before, arrivals, frameSize, ab.channels, ab.bitspersample, ab.bufsize, found.0, found.1, r);
      if r <= 0 {
        return;
      }
      Encode(r, data, elapsed, sync);
    }

    /** What comes while the encoder is busy, and a turn. */
    method OneRound(ab: Buffer, round: Round)
      requires Valid() && ab.Valid() && ab.Counted() && frameunit == ab.Unit() && Received() == ab.delivered
      requires ab.buffer != samples
      requires Sized(round.between, ab.channels, ab.bitspersample)
      requires Sized(round.waiting, ab.channels, ab.bitspersample)
      modifies this, samples, ab, ab.buffer
      ensures Valid() && ab.Valid() && ab.Counted() && Received() == ab.delivered && old(submitted) <= submitted
      ensures FeedNow(ab) == Feeds(old(FeedNow(ab)), round, frameSize, ab.channels, ab.bitspersample, ab.bufsize)
    {
      ab.FillAll(round.between);
      var r := Turn(ab, round.waiting, round.elapsed, round.sync);
    }

    /** Any number of rounds, whatever arrives in each, and whatever the clock does. */
    method Run(ab: Buffer, rounds: seq<Round>)
      requires Valid() && ab.Valid() && ab.Counted() && frameunit == ab.Unit() && Received() == ab.delivered
      requires ab.buffer != samples
      requires forall t :: 0 <= t < |rounds| ==>
        && Sized(rounds[t].between, ab.channels, ab.bitspersample)
        && Sized(rounds[t].waiting, ab.channels, ab.bitspersample)
      modifies this, samples, ab, ab.buffer
      ensures Valid() && ab.Valid() && ab.Counted() && Received() == ab.delivered && old(submitted) <= submitted
      ensures Flatten(Cut(submitted)) + samples[..samplebytes] + ab.Contents() == ab.accepted
      ensures FeedNow(ab) == FeedsAll(old(FeedNow(ab)), rounds, frameSize, ab.channels, ab.bitspersample, ab.bufsize)
    {
      ghost var start := FeedNow(ab);
      for t := 0 to |rounds|
        invariant Valid() && ab.Valid() && ab.Counted() && Received() == ab.delivered && old(submitted) <= submitted
        invariant FeedNow(ab) == FeedsAll(start, rounds[..t], frameSize, ab.channels, ab.bitspersample, ab.bufsize)
      {
        OneRound(ab, rounds[t]);
        assert rounds[..t + 1][..t] == rounds[..t];
      }
      assert rounds[..|rounds|] == rounds;
    }
  }
}
