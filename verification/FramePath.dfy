/**
 Frames on their way from the capture thread through the colour filter to a video encoder: two pools
 and three threads, each pool operation one atomic step, in any interleaving. A slow thread loses
 frames, because a full pool steals its eldest; nothing is ever reordered, duplicated or overwritten.
 */
module FramePath {
  import opened Bytes
  import opened FramePool

  type Node = nat

  /** A picture as grabbed, or what the colour conversion makes of one. */
  datatype Picture = Rgba(id: nat) | Yuv420p(id: nat)

  datatype Frame = Frame(pts: int, picture: Picture)

  /** The filter keeps the time stamp, converts RGBA pictures and copies others. */
  function Convert(f: Frame): Frame
  {
    Frame(f.pts, Yuv420p(f.picture.id))
  }

  /** A pool with the frame stored in each of its nodes. */
  datatype Pipe = Pipe(pool: Pool<Node>, frames: map<Node, Frame>)

  datatype CapturePc = CaptureIdle | Grabbed(n: Node)
  datatype FilterPc =
    | FilterIdle
    | HasSource(src: Node)
    | HasBoth(src: Node, dst: Node)
    | Converted(src: Node, dst: Node)
    | HasResult(dst: Node)
  datatype EncoderPc = EncoderIdle | Loaded(n: Node)

  /** `captured` and `delivered` record the frames stored by the capture thread and read by the encoder. */
  datatype State = State(
    src: Pipe, dst: Pipe,
    capture: CapturePc, filter: FilterPc, encoder: EncoderPc,
    captured: seq<Frame>, delivered: seq<Frame>,
    fatal: bool)

  datatype Action = Capture(frame: Frame) | Filter | Encode

  // ---------------------------------------------------------------- steps

  function Nodes(n: nat): seq<Node>
  {
    seq(n, i => i)
  }

  function Initial(n: nat, blank: Frame): State
  {
    var pipe := Pipe(Pool(Nodes(n), []), map x | x in Nodes(n) :: blank);
    State(pipe, pipe, CaptureIdle, FilterIdle, EncoderIdle, [], [], false)
  }

  /** Take a node, fill it with the grabbed picture, then queue it. */
  function CaptureStep(s: State, frame: Frame): State
  {
    match s.capture
    case CaptureIdle =>
      if !s.src.pool.CanAllocate() then s.(fatal := true)
      else
        var (n, pool) := s.src.pool.Allocate();
        s.(src := Pipe(pool, s.src.frames[n := frame]), capture := Grabbed(n))
    case Grabbed(n) =>
      if n !in s.src.frames then s
      else
        s.(src := s.src.(pool := s.src.pool.Store(n)), capture := CaptureIdle,
           captured := s.captured + [s.src.frames[n]])
  }

  /** Load, allocate, release, store: one turn of the filter's loop. */
  function FilterStep(s: State): State
  {
    match s.filter
    case FilterIdle =>
      if s.src.pool.work == [] then s
      else
        var (n, pool) := s.src.pool.Load();
        s.(src := s.src.(pool := pool), filter := HasSource(n))
    case HasSource(src) =>
      if !s.dst.pool.CanAllocate() then s.(fatal := true)
      else
        var (n, pool) := s.dst.pool.Allocate();
        s.(dst := s.dst.(pool := pool), filter := HasBoth(src, n))
    case HasBoth(src, dst) =>
      if src !in s.src.frames then s
      else s.(dst := s.dst.(frames := s.dst.frames[dst := Convert(s.src.frames[src])]), filter := Converted(src, dst))
    case Converted(src, dst) => s.(src := s.src.(pool := s.src.pool.Release(src)), filter := HasResult(dst))
    case HasResult(dst) => s.(dst := s.dst.(pool := s.dst.pool.Store(dst)), filter := FilterIdle)
  }

  /** Load a frame; read it and give its node back. */
  function EncodeStep(s: State): State
  {
    match s.encoder
    case EncoderIdle =>
      if s.dst.pool.work == [] then s
      else
        var (n, pool) := s.dst.pool.Load();
        s.(dst := s.dst.(pool := pool), encoder := Loaded(n))
    case Loaded(n) =>
      if n !in s.dst.frames then s
      else
        s.(dst := s.dst.(pool := s.dst.pool.Release(n)), encoder := EncoderIdle,
           delivered := s.delivered + [s.dst.frames[n]])
  }

  function Step(s: State, a: Action): State
  {
    match a
    case Capture(frame) => CaptureStep(s, frame)
    case Filter => FilterStep(s)
    case Encode => EncodeStep(s)
  }

  function Run(n: nat, blank: Frame, actions: seq<Action>): State
  {
    if actions == [] then Initial(n, blank)
    else Step(Run(n, blank, actions[..|actions| - 1]), actions[|actions| - 1])
  }

  // ---------------------------------------------------------------- subsequences

  /** `a` is `b` with some members left out. */
  ghost predicate Subsequence<F>(a: seq<F>, b: seq<F>)
    decreases |b|
  {
    a == [] ||
    (b != [] &&
      (|| Subsequence(a, b[..|b| - 1])
       || (a[|a| - 1] == b[|b| - 1] && Subsequence(a[..|a| - 1], b[..|b| - 1]))))
  }

  lemma SubsequenceBoth<F>(a: seq<F>, b: seq<F>, x: F)
    requires Subsequence(a, b)
    ensures Subsequence(a + [x], b + [x])
  {
    assert (a + [x])[..|a|] == a && (b + [x])[..|b|] == b;
  }

  lemma {:induction false} SubsequenceWithout<F>(a: seq<F>, x: F, b: seq<F>, c: seq<F>)
    requires Subsequence(a + [x] + b, c)
    ensures Subsequence(a + b, c)
    decreases |c|
  {
    var longer, c' := a + [x] + b, c[..|c| - 1];
    if Subsequence(longer, c') {
      SubsequenceWithout(a, x, b, c');
    } else if b == [] {
      assert longer[..|longer| - 1] == a == a + b;
    } else {
      var b' := b[..|b| - 1];
      assert longer[..|longer| - 1] == a + [x] + b';
      SubsequenceWithout(a, x, b', c');
      assert (a + b)[..|a + b| - 1] == a + b';
    }
  }

  lemma {:induction false} SubsequencePrefix<F>(a: seq<F>, b: seq<F>, c: seq<F>)
    requires Subsequence(a + b, c)
    ensures Subsequence(a, c)
    decreases |b|
  {
    if b == [] {
      assert a + b == a;
    } else {
      var b' := b[..|b| - 1];
      assert a + b == (a + b') + [b[|b| - 1]] + [];
      SubsequenceWithout(a + b', b[|b| - 1], [], c);
      assert (a + b') + [] == a + b';
      SubsequencePrefix(a, b', c);
    }
  }

  // ---------------------------------------------------------------- one place for each node

  function CaptureHeld(c: CapturePc): multiset<Node>
  {
    if c.Grabbed? then multiset{c.n} else multiset{}
  }

  function SourceHeld(f: FilterPc): multiset<Node>
  {
    if f.HasSource? || f.HasBoth? || f.Converted? then multiset{f.src} else multiset{}
  }

  function ResultHeld(f: FilterPc): multiset<Node>
  {
    if f.HasBoth? || f.Converted? || f.HasResult? then multiset{f.dst} else multiset{}
  }

  function EncoderHeld(e: EncoderPc): multiset<Node>
  {
    if e.Loaded? then multiset{e.n} else multiset{}
  }

  /** Free, queued and held nodes together are all the nodes, each once. */
  ghost predicate Placed(p: Pipe, held: multiset<Node>)
  {
    multiset(p.pool.free) + multiset(p.pool.work) + held == multiset(p.frames.Keys)
  }

  ghost predicate PoolsInv(s: State, n: nat)
  {
    && Placed(s.src, CaptureHeld(s.capture) + SourceHeld(s.filter))
    && Placed(s.dst, ResultHeld(s.filter) + EncoderHeld(s.encoder))
    && |s.src.frames.Keys| == n && |s.dst.frames.Keys| == n
  }

  lemma HeldOnce(p: Pipe, held: multiset<Node>, x: Node)
    requires Placed(p, held) && x in held
    ensures x in p.frames && x !in p.pool.work && held[x] == 1
  {
    assert (multiset(p.pool.free) + multiset(p.pool.work) + held)[x] == multiset(p.frames.Keys)[x] <= 1;
    assert x !in multiset(p.pool.work);
  }

  lemma QueuedOnce(p: Pipe, held: multiset<Node>, x: Node)
    requires Placed(p, held) && x in p.pool.work
    ensures x in p.frames && x !in held
  {
    assert x in multiset(p.pool.work);
    assert (multiset(p.pool.free) + multiset(p.pool.work) + held)[x] == multiset(p.frames.Keys)[x] <= 1;
  }

  lemma Allocates(p: Pipe, held: multiset<Node>)
    requires Placed(p, held) && p.pool.CanAllocate()
    ensures var (x, pool) := p.pool.Allocate(); Placed(p.(pool := pool), held + multiset{x})
  {
    var s := if p.pool.free != [] then p.pool.free else p.pool.work;
    assert s == [s[0]] + s[1..];
  }

  lemma Loads(p: Pipe, held: multiset<Node>)
    requires Placed(p, held) && p.pool.work != []
    ensures var (x, pool) := p.pool.Load(); Placed(p.(pool := pool), held + multiset{x})
  {
    assert p.pool.work == [p.pool.work[0]] + p.pool.work[1..];
  }

  lemma GivesBack(p: Pipe, held: multiset<Node>, x: Node)
    requires Placed(p, held + multiset{x})
    ensures Placed(p.(pool := p.pool.Store(x)), held) && Placed(p.(pool := p.pool.Release(x)), held)
  {
  }

  lemma Writes(p: Pipe, held: multiset<Node>, x: Node, f: Frame)
    requires Placed(p, held) && x in p.frames
    ensures p.frames[x := f].Keys == p.frames.Keys && Placed(p.(frames := p.frames[x := f]), held)
  {
    assert p.frames[x := f].Keys == p.frames.Keys;
  }

  lemma CapturePools(s: State, n: nat, frame: Frame)
    requires PoolsInv(s, n)
    ensures PoolsInv(CaptureStep(s, frame), n)
  {
    var h := SourceHeld(s.filter);
    if s.capture.Grabbed? {
      assert multiset{s.capture.n} + h == h + multiset{s.capture.n};
      GivesBack(s.src, h, s.capture.n);
    } else if s.src.pool.CanAllocate() {
      var (x, pool) := s.src.pool.Allocate();
      assert multiset{} + h == h;
      Allocates(s.src, h);
      HeldOnce(s.src.(pool := pool), h + multiset{x}, x);
      Writes(s.src.(pool := pool), h + multiset{x}, x, frame);
      assert multiset{x} + h == h + multiset{x};
    }
  }

  lemma FilterLoads(s: State, n: nat)
    requires PoolsInv(s, n) && s.filter.FilterIdle?
    ensures PoolsInv(FilterStep(s), n)
  {
    var a := CaptureHeld(s.capture);
    if s.src.pool.work != [] {
      Loads(s.src, a + multiset{});
      var (x, pool) := s.src.pool.Load();
      assert FilterStep(s) == s.(src := s.src.(pool := pool), filter := HasSource(x));
      assert a + multiset{} + multiset{x} == a + multiset{x};
    }
  }

  lemma FilterAllocates(s: State, n: nat)
    requires PoolsInv(s, n) && s.filter.HasSource?
    ensures PoolsInv(FilterStep(s), n)
  {
    var b := EncoderHeld(s.encoder);
    if s.dst.pool.CanAllocate() {
      Allocates(s.dst, multiset{} + b);
      var (x, pool) := s.dst.pool.Allocate();
      assert FilterStep(s) == s.(dst := s.dst.(pool := pool), filter := HasBoth(s.filter.src, x));
      assert multiset{} + b + multiset{x} == multiset{x} + b;
    }
  }

  lemma FilterConverts(s: State, n: nat)
    requires PoolsInv(s, n) && s.filter.HasBoth?
    ensures PoolsInv(FilterStep(s), n)
  {
    var src, x, b := s.filter.src, s.filter.dst, EncoderHeld(s.encoder);
    HeldOnce(s.dst, multiset{x} + b, x);
    if src in s.src.frames {
      var f := Convert(s.src.frames[src]);
      assert FilterStep(s) == s.(dst := s.dst.(frames := s.dst.frames[x := f]), filter := Converted(src, x));
      Writes(s.dst, multiset{x} + b, x, f);
    }
  }

  lemma FilterReleases(s: State, n: nat)
    requires PoolsInv(s, n) && s.filter.Converted?
    ensures PoolsInv(FilterStep(s), n)
  {
    var a, x := CaptureHeld(s.capture), s.filter.src;
    assert FilterStep(s) == s.(src := s.src.(pool := s.src.pool.Release(x)), filter := HasResult(s.filter.dst));
    assert a + multiset{} == a;
    GivesBack(s.src, a, x);
  }

  lemma FilterStores(s: State, n: nat)
    requires PoolsInv(s, n) && s.filter.HasResult?
    ensures PoolsInv(FilterStep(s), n)
  {
    var b, x := EncoderHeld(s.encoder), s.filter.dst;
    assert FilterStep(s) == s.(dst := s.dst.(pool := s.dst.pool.Store(x)), filter := FilterIdle);
    assert multiset{x} + b == (multiset{} + b) + multiset{x};
    GivesBack(s.dst, multiset{} + b, x);
  }

  lemma FilterPools(s: State, n: nat)
    requires PoolsInv(s, n)
    ensures PoolsInv(FilterStep(s), n)
  {
    match s.filter
    case FilterIdle => FilterLoads(s, n);
    case HasSource(_) => FilterAllocates(s, n);
    case HasBoth(_, _) => FilterConverts(s, n);
    case Converted(_, _) => FilterReleases(s, n);
    case HasResult(_) => FilterStores(s, n);
  }

  lemma EncodePools(s: State, n: nat)
    requires PoolsInv(s, n)
    ensures PoolsInv(EncodeStep(s), n)
  {
    var h := ResultHeld(s.filter);
    if s.encoder.Loaded? {
      assert h + multiset{} == h;
      GivesBack(s.dst, h, s.encoder.n);
    } else if s.dst.pool.work != [] {
      Loads(s.dst, h + multiset{});
      var x := s.dst.pool.work[0];
      assert h + multiset{} + multiset{x} == h + multiset{x};
    }
  }

  /** Each thread holds at most one node of a pipe, so with two or more nodes there is always one to take. */
  lemma EnoughNodes(p: Pipe, held: multiset<Node>)
    requires Placed(p, held) && |held| <= 1 && |p.frames.Keys| >= 2
    ensures p.pool.CanAllocate()
  {
    assert |multiset(p.pool.free) + multiset(p.pool.work) + held| == |multiset(p.frames.Keys)| == |p.frames.Keys|;
    assert |multiset(p.pool.free)| == |p.pool.free| && |multiset(p.pool.work)| == |p.pool.work|;
  }

  lemma CaptureNotFatal(s: State, n: nat, frame: Frame)
    requires PoolsInv(s, n) && n >= 2 && !s.fatal
    ensures !CaptureStep(s, frame).fatal
  {
    if s.capture.CaptureIdle? {
      EnoughNodes(s.src, CaptureHeld(s.capture) + SourceHeld(s.filter));
    }
  }

  lemma FilterNotFatal(s: State, n: nat)
    requires PoolsInv(s, n) && n >= 2 && !s.fatal
    ensures !FilterStep(s).fatal
  {
    if s.filter.HasSource? {
      EnoughNodes(s.dst, ResultHeld(s.filter) + EncoderHeld(s.encoder));
    }
  }

  // ---------------------------------------------------------------- frames: lost, never reordered

  /** The frames stored in some nodes. */
  function FramesAt(frames: map<Node, Frame>, nodes: seq<Node>): seq<Frame>
    requires forall x :: x in nodes ==> x in frames
  {
    seq(|nodes|, i requires 0 <= i < |nodes| => frames[nodes[i]])
  }

  function Converts(frames: seq<Frame>): seq<Frame>
  {
    seq(|frames|, i requires 0 <= i < |frames| => Convert(frames[i]))
  }

  lemma FramesHead(frames: map<Node, Frame>, nodes: seq<Node>)
    requires nodes != [] && forall x :: x in nodes ==> x in frames
    ensures FramesAt(frames, nodes) == [frames[nodes[0]]] + FramesAt(frames, nodes[1..])
  {
  }

  lemma FramesSnoc(frames: map<Node, Frame>, nodes: seq<Node>, x: Node)
    requires x in frames && forall y :: y in nodes ==> y in frames
    ensures FramesAt(frames, nodes + [x]) == FramesAt(frames, nodes) + [frames[x]]
  {
  }

  lemma FramesUnwritten(frames: map<Node, Frame>, nodes: seq<Node>, x: Node, f: Frame)
    requires x !in nodes && forall y :: y in nodes ==> y in frames
    ensures FramesAt(frames[x := f], nodes) == FramesAt(frames, nodes)
  {
    assert forall i :: 0 <= i < |nodes| ==> nodes[i] in nodes;
  }

  lemma ConvertsSnoc(a: seq<Frame>, x: Frame)
    ensures Converts(a + [x]) == Converts(a) + [Convert(x)]
  {
  }

  lemma ConvertsHead(a: seq<Frame>)
    requires a != []
    ensures Converts(a) == [Convert(a[0])] + Converts(a[1..])
  {
  }

  ghost predicate InPlace(s: State)
  {
    && (forall x :: x in s.src.pool.work ==> x in s.src.frames)
    && (forall x :: x in s.dst.pool.work ==> x in s.dst.frames)
    && (forall x :: x in CaptureHeld(s.capture) ==> x in s.src.frames)
    && (forall x :: x in SourceHeld(s.filter) ==> x in s.src.frames)
    && (forall x :: x in ResultHeld(s.filter) ==> x in s.dst.frames)
    && (forall x :: x in EncoderHeld(s.encoder) ==> x in s.dst.frames)
  }

  lemma PoolsInPlace(s: State, n: nat)
    requires PoolsInv(s, n)
    ensures InPlace(s)
  {
    var a, b := CaptureHeld(s.capture) + SourceHeld(s.filter), ResultHeld(s.filter) + EncoderHeld(s.encoder);
    forall x | x in s.src.pool.work ensures x in s.src.frames { QueuedOnce(s.src, a, x); }
    forall x | x in s.dst.pool.work ensures x in s.dst.frames { QueuedOnce(s.dst, b, x); }
    forall x | x in CaptureHeld(s.capture) ensures x in s.src.frames { HeldOnce(s.src, a, x); }
    forall x | x in SourceHeld(s.filter) ensures x in s.src.frames { HeldOnce(s.src, a, x); }
    forall x | x in ResultHeld(s.filter) ensures x in s.dst.frames { HeldOnce(s.dst, b, x); }
    forall x | x in EncoderHeld(s.encoder) ensures x in s.dst.frames { HeldOnce(s.dst, b, x); }
  }

  function InCapture(s: State): seq<Frame>
    requires forall x :: x in CaptureHeld(s.capture) ==> x in s.src.frames
  {
    if s.capture.Grabbed? then [s.src.frames[s.capture.n]] else []
  }

  function InFilter(s: State): seq<Frame>
    requires forall x :: x in SourceHeld(s.filter) ==> x in s.src.frames
    requires forall x :: x in ResultHeld(s.filter) ==> x in s.dst.frames
  {
    match s.filter
    case FilterIdle => []
    case HasSource(src) => [Convert(s.src.frames[src])]
    case HasBoth(src, _) => [Convert(s.src.frames[src])]
    case Converted(_, dst) => [s.dst.frames[dst]]
    case HasResult(dst) => [s.dst.frames[dst]]
  }

  function InEncoder(s: State): seq<Frame>
    requires forall x :: x in EncoderHeld(s.encoder) ==> x in s.dst.frames
  {
    if s.encoder.Loaded? then [s.dst.frames[s.encoder.n]] else []
  }

  /** Frames on their way, as they will look when they arrive, eldest first. */
  ghost function Flight(
    delivered: seq<Frame>, encoder: seq<Frame>, dst: seq<Frame>, filter: seq<Frame>, src: seq<Frame>): seq<Frame>
  {
    delivered + encoder + dst + filter + src
  }

  ghost function FlightOf(s: State): seq<Frame>
    requires InPlace(s)
  {
    Flight(s.delivered, InEncoder(s), FramesAt(s.dst.frames, s.dst.pool.work), InFilter(s),
           Converts(FramesAt(s.src.frames, s.src.pool.work)))
  }

  /** The step takes a queued node, because none is free. */
  predicate Steals(s: State, a: Action)
  {
    || (a.Capture? && s.capture.CaptureIdle? && s.src.pool.CanAllocate() && s.src.pool.Steals())
    || (a.Filter? && s.filter.HasSource? && s.dst.pool.CanAllocate() && s.dst.pool.Steals())
  }

  /** What one step may do: when it steals, lose one frame; otherwise nothing, or add the frame just captured. */
  ghost predicate Advances(stolen: bool, f: seq<Frame>, f': seq<Frame>, captured: seq<Frame>, captured': seq<Frame>)
  {
    if stolen then captured' == captured && exists i :: 0 <= i < |f| && f' == f[..i] + f[i + 1..]
    else
      || (f' == f && captured' == captured)
      || (exists x :: f' == f + [Convert(x)] && captured' == captured + [x])
  }

  lemma SplitAround(f: seq<Frame>, i: nat)
    requires i < |f|
    ensures f == f[..i] + [f[i]] + f[i + 1..]
  {
  }

  lemma AdvancesKeeps(stolen: bool, f: seq<Frame>, f': seq<Frame>, captured: seq<Frame>, captured': seq<Frame>)
    requires Subsequence(f, Converts(captured)) && Advances(stolen, f, f', captured, captured')
    ensures Subsequence(f', Converts(captured'))
    ensures |f'| + (if stolen then 1 else 0) + |captured| == |f| + |captured'|
  {
    if stolen {
      var i :| 0 <= i < |f| && f' == f[..i] + f[i + 1..];
      SplitAround(f, i);
      SubsequenceWithout(f[..i], f[i], f[i + 1..], Converts(captured));
    } else if x :| f' == f + [Convert(x)] && captured' == captured + [x] {
      ConvertsSnoc(captured, x);
      SubsequenceBoth(f, Converts(captured), Convert(x));
    }
  }

  // ---------------------------------------------------------------- every step

  lemma LosesOne(a: seq<Frame>, x: Frame, b: seq<Frame>, captured: seq<Frame>)
    ensures Advances(true, a + [x] + b, a + b, captured, captured)
  {
    var f := a + [x] + b;
    assert f[..|a|] == a && f[|a| + 1..] == b;
  }

  lemma ResultLost(d: seq<Frame>, e: seq<Frame>, x: Frame, q: seq<Frame>, f: seq<Frame>, s: seq<Frame>,
                   captured: seq<Frame>)
    ensures Advances(true, Flight(d, e, [x] + q, f, s), Flight(d, e, q, f, s), captured, captured)
  {
    assert Flight(d, e, [x] + q, f, s) == (d + e) + [x] + (q + f + s);
    assert Flight(d, e, q, f, s) == (d + e) + (q + f + s);
    LosesOne(d + e, x, q + f + s, captured);
  }

  lemma SourceLost(d: seq<Frame>, e: seq<Frame>, q: seq<Frame>, f: seq<Frame>, x: Frame, s: seq<Frame>,
                   captured: seq<Frame>)
    ensures Advances(true, Flight(d, e, q, f, [x] + s), Flight(d, e, q, f, s), captured, captured)
  {
    Reassociate(d + e + q + f, [x], s);
    LosesOne(d + e + q + f, x, s, captured);
  }

  lemma SourceGained(d: seq<Frame>, e: seq<Frame>, q: seq<Frame>, f: seq<Frame>, s: seq<Frame>, x: Frame,
                     captured: seq<Frame>)
    ensures Advances(false, Flight(d, e, q, f, s), Flight(d, e, q, f, s + [Convert(x)]), captured, captured + [x])
  {
    assert Flight(d, e, q, f, s + [Convert(x)]) == Flight(d, e, q, f, s) + [Convert(x)];
  }

  lemma CaptureStores(s: State, n: nat, frame: Frame)
    requires PoolsInv(s, n) && s.capture.Grabbed? && InPlace(s) && InPlace(CaptureStep(s, frame))
    ensures var s' := CaptureStep(s, frame);
      Advances(Steals(s, Capture(frame)), FlightOf(s), FlightOf(s'), s.captured, s'.captured)
  {
    var s', x := CaptureStep(s, frame), s.capture.n;
    HeldOnce(s.src, multiset{x} + SourceHeld(s.filter), x);
    FramesSnoc(s.src.frames, s.src.pool.work, x);
    ConvertsSnoc(FramesAt(s.src.frames, s.src.pool.work), s.src.frames[x]);
    assert s' == s.(src := s.src.(pool := s.src.pool.Store(x)), capture := CaptureIdle,
                    captured := s.captured + [s.src.frames[x]]);
    SourceGained(s.delivered, InEncoder(s), FramesAt(s.dst.frames, s.dst.pool.work), InFilter(s),
                 Converts(FramesAt(s.src.frames, s.src.pool.work)), s.src.frames[x], s.captured);
  }

  lemma CaptureTakes(s: State, n: nat, frame: Frame)
    requires PoolsInv(s, n) && s.capture.CaptureIdle? && s.src.pool.CanAllocate()
    requires InPlace(s) && InPlace(CaptureStep(s, frame))
    ensures Advances(Steals(s, Capture(frame)), FlightOf(s), FlightOf(CaptureStep(s, frame)), s.captured, s.captured)
  {
    var s', h := CaptureStep(s, frame), SourceHeld(s.filter);
    var (x, pool) := s.src.pool.Allocate();
    assert multiset{} + h == h;
    Allocates(s.src, h);
    HeldOnce(s.src.(pool := pool), h + multiset{x}, x);
    assert InFilter(s') == InFilter(s) by { assert (h + multiset{x})[x] == 1; }
    FramesUnwritten(s.src.frames, pool.work, x, frame);
    if s.src.pool.Steals() {
      FramesHead(s.src.frames, s.src.pool.work);
      ConvertsHead(FramesAt(s.src.frames, s.src.pool.work));
      SourceLost(s.delivered, InEncoder(s), FramesAt(s.dst.frames, s.dst.pool.work), InFilter(s),
                 Convert(s.src.frames[x]), Converts(FramesAt(s.src.frames, pool.work)), s.captured);
    }
  }

  /** A frame that moves on from the first queue, from the second, or from the encoder. */
  lemma MovesOn(d: seq<Frame>, e: seq<Frame>, q: seq<Frame>, f: seq<Frame>, x: Frame, s: seq<Frame>)
    ensures Flight(d, e, q, [], [x] + s) == Flight(d, e, q, [x], s)
    ensures Flight(d, [], [x] + q, f, s) == Flight(d, [x], q, f, s)
    ensures Flight(d, [x], q, f, s) == Flight(d + [x], [], q, f, s)
    ensures Flight(d, e, q + [x], [], s) == Flight(d, e, q, [x], s)
  {
    assert d + e + q + [] + ([x] + s) == d + e + q + [x] + s;
    assert d + [] + ([x] + q) == d + [x] + q;
    assert d + [x] + [] == d + [x];
    assert d + e + (q + [x]) + [] == d + e + q + [x];
  }

  lemma FilterLoadsInOrder(s: State)
    requires s.filter.FilterIdle? && s.src.pool.work != [] && InPlace(s) && InPlace(FilterStep(s))
    ensures FlightOf(FilterStep(s)) == FlightOf(s)
  {
    var (x, pool) := s.src.pool.Load();
    FramesHead(s.src.frames, s.src.pool.work);
    ConvertsHead(FramesAt(s.src.frames, s.src.pool.work));
    assert FilterStep(s) == s.(src := s.src.(pool := pool), filter := HasSource(x));
    MovesOn(s.delivered, InEncoder(s), FramesAt(s.dst.frames, s.dst.pool.work), [],
            Convert(s.src.frames[x]), Converts(FramesAt(s.src.frames, pool.work)));
  }

  lemma FilterTakes(s: State)
    requires s.filter.HasSource? && s.dst.pool.CanAllocate() && InPlace(s) && InPlace(FilterStep(s))
    ensures Advances(Steals(s, Filter), FlightOf(s), FlightOf(FilterStep(s)), s.captured, s.captured)
  {
    var (x, pool) := s.dst.pool.Allocate();
    var s' := FilterStep(s);
    assert s' == s.(dst := s.dst.(pool := pool), filter := HasBoth(s.filter.src, x));
    if s.dst.pool.Steals() {
      FramesHead(s.dst.frames, s.dst.pool.work);
      ResultLost(s.delivered, InEncoder(s), s.dst.frames[x], FramesAt(s.dst.frames, pool.work), InFilter(s),
                 Converts(FramesAt(s.src.frames, s.src.pool.work)), s.captured);
    }
  }

  lemma FilterConvertsInPlace(s: State, n: nat)
    requires PoolsInv(s, n) && s.filter.HasBoth? && InPlace(s) && InPlace(FilterStep(s))
    ensures FlightOf(FilterStep(s)) == FlightOf(s)
  {
    var src, x, b := s.filter.src, s.filter.dst, EncoderHeld(s.encoder);
    HeldOnce(s.dst, multiset{x} + b, x);
    var f := Convert(s.src.frames[src]);
    var s' := FilterStep(s);
    assert s' == s.(dst := s.dst.(frames := s.dst.frames[x := f]), filter := Converted(src, x));
    assert InEncoder(s') == InEncoder(s) by { assert (multiset{x} + b)[x] == 1; }
    FramesUnwritten(s.dst.frames, s.dst.pool.work, x, f);
  }

  lemma FilterStoresInOrder(s: State)
    requires s.filter.HasResult? && InPlace(s) && InPlace(FilterStep(s))
    ensures FlightOf(FilterStep(s)) == FlightOf(s)
  {
    var x := s.filter.dst;
    assert FilterStep(s) == s.(dst := s.dst.(pool := s.dst.pool.Store(x)), filter := FilterIdle);
    FramesSnoc(s.dst.frames, s.dst.pool.work, x);
    MovesOn(s.delivered, InEncoder(s), FramesAt(s.dst.frames, s.dst.pool.work), [], s.dst.frames[x],
            Converts(FramesAt(s.src.frames, s.src.pool.work)));
  }

  lemma FilterInOrder(s: State, n: nat)
    requires PoolsInv(s, n) && !s.filter.HasSource? && InPlace(s) && InPlace(FilterStep(s))
    ensures FlightOf(FilterStep(s)) == FlightOf(s)
  {
    match s.filter
    case FilterIdle =>
      if s.src.pool.work != [] {
        FilterLoadsInOrder(s);
      }
    case HasBoth(_, _) => FilterConvertsInPlace(s, n);
    case Converted(src, dst) =>
      assert FilterStep(s) == s.(src := s.src.(pool := s.src.pool.Release(src)), filter := HasResult(dst));
    case HasResult(_) => FilterStoresInOrder(s);
  }

  lemma FilterAdvances(s: State, n: nat)
    requires PoolsInv(s, n) && InPlace(s) && InPlace(FilterStep(s))
    ensures Advances(Steals(s, Filter), FlightOf(s), FlightOf(FilterStep(s)), s.captured, FilterStep(s).captured)
  {
    assert FilterStep(s).captured == s.captured;
    if !s.filter.HasSource? {
      FilterInOrder(s, n);
    } else if s.dst.pool.CanAllocate() {
      FilterTakes(s);
    } else {
      assert FilterStep(s) == s.(fatal := true);
    }
  }

  lemma EncodeLoadsInOrder(s: State)
    requires s.encoder.EncoderIdle? && s.dst.pool.work != [] && InPlace(s) && InPlace(EncodeStep(s))
    ensures FlightOf(EncodeStep(s)) == FlightOf(s)
  {
    var (x, pool) := s.dst.pool.Load();
    assert EncodeStep(s) == s.(dst := s.dst.(pool := pool), encoder := Loaded(x));
    FramesHead(s.dst.frames, s.dst.pool.work);
    MovesOn(s.delivered, [], FramesAt(s.dst.frames, pool.work), InFilter(s), s.dst.frames[x],
            Converts(FramesAt(s.src.frames, s.src.pool.work)));
  }

  lemma EncodeReadsInOrder(s: State)
    requires s.encoder.Loaded? && InPlace(s) && InPlace(EncodeStep(s))
    ensures FlightOf(EncodeStep(s)) == FlightOf(s)
  {
    var x, f := s.encoder.n, s.dst.frames[s.encoder.n];
    assert EncodeStep(s) == s.(dst := s.dst.(pool := s.dst.pool.Release(x)), encoder := EncoderIdle,
                               delivered := s.delivered + [f]);
    MovesOn(s.delivered, [], FramesAt(s.dst.frames, s.dst.pool.work), InFilter(s), f,
            Converts(FramesAt(s.src.frames, s.src.pool.work)));
  }

  lemma EncodeInOrder(s: State)
    requires InPlace(s) && InPlace(EncodeStep(s))
    ensures FlightOf(EncodeStep(s)) == FlightOf(s)
  {
    if s.encoder.Loaded? {
      EncodeReadsInOrder(s);
    } else if s.dst.pool.work != [] {
      EncodeLoadsInOrder(s);
    }
  }

  // ---------------------------------------------------------------- whole runs

  lemma {:induction false} NodesDistinct(n: nat)
    ensures multiset(Nodes(n)) == multiset(set x | x in Nodes(n)) && |set x | x in Nodes(n)| == n
  {
    if n == 0 {
      assert Nodes(0) == [];
    } else {
      NodesDistinct(n - 1);
      var fewer := Nodes(n - 1);
      assert Nodes(n) == fewer + [n - 1];
      assert (set x | x in Nodes(n)) == (set x | x in fewer) + {n - 1};
      assert n - 1 !in fewer;
    }
  }

  lemma InitialPools(n: nat, blank: Frame)
    ensures PoolsInv(Initial(n, blank), n)
  {
    NodesDistinct(n);
    var s := Initial(n, blank);
    assert s.src.frames.Keys == set x | x in Nodes(n);
  }

  lemma {:induction false} RunPools(n: nat, blank: Frame, actions: seq<Action>)
    ensures PoolsInv(Run(n, blank, actions), n)
  {
    if actions == [] {
      InitialPools(n, blank);
    } else {
      var last := actions[|actions| - 1];
      RunPools(n, blank, actions[..|actions| - 1]);
      var s := Run(n, blank, actions[..|actions| - 1]);
      match last
      case Capture(frame) => CapturePools(s, n, frame);
      case Filter => FilterPools(s, n);
      case Encode => EncodePools(s, n);
    }
  }

  lemma CaptureAdvances(s: State, n: nat, frame: Frame)
    requires PoolsInv(s, n) && InPlace(s) && InPlace(CaptureStep(s, frame))
    ensures var s' := CaptureStep(s, frame);
      Advances(Steals(s, Capture(frame)), FlightOf(s), FlightOf(s'), s.captured, s'.captured)
  {
    if s.capture.Grabbed? {
      CaptureStores(s, n, frame);
    } else if s.src.pool.CanAllocate() {
      CaptureTakes(s, n, frame);
    } else {
      assert CaptureStep(s, frame) == s.(fatal := true);
    }
  }

  lemma EncodeAdvances(s: State)
    requires InPlace(s) && InPlace(EncodeStep(s))
    ensures Advances(false, FlightOf(s), FlightOf(EncodeStep(s)), s.captured, EncodeStep(s).captured)
  {
    EncodeInOrder(s);
  }

  lemma StepAdvances(s: State, n: nat, a: Action)
    requires PoolsInv(s, n) && InPlace(s) && InPlace(Step(s, a))
    ensures Advances(Steals(s, a), FlightOf(s), FlightOf(Step(s, a)), s.captured, Step(s, a).captured)
  {
    match a
    case Capture(frame) =>
      assert Step(s, a) == CaptureStep(s, frame);
      CaptureAdvances(s, n, frame);
    case Filter =>
      assert Step(s, a) == FilterStep(s);
      FilterAdvances(s, n);
    case Encode =>
      assert Step(s, a) == EncodeStep(s) && !Steals(s, a);
      EncodeAdvances(s);
  }

  /** How many nodes were stolen in a run. */
  function Stolen(n: nat, blank: Frame, actions: seq<Action>): nat
  {
    if actions == [] then 0
    else
      var before := actions[..|actions| - 1];
      Stolen(n, blank, before) + if Steals(Run(n, blank, before), actions[|actions| - 1]) then 1 else 0
  }

  lemma {:induction false} RunFlight(n: nat, blank: Frame, actions: seq<Action>)
    ensures var s := Run(n, blank, actions);
      && InPlace(s) && Subsequence(FlightOf(s), Converts(s.captured))
      && |FlightOf(s)| + Stolen(n, blank, actions) == |s.captured|
  {
    var s := Run(n, blank, actions);
    RunPools(n, blank, actions);
    PoolsInPlace(s, n);
    if actions == [] {
      assert FlightOf(s) == [];
    } else {
      var before, last := Run(n, blank, actions[..|actions| - 1]), actions[|actions| - 1];
      RunFlight(n, blank, actions[..|actions| - 1]);
      RunPools(n, blank, actions[..|actions| - 1]);
      StepAdvances(before, n, last);
      AdvancesKeeps(Steals(before, last), FlightOf(before), FlightOf(s), before.captured, s.captured);
    }
  }

  /** The pictures grabbed in a run: those of the capture steps that took a node. */
  function Grabs(n: nat, blank: Frame, actions: seq<Action>): seq<Frame>
  {
    if actions == [] then []
    else
      var before, a := actions[..|actions| - 1], actions[|actions| - 1];
      var s := Run(n, blank, before);
      Grabs(n, blank, before) +
      if a.Capture? && s.capture.CaptureIdle? && s.src.pool.CanAllocate() then [a.frame] else []
  }

  lemma GrabNothing(s: State, a: Action)
    requires a.Capture? ==> s.capture.CaptureIdle? && !s.src.pool.CanAllocate()
    ensures var s' := Step(s, a);
      s'.captured == s.captured && s'.capture == s.capture && s'.src.frames == s.src.frames
  {
  }

  lemma GrabTakes(s: State, frame: Frame)
    requires s.capture.CaptureIdle? && s.src.pool.CanAllocate()
    ensures var s' := Step(s, Capture(frame));
      && s'.captured == s.captured && s'.capture.Grabbed?
      && s'.capture.n in s'.src.frames && s'.src.frames[s'.capture.n] == frame
  {
  }

  lemma GrabStores(s: State, frame: Frame)
    requires s.capture.Grabbed? && s.capture.n in s.src.frames
    ensures var s' := Step(s, Capture(frame));
      s'.capture.CaptureIdle? && s'.captured == s.captured + [s.src.frames[s.capture.n]]
  {
  }

  lemma GrabStep(s: State, a: Action)
    requires InPlace(s) && InPlace(Step(s, a))
    ensures var s' := Step(s, a);
      s'.captured + InCapture(s') == s.captured + InCapture(s) +
        if a.Capture? && s.capture.CaptureIdle? && s.src.pool.CanAllocate() then [a.frame] else []
  {
    if a.Capture? && s.capture.Grabbed? {
      GrabStores(s, a.frame);
    } else if a.Capture? && s.src.pool.CanAllocate() {
      GrabTakes(s, a.frame);
    } else {
      GrabNothing(s, a);
    }
  }

  /** What the capture thread has stored, and the picture in its hands, are the pictures grabbed. */
  lemma {:induction false} CapturedAreGrabbed(n: nat, blank: Frame, actions: seq<Action>)
    ensures var s := Run(n, blank, actions);
      InPlace(s) && s.captured + InCapture(s) == Grabs(n, blank, actions)
  {
    RunPools(n, blank, actions);
    PoolsInPlace(Run(n, blank, actions), n);
    if actions != [] {
      var before, last := actions[..|actions| - 1], actions[|actions| - 1];
      CapturedAreGrabbed(n, blank, before);
      RunPools(n, blank, before);
      GrabStep(Run(n, blank, before), last);
    }
  }

  /** What conversion must not touch: each frame's time stamp and which picture it shows. */
  function Stamps(frames: seq<Frame>): seq<(int, nat)>
  {
    seq(|frames|, i requires 0 <= i < |frames| => (frames[i].pts, frames[i].picture.id))
  }

  lemma StampsOfConverted(frames: seq<Frame>)
    ensures Stamps(Converts(frames)) == Stamps(frames)
  {
  }

  lemma {:induction false} StampsSubsequence(a: seq<Frame>, b: seq<Frame>)
    requires Subsequence(a, b)
    ensures Subsequence(Stamps(a), Stamps(b)) && forall x :: x in a ==> x in b
    decreases |b|
  {
    if a != [] {
      var a', b' := a[..|a| - 1], b[..|b| - 1];
      assert Stamps(b)[..|b| - 1] == Stamps(b') && Stamps(a)[..|a| - 1] == Stamps(a');
      if Subsequence(a, b') {
        StampsSubsequence(a, b');
      } else {
        StampsSubsequence(a', b');
        assert a == a' + [a[|a| - 1]];
      }
    }
  }

  /** Grabbed frames that the encoder has not read yet, as they will look when it does. */
  ghost function OnTheWay(s: State): seq<Frame>
    requires InPlace(s)
  {
    InEncoder(s) + FramesAt(s.dst.frames, s.dst.pool.work) + InFilter(s)
    + Converts(FramesAt(s.src.frames, s.src.pool.work)) + Converts(InCapture(s))
  }

  lemma FlightSplit(d: seq<Frame>, e: seq<Frame>, q: seq<Frame>, f: seq<Frame>, s: seq<Frame>, c: seq<Frame>)
    ensures Flight(d, e, q, f, s) == d + (e + q + f + s)
    ensures Flight(d, e, q, f, s) + c == d + (e + q + f + s + c)
  {
  }

  lemma ConvertsAppend(a: seq<Frame>, b: seq<Frame>)
    ensures Converts(a + b) == Converts(a) + Converts(b)
  {
  }

  /** The frames delivered and on their way are the flight and the picture in the capture thread's hands. */
  lemma RunOnTheWay(n: nat, blank: Frame, actions: seq<Action>)
    ensures var s := Run(n, blank, actions);
      && InPlace(s) && s.delivered + OnTheWay(s) == FlightOf(s) + Converts(InCapture(s)) && s.delivered <= FlightOf(s)
      && Converts(Grabs(n, blank, actions)) == Converts(s.captured) + Converts(InCapture(s))
  {
    var s := Run(n, blank, actions);
    CapturedAreGrabbed(n, blank, actions);
    ConvertsAppend(s.captured, InCapture(s));
    FlightSplit(s.delivered, InEncoder(s), FramesAt(s.dst.frames, s.dst.pool.work), InFilter(s),
                Converts(FramesAt(s.src.frames, s.src.pool.work)), Converts(InCapture(s)));
  }

  lemma {:induction false} SubsequenceExtends<F>(a: seq<F>, b: seq<F>, c: seq<F>)
    requires Subsequence(a, b)
    ensures Subsequence(a, b + c)
    decreases |c|
  {
    if c == [] {
      assert b + c == b;
    } else {
      SubsequenceExtends(a, b, c[..|c| - 1]);
      assert (b + c)[..|b + c| - 1] == b + c[..|c| - 1];
    }
  }

  /**
   However the three threads interleave, the encoder sees pictures that were grabbed, with their time stamps,
   in order, none twice, all converted; and the ones it neither saw nor will see are exactly as many as were
   stolen.
   */
  lemma LossyFifo(n: nat, blank: Frame, actions: seq<Action>)
    ensures var s, grabs := Run(n, blank, actions), Grabs(n, blank, actions);
      && Subsequence(Stamps(s.delivered), Stamps(grabs))
      && (forall f :: f in s.delivered ==> f.picture.Yuv420p?)
      && InPlace(s) && |s.delivered| + |OnTheWay(s)| + Stolen(n, blank, actions) == |grabs|
  {
    var s, grabs := Run(n, blank, actions), Grabs(n, blank, actions);
    RunFlight(n, blank, actions);
    RunOnTheWay(n, blank, actions);
    assert FlightOf(s) == s.delivered + FlightOf(s)[|s.delivered|..];
    SubsequencePrefix(s.delivered, FlightOf(s)[|s.delivered|..], Converts(s.captured));
    SubsequenceExtends(s.delivered, Converts(s.captured), Converts(InCapture(s)));
    StampsSubsequence(s.delivered, Converts(grabs));
    StampsOfConverted(grabs);
    assert |s.delivered + OnTheWay(s)| + Stolen(n, blank, actions) == |Converts(grabs)|;
  }

  lemma {:induction false} SubsequenceLength<F>(a: seq<F>, b: seq<F>)
    requires Subsequence(a, b)
    ensures |a| <= |b| && (|a| == |b| ==> a == b)
    decreases |b|
  {
    if a != [] {
      var b' := b[..|b| - 1];
      if Subsequence(a, b') {
        SubsequenceLength(a, b');
      } else {
        SubsequenceLength(a[..|a| - 1], b');
        assert |a| == |b| ==> a == a[..|a| - 1] + [a[|a| - 1]] && b == b' + [b[|b| - 1]];
      }
    }
  }

  /** A run that steals nothing loses nothing. */
  lemma NothingStolenNothingLost(n: nat, blank: Frame, actions: seq<Action>)
    requires Stolen(n, blank, actions) == 0
    ensures var s := Run(n, blank, actions);
      InPlace(s) && Stamps(s.delivered + OnTheWay(s)) == Stamps(Grabs(n, blank, actions))
  {
    var s := Run(n, blank, actions);
    RunFlight(n, blank, actions);
    RunOnTheWay(n, blank, actions);
    SubsequenceLength(FlightOf(s), Converts(s.captured));
    StampsOfConverted(Grabs(n, blank, actions));
  }

  lemma StepNotFatal(s: State, n: nat, a: Action)
    requires PoolsInv(s, n) && n >= 2 && !s.fatal
    ensures !Step(s, a).fatal
  {
    match a
    case Capture(frame) => CaptureNotFatal(s, n, frame);
    case Filter => FilterNotFatal(s, n);
    case Encode =>
  }

  lemma {:induction false} RunNotFatal(n: nat, blank: Frame, actions: seq<Action>)
    requires n >= 2
    ensures !Run(n, blank, actions).fatal
  {
    if actions != [] {
      RunNotFatal(n, blank, actions[..|actions| - 1]);
      RunPools(n, blank, actions[..|actions| - 1]);
      StepNotFatal(Run(n, blank, actions[..|actions| - 1]), n, actions[|actions| - 1]);
    }
  }

  lemma RunOne(n: nat, blank: Frame, actions: seq<Action>, a: Action)
    ensures Run(n, blank, actions + [a]) == Step(Run(n, blank, actions), a)
  {
    assert (actions + [a])[..|actions|] == actions;
  }

  /** With one node: a frame is captured and taken by the filter, and the next capture finds no node. */
  lemma OneNodeIsFatal(blank: Frame)
    ensures Run(1, blank, [Capture(blank)] + [Capture(blank)] + [Filter] + [Capture(blank)]).fatal
  {
    var c := Capture(blank);
    assert Nodes(1) == [0];
    RunOne(1, blank, [], c);
    var s1 := Run(1, blank, [] + [c]);
    assert [] + [c] == [c];
    assert s1.src.pool == Pool([], []) && s1.capture == Grabbed(0) && s1.filter.FilterIdle?;
    RunOne(1, blank, [c], c);
    RunOne(1, blank, [c] + [c], Filter);
    RunOne(1, blank, [c] + [c] + [Filter], c);
    var s2 := Run(1, blank, [c] + [c]);
    assert s2.src.pool.free == [] && s2.src.pool.work == [0] && s2.capture.CaptureIdle? && s2.filter.FilterIdle?;
  }

  /** The FATAL exit of `allocate_data` can be reached exactly when the pools have fewer than two nodes. */
  lemma FatalIffTooFewNodes(n: nat, blank: Frame)
    ensures (exists actions :: Run(n, blank, actions).fatal) <==> n < 2
  {
    if n >= 2 {
      forall actions ensures !Run(n, blank, actions).fatal { RunNotFatal(n, blank, actions); }
    } else if n == 1 {
      OneNodeIsFatal(blank);
    } else {
      RunOne(0, blank, [], Capture(blank));
      assert Run(0, blank, [] + [Capture(blank)]).fatal;
    }
  }
}
