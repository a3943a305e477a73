/**
 Time stamps the video encoder gives its frames. Capture times may stall or jump back; the codec
 needs stamps that always grow.
 */
module VideoPts {

  /** The stamp each frame would like: its capture time, shifted so that the first frame gets `sync`. */
  function Wanted(imgpts: seq<int>, sync: nat): (w: seq<int>)
    ensures |w| == |imgpts|
    ensures w != [] ==> w[0] == sync
  {
    seq(|imgpts|, i requires 0 <= i < |imgpts| => sync + imgpts[i] - imgpts[0])
  }

  ghost predicate Increasing(p: seq<int>)
  {
    forall i :: 0 < i < |p| ==> p[i - 1] < p[i]
  }

  ghost predicate AtLeast(p: seq<int>, w: seq<int>)
  {
    |p| == |w| && forall i :: 0 <= i < |w| ==> p[i] >= w[i]
  }

  /** `m` is the greatest of `w[j] + (k - j)` over all `j` up to `k`. */
  ghost predicate IsPeak(w: seq<int>, k: nat, m: int)
    requires k < |w|
  {
    && (forall j :: 0 <= j <= k ==> m >= w[j] + k - j)
    && (exists j :: 0 <= j <= k && m == w[j] + k - j)
  }

  ghost predicate Peaks(p: seq<int>, w: seq<int>)
  {
    |p| == |w| && forall k :: 0 <= k < |w| ==> IsPeak(w, k, p[k])
  }

  lemma PeakStep(w: seq<int>, k: nat, m: int)
    requires 0 < k < |w| && IsPeak(w, k - 1, m)
    ensures IsPeak(w, k, if w[k] > m then w[k] else m + 1)
  {
    var j :| 0 <= j <= k - 1 && m == w[j] + (k - 1) - j;
    assert m + 1 == w[j] + k - j;
    var r := if w[k] > m then w[k] else m + 1;
    forall i | 0 <= i <= k
      ensures r >= w[i] + k - i
    {
      assert i < k ==> m >= w[i] + (k - 1) - i;
    }
    assert w[k] > m ==> r == w[k] + k - k;
  }

  lemma {:induction false} IncreasingGap(q: seq<int>, j: nat, k: nat)
    requires Increasing(q) && j <= k < |q|
    ensures q[k] >= q[j] + k - j
  {
    if j < k {
      IncreasingGap(q, j, k - 1);
    }
  }

  /** `m` is the greatest over `j` up to `k` of the time from the first capture to `j`, and one for each frame since. */
  ghost predicate IsLag(imgpts: seq<int>, sync: nat, k: nat, m: int)
    requires k < |imgpts|
  {
    && (forall j :: 0 <= j <= k ==> m >= sync + imgpts[j] - imgpts[0] + (k - j))
    && (exists j :: 0 <= j <= k && m == sync + imgpts[j] - imgpts[0] + (k - j))
  }

  /** In terms of the capture times: the stamp lags by as much as it must, and not at all if they increase. */
  lemma PeakInCaptureTimes(imgpts: seq<int>, sync: nat, k: nat, m: int)
    requires k < |imgpts| && IsPeak(Wanted(imgpts, sync), k, m)
    ensures IsLag(imgpts, sync, k, m)
    ensures Increasing(imgpts) ==> m == sync + imgpts[k] - imgpts[0]
  {
    var w := Wanted(imgpts, sync);
    forall j | 0 <= j <= k
      ensures m >= sync + imgpts[j] - imgpts[0] + (k - j)
    {
      assert m >= w[j] + k - j;
    }
    var j :| 0 <= j <= k && m == w[j] + k - j;
    assert m == sync + imgpts[j] - imgpts[0] + (k - j);
    if Increasing(imgpts) {
      IncreasingGap(imgpts, j, k);
    }
  }

  lemma PeaksInCaptureTimes(imgpts: seq<int>, sync: nat, p: seq<int>)
    requires Peaks(p, Wanted(imgpts, sync))
    ensures |p| == |imgpts| && forall k :: 0 <= k < |p| ==> IsLag(imgpts, sync, k, p[k])
    ensures Increasing(imgpts) ==> forall k :: 0 <= k < |p| ==> p[k] == sync + imgpts[k] - imgpts[0]
  {
    forall k | 0 <= k < |p|
      ensures IsLag(imgpts, sync, k, p[k]) && (Increasing(imgpts) ==> p[k] == sync + imgpts[k] - imgpts[0])
    {
      assert IsPeak(Wanted(imgpts, sync), k, p[k]);
      PeakInCaptureTimes(imgpts, sync, k, p[k]);
    }
  }

  /** The encoder's loop over the frames it loads. */
  method Stamp(imgpts: seq<int>, sync: nat) returns (out: seq<int>)
    requires imgpts != [] ==> imgpts[0] != -1
    ensures Peaks(out, Wanted(imgpts, sync)) && |out| == |imgpts|
    ensures forall k :: 0 <= k < |out| ==> IsLag(imgpts, sync, k, out[k])
    ensures Increasing(imgpts) ==> forall k :: 0 <= k < |out| ==> out[k] == sync + imgpts[k] - imgpts[0]
  {
    ghost var w := Wanted(imgpts, sync);
    out := [];
    var basePts, ptsSync, pts := -1, 0, -1;
    for k := 0 to |imgpts|
      invariant |out| == k
      invariant forall i :: 0 <= i < k ==> IsPeak(w, i, out[i])
      invariant if k == 0 then basePts == -1 && pts == -1
        else basePts == imgpts[0] && ptsSync == sync && pts == out[k - 1]
    {
      var newpts: int;
      if basePts == -1 {
        basePts := imgpts[k];
        ptsSync := sync;
        newpts := ptsSync;
        assert IsPeak(w, 0, newpts) by { assert newpts == w[0] + 0 - 0; }
      } else {
        newpts := ptsSync + imgpts[k] - basePts;
        PeakStep(w, k, pts);
      }
      if newpts > pts {
        pts := newpts;
      } else {
        pts := pts + 1;
      }
      out := out + [pts];
    }
    PeaksInCaptureTimes(imgpts, sync, out);
  }

  lemma PeaksIncrease(p: seq<int>, w: seq<int>)
    requires Peaks(p, w)
    ensures Increasing(p) && AtLeast(p, w)
  {
    forall i | 0 < i < |p|
      ensures p[i - 1] < p[i]
    {
      assert IsPeak(w, i - 1, p[i - 1]) && IsPeak(w, i, p[i]);
      var j :| 0 <= j <= i - 1 && p[i - 1] == w[j] + (i - 1) - j;
      assert p[i] >= w[j] + i - j;
    }
    forall i | 0 <= i < |w|
      ensures p[i] >= w[i]
    {
      assert IsPeak(w, i, p[i]);
      assert p[i] >= w[i] + i - i;
    }
  }

  lemma PeaksBelow(p: seq<int>, w: seq<int>, q: seq<int>, k: nat)
    requires Peaks(p, w) && Increasing(q) && AtLeast(q, w) && k < |w|
    ensures p[k] <= q[k]
  {
    assert IsPeak(w, k, p[k]);
    var j :| 0 <= j <= k && p[k] == w[j] + k - j;
    IncreasingGap(q, j, k);
  }

  /** The least sequence that always grows and never falls below what is wanted. */
  ghost predicate Least(p: seq<int>, w: seq<int>)
  {
    && Increasing(p) && AtLeast(p, w)
    && forall q :: Increasing(q) && AtLeast(q, w) ==> AtLeast(q, p)
  }

  lemma PeaksAreLeast(p: seq<int>, w: seq<int>)
    requires Peaks(p, w)
    ensures Least(p, w)
  {
    PeaksIncrease(p, w);
    forall q | Increasing(q) && AtLeast(q, w)
      ensures AtLeast(q, p)
    {
      forall k | 0 <= k < |w|
        ensures q[k] >= p[k]
      {
        PeaksBelow(p, w, q, k);
      }
    }
  }

  lemma PeakOfPrefix(w: seq<int>, n: nat, k: nat, m: int)
    requires k < n <= |w| && IsPeak(w[..n], k, m)
    ensures IsPeak(w, k, m)
  {
    var j :| 0 <= j <= k && m == w[..n][j] + k - j;
    assert m == w[j] + k - j;
    forall i | 0 <= i <= k
      ensures m >= w[i] + k - i
    {
      assert w[..n][i] == w[i];
    }
  }

  lemma {:induction false} PeaksExist(w: seq<int>) returns (p: seq<int>)
    ensures Peaks(p, w)
  {
    if w == [] {
      p := [];
    } else {
      var k := |w| - 1;
      var shorter := w[..k];
      var q := PeaksExist(shorter);
      forall i | 0 <= i < k ensures IsPeak(w, i, q[i]) {
        assert IsPeak(shorter, i, q[i]);
        PeakOfPrefix(w, k, i, q[i]);
      }
      if k == 0 {
        assert w[0] == w[0] + 0 - 0;
        p := [w[0]];
      } else {
        PeakStep(w, k, q[k - 1]);
        p := q + [if w[k] > q[k - 1] then w[k] else q[k - 1] + 1];
      }
    }
  }

  lemma LeastArePeaks(p: seq<int>, w: seq<int>)
    requires Least(p, w)
    ensures Peaks(p, w)
  {
    var s := PeaksExist(w);
    PeaksAreLeast(s, w);
    assert AtLeast(s, p) && AtLeast(p, s);
    assert p == s;
  }

  /** The closed form is the least admissible sequence, so the loop delays no frame more than it must. */
  lemma StampsAreLeast(imgpts: seq<int>, sync: nat, p: seq<int>)
    ensures Peaks(p, Wanted(imgpts, sync)) <==> Least(p, Wanted(imgpts, sync))
  {
    var w := Wanted(imgpts, sync);
    if Peaks(p, w) {
      PeaksAreLeast(p, w);
    } else if Least(p, w) {
      LeastArePeaks(p, w);
    }
  }
}
