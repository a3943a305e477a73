/** Bytes, and lists of byte strings laid end to end. */
module Bytes {
  type byte = x: int | 0 <= x < 256

  function BigEndian16(hi: int, lo: int): int
  {
    256 * hi + lo
  }

  /** The members of `ss` laid end to end. */
  function Flatten<T>(ss: seq<seq<T>>): (s: seq<T>)
  {
    if ss == [] then [] else ss[0] + Flatten(ss[1..])
  }

  lemma Reassociate<T>(x: seq<T>, y: seq<T>, z: seq<T>)
    ensures x + (y + z) == x + y + z
  {
  }

  lemma FlattenCons<T>(x: seq<T>, ss: seq<seq<T>>)
    ensures Flatten([x] + ss) == x + Flatten(ss)
  {
    assert ([x] + ss)[1..] == ss;
  }

  lemma {:induction false} FlattenAppend<T>(a: seq<seq<T>>, b: seq<seq<T>>)
    ensures Flatten(a + b) == Flatten(a) + Flatten(b)
  {
    if a == [] {
      assert a + b == b;
    } else {
      FlattenAppend(a[1..], b);
      assert (a + b)[1..] == a[1..] + b;
      Reassociate(a[0], Flatten(a[1..]), Flatten(b));
    }
  }

  lemma FlattenOne<T>(a: seq<seq<T>>, x: seq<T>)
    ensures Flatten(a + [x]) == Flatten(a) + x
  {
    FlattenAppend(a, [x]);
    assert Flatten([x]) == x;
  }

  /** `n` zero bytes. */
  function Zeros(n: nat): (s: seq<byte>)
    ensures |s| == n
    ensures forall i :: 0 <= i < n ==> s[i] == 0
  {
    seq(n, _ => 0)
  }

  /** How far `n` cells of `unit` bytes reach: `n * unit`. */
  function Extent(n: nat, unit: nat): nat
  {
    if n == 0 then 0 else Extent(n - 1, unit) + unit
  }

  lemma {:induction false} ExtentIsProduct(n: nat, unit: nat)
    ensures Extent(n, unit) == n * unit
  {
    if n > 0 {
      ExtentIsProduct(n - 1, unit);
      assert n * unit == (n - 1) * unit + unit;
    }
  }

  lemma {:induction false} ExtentAdd(m: nat, n: nat, unit: nat)
    ensures Extent(m + n, unit) == Extent(m, unit) + Extent(n, unit)
  {
    if n > 0 {
      ExtentAdd(m, n - 1, unit);
      assert (m + n) - 1 == m + (n - 1);
    }
  }

  lemma {:induction false} ExtentsApart(m: nat, n: nat, unit: nat)
    requires m < n
    ensures Extent(m, unit) + unit <= Extent(n, unit)
  {
    if m < n - 1 {
      ExtentsApart(m, n - 1, unit);
    }
  }

  lemma {:induction false} FlattenExtent<T>(pieces: seq<seq<T>>, size: nat)
    requires forall k :: 0 <= k < |pieces| ==> |pieces[k]| == size
    ensures |Flatten(pieces)| == Extent(|pieces|, size)
  {
    if pieces != [] {
      FlattenExtent(pieces[1..], size);
    }
  }

  /** Pieces of one size, laid end to end, are the stream cut at multiples of that size. */
  lemma {:induction false} PieceAt<T>(pieces: seq<seq<T>>, rest: seq<T>, size: nat, i: nat)
    requires i < |pieces| && forall k :: 0 <= k < |pieces| ==> |pieces[k]| == size
    ensures var stream := Flatten(pieces) + rest;
      Extent(i + 1, size) <= |stream| && stream[Extent(i, size)..Extent(i + 1, size)] == pieces[i]
  {
    var tail := Flatten(pieces[1..]) + rest;
    assert Flatten(pieces) + rest == pieces[0] + tail;
    if i > 0 {
      PieceAt(pieces[1..], rest, size, i - 1);
      var a, b := Extent(i - 1, size), Extent(i, size);
      assert (pieces[0] + tail)[size + a..size + b] == tail[a..b];
    }
  }
}
