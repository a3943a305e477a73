/**
 Screen capture on Windows: the system's bitmap is stored upside down, and is turned over while the
 whole of it, or a rectangle, is copied out.
 */
module GdiCapture {
  import opened Bytes

  const RGBA_SIZE: nat := 4

  /** A rectangle of the screen. */
  datatype Rect = Rect(left: nat, top: nat, width: nat, height: nat)
  {
    function LineSize(): nat
    {
      RGBA_SIZE * width
    }

    function Size(): nat
    {
      Extent(height, LineSize())
    }

    predicate Within(width: nat, height: nat)
    {
      left + this.width <= width && top + this.height <= height
    }
  }

  /** Where row `y` of a rectangle starts in a bitmap stored from the bottom. */
  function RowStart(width: nat, height: nat, r: Rect, y: nat): (start: nat)
    requires r.Within(width, height) && y < r.height
    ensures start + r.LineSize() <= Extent(height, RGBA_SIZE * width)
  {
    ExtentsApart(height - 1 - r.top - y, height, RGBA_SIZE * width);
    Extent(height - 1 - r.top - y, RGBA_SIZE * width) + RGBA_SIZE * r.left
  }

  function Row(bits: seq<byte>, width: nat, height: nat, r: Rect, y: nat): (row: seq<byte>)
    requires |bits| == Extent(height, RGBA_SIZE * width) && r.Within(width, height) && y < r.height
    ensures |row| == r.LineSize()
  {
    var start := RowStart(width, height, r, y);
    bits[start..start + r.LineSize()]
  }

  /** The rows of a rectangle, from the top. */
  function Rows(bits: seq<byte>, width: nat, height: nat, r: Rect): seq<seq<byte>>
    requires |bits| == Extent(height, RGBA_SIZE * width) && r.Within(width, height)
  {
    seq(r.height, y requires 0 <= y < r.height => Row(bits, width, height, r, y))
  }

  lemma SliceOfSlice(a: seq<byte>, i: nat, n: nat, from: nat, len: nat)
    requires i + n <= |a| && from + len <= n
    ensures a[i..i + n][from..from + len] == a[i + from..i + from + len]
  {
    var row, cut := a[i..i + n], a[i + from..i + from + len];
    forall k | 0 <= k < len
      ensures row[from..from + len][k] == cut[k]
    {
      assert row[from + k] == a[i + from + k];
    }
  }

  lemma WithinRow(a: seq<byte>, b: seq<byte>, i: nat, j: nat, n: nat, from: nat, len: nat)
    requires i + n <= |a| && j + n <= |b| && a[i..i + n] == b[j..j + n] && from + len <= n
    ensures a[i + from..i + from + len] == b[j + from..j + from + len]
  {
    SliceOfSlice(a, i, n, from, len);
    SliceOfSlice(b, j, n, from, len);
  }

  lemma RowStartCrop(width: nat, height: nat, r: Rect, y: nat)
    requires r.Within(width, height) && y < r.height
    ensures RowStart(width, height, r, y)
      == RowStart(width, height, Rect(0, 0, width, height), r.top + y) + RGBA_SIZE * r.left
  {
    assert height - 1 - r.top - y == height - 1 - 0 - (r.top + y);
  }

  /**
   The bitmap keeps the lines of the screen from the last to the first. Row `y` of a captured rectangle is its
   part of line `r.top + y` of the screen, counted from the top.
   */
  lemma TurnedOver(lines: seq<seq<byte>>, width: nat, height: nat, r: Rect, y: nat)
    requires |lines| == height && forall i :: 0 <= i < height ==> |lines[i]| == 4 * width
    requires r.Within(width, height) && y < r.height
    ensures var bits := Flatten(lines);
      && |bits| == Extent(height, RGBA_SIZE * width)
      && Rows(bits, width, height, r)[y] == lines[height - 1 - (r.top + y)][4 * r.left..4 * (r.left + r.width)]
  {
    var bits, k, line := Flatten(lines), height - 1 - (r.top + y), 4 * width;
    FlattenExtent(lines, line);
    PieceAt(lines, [], line, k);
    assert bits + [] == bits;
    WithinRow(bits, lines[k], Extent(k, line), 0, line, 4 * r.left, r.LineSize());
  }

  /** Row `y` of the screen, in the capture of the whole. */
  lemma WholeRow(bits: seq<byte>, width: nat, height: nat, y: nat)
    requires |bits| == Extent(height, RGBA_SIZE * width) && y < height
    ensures var line, screen := RGBA_SIZE * width, Rect(0, 0, width, height);
      var whole, to := Flatten(Rows(bits, width, height, screen)), Extent(y, line);
      to + line <= |whole| && Row(bits, width, height, screen, y) == whole[to..to + line]
  {
    var line, rows := RGBA_SIZE * width, Rows(bits, width, height, Rect(0, 0, width, height));
    PieceAt(rows, [], line, y);
    assert Flatten(rows) + [] == Flatten(rows);
  }

  /** A row of a rectangle, out of the row of the screen it lies in, wherever that one is kept. */
  lemma CropRow(bits: seq<byte>, width: nat, height: nat, r: Rect, y: nat, whole: seq<byte>, to: nat)
    requires |bits| == Extent(height, RGBA_SIZE * width) && r.Within(width, height) && y < r.height
    requires to + RGBA_SIZE * width <= |whole|
    requires Row(bits, width, height, Rect(0, 0, width, height), r.top + y) == whole[to..to + RGBA_SIZE * width]
    ensures var start := to + RGBA_SIZE * r.left;
      Rows(bits, width, height, r)[y] == whole[start..start + r.LineSize()]
  {
    var from, line := RowStart(width, height, Rect(0, 0, width, height), r.top + y), RGBA_SIZE * width;
    WithinRow(bits, whole, from, to, line, RGBA_SIZE * r.left, r.LineSize());
    RowStartCrop(width, height, r, y);
  }

  /** A rectangle captured is the rectangle cut out of the whole screen captured. */
  lemma CropOfWhole(bits: seq<byte>, width: nat, height: nat, r: Rect, y: nat)
    requires |bits| == Extent(height, RGBA_SIZE * width) && r.Within(width, height) && y < r.height
    ensures var whole := Flatten(Rows(bits, width, height, Rect(0, 0, width, height)));
      var start := Extent(r.top + y, RGBA_SIZE * width) + RGBA_SIZE * r.left;
      start + r.LineSize() <= |whole| && Rows(bits, width, height, r)[y] == whole[start..start + r.LineSize()]
  {
    var whole := Flatten(Rows(bits, width, height, Rect(0, 0, width, height)));
    WholeRow(bits, width, height, r.top + y);
    CropRow(bits, width, height, r, y, whole, Extent(r.top + y, RGBA_SIZE * width));
  }

  lemma RowsSnoc(rows: seq<seq<byte>>, y: nat, before: seq<byte>, row: seq<byte>)
    requires y < |rows| && before == Flatten(rows[..y]) && row == rows[y]
    ensures before + row == Flatten(rows[..y + 1])
  {
    FlattenOne(rows[..y], row);
    assert rows[..y + 1] == rows[..y] + [row];
  }

  method CopyMemory(dest: array<byte>, d: nat, source: array<byte>, s: nat, n: nat)
    requires d + n <= dest.Length && s + n <= source.Length && dest != source
    modifies dest
    ensures dest[..d] == old(dest[..d]) && dest[d..d + n] == source[s..s + n] && dest[d + n..] == old(dest[d + n..])
  {
    forall i | 0 <= i < n {
      dest[d + i] := source[s + i];
    }
    ghost var now, was := dest[..], old(dest[..]);
    assert forall i :: 0 <= i < dest.Length && !(d <= i < d + n) ==> now[i] == was[i];
    assert now[..d] == was[..d] && now[d + n..] == was[d + n..];
    ghost var copied, given := now[d..d + n], source[s..s + n];
    forall i | 0 <= i < n
      ensures copied[i] == given[i]
    {
      assert now[d + i] == source[s + i];
    }
  }

  class Desktop {
    const width: nat
    const height: nat
    const pBits: array<byte>
    /** Whether the device context and the bitmap are there. */
    var handles: bool

    constructor (w: nat, h: nat)
      ensures width == w && height == h && pBits.Length == Extent(h, RGBA_SIZE * w) && fresh(pBits) && handles
    {
      width, height, handles := w, h, true;
      pBits := new byte[Extent(h, RGBA_SIZE * w)];
    }

    /** Copies one row behind those already copied. */
    method CopyRow(buf: array<byte>, r: Rect, ghost y: nat, dest: nat, source: nat)
      requires pBits.Length == Extent(height, RGBA_SIZE * width) && r.Within(width, height) && y < r.height
      requires source == RowStart(width, height, r, y) && dest + r.LineSize() <= r.Size() <= buf.Length && buf != pBits
      requires buf[..dest] == Flatten(Rows(pBits[..], width, height, r)[..y])
      modifies buf
      ensures buf[..dest + r.LineSize()] == Flatten(Rows(pBits[..], width, height, r)[..y + 1])
      ensures buf[r.Size()..] == old(buf[r.Size()..])
    {
      var n, size := r.LineSize(), r.Size();
      ghost var rows, before := Rows(pBits[..], width, height, r), buf[..dest];
      ghost var behind := buf[dest + n..];
      CopyMemory(buf, dest, pBits, source, n);
      assert rows[y] == pBits[..][source..source + n] == pBits[source..source + n];
      assert buf[..dest + n] == before + pBits[source..source + n];
      RowsSnoc(rows, y, before, rows[y]);
      assert buf[size..] == behind[size - (dest + n)..];
    }

    lemma NextRow(r: Rect, y: nat)
      requires r.Within(width, height) && y < r.height
      ensures Extent(y, r.LineSize()) + r.LineSize() == Extent(y + 1, r.LineSize()) <= r.Size()
      ensures y + 1 < r.height ==>
        RowStart(width, height, r, y) - RGBA_SIZE * width == RowStart(width, height, r, y + 1)
    {
      if y + 1 < r.height {
        ExtentsApart(y + 1, r.height, r.LineSize());
      }
    }

    /** Copies `r.height` rows, going upwards through the bitmap. */
    method CopyRows(buf: array<byte>, r: Rect)
      requires pBits.Length == Extent(height, RGBA_SIZE * width) && r.Within(width, height)
      requires r.height > 0 && r.Size() <= buf.Length && buf != pBits
      modifies buf
      ensures buf[..r.Size()] == Flatten(Rows(pBits[..], width, height, r))
      ensures buf[r.Size()..] == old(buf[r.Size()..])
    {
      var linesize := RGBA_SIZE * width;
      var source: int := RowStart(width, height, r, 0);
      var dest, left := 0, r.height;
      ghost var y, bits := 0, pBits[..];
      ghost var rows := Rows(bits, width, height, r);
      while left > 0
        invariant 0 <= left <= r.height && y == r.height - left && pBits[..] == bits
        invariant dest == Extent(y, r.LineSize()) <= r.Size()
        invariant left > 0 ==> source == RowStart(width, height, r, y)
        invariant buf[..dest] == Flatten(rows[..y]) && buf[r.Size()..] == old(buf[r.Size()..])
      {
        NextRow(r, y);
        CopyRow(buf, r, y, dest, source);
        dest := dest + r.LineSize();
        source := source - linesize;
        left := left - 1;
        y := y + 1;
      }
      assert rows[..r.height] == rows;
    }

    method Deinit()
      modifies this`handles
      ensures !handles
    {
      handles := false;
    }

    /** The whole screen, or a rectangle of it; -1 if the buffer is too small or the handles are gone. */
    method Capture(buf: array<byte>, whole: bool, rect: Rect) returns (n: int)
      requires pBits.Length == Extent(height, RGBA_SIZE * width) && height > 0 && buf != pBits
      requires !whole ==> rect.Within(width, height) && rect.height > 0
      modifies buf
      ensures var r := if whole then Rect(0, 0, width, height) else rect;
        if buf.Length < r.Size() || !handles then n == -1 && buf[..] == old(buf[..])
        else n == r.Size() && buf[..n] == Flatten(Rows(pBits[..], width, height, r)) && buf[n..] == old(buf[n..])
    {
      var r := if whole then Rect(0, 0, width, height) else rect;
      if buf.Length < r.Size() {
        return -1;
      }
      if !handles {
        return -1;
      }
      CopyRows(buf, r);
      n := r.Size();
    }
  }
}
