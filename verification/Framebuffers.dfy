/**
 * The frame a session paints: one flat buffer of 4-byte pixels, row after
 * row, updated in place, and the screen it stands for.
 */
module Framebuffers {
  import opened Bytes
  import opened Screens

  // --- Layout: a flat buffer is its rows end to end ---

  /** `s` with `mid` written over it from `at`. */
  function Splice(s: seq<byte>, at: nat, mid: seq<byte>): (t: seq<byte>)
    requires at + |mid| <= |s|
    ensures |t| == |s|
  {
    s[..at] + mid + s[at + |mid|..]
  }

  /** `after` is `before` with `mid` written over it from `at`. */
  ghost predicate Overwrites(before: seq<byte>, at: nat, mid: seq<byte>, after: seq<byte>) {
    && at + |mid| <= |before|
    && |after| == |before|
    && forall k :: 0 <= k < |after| ==> after[k] == if at <= k < at + |mid| then mid[k - at] else before[k]
  }

  lemma OverwritesIsSplice(before: seq<byte>, at: nat, mid: seq<byte>, after: seq<byte>)
    requires Overwrites(before, at, mid, after)
    ensures after == Splice(before, at, mid)
  {
  }

  /** The flat offset at which row `y` starts. */
  ghost function Start(rows: seq<seq<byte>>, y: nat): nat
    requires y <= |rows|
  {
    |Concat(rows[..y])|
  }

  lemma StartIs(rows: seq<seq<byte>>, stride: nat, y: nat)
    requires RowsOfLength(rows, stride) && y <= |rows|
    ensures Start(rows, y) == Span(y, stride)
  {
    ConcatLength(rows[..y], stride);
  }

  lemma SplitAtRow(rows: seq<seq<byte>>, y: nat)
    requires y < |rows|
    ensures Concat(rows) == Concat(rows[..y]) + rows[y] + Concat(rows[y + 1..])
  {
    assert rows == rows[..y] + rows[y..];
    ConcatAppend(rows[..y], rows[y..]);
    assert rows[y..][1..] == rows[y + 1..];
  }

  lemma SliceMiddle(front: seq<byte>, row: seq<byte>, back: seq<byte>, offset: nat, n: nat)
    requires offset + n <= |row|
    ensures (front + row + back)[|front| + offset..|front| + offset + n] == row[offset..offset + n]
  {
  }

  lemma SpliceMiddle(front: seq<byte>, row: seq<byte>, back: seq<byte>, offset: nat, mid: seq<byte>)
    requires offset + |mid| <= |row|
    ensures Splice(front + row + back, |front| + offset, mid) == front + Splice(row, offset, mid) + back
  {
  }

  lemma ReadInRow(rows: seq<seq<byte>>, y: nat, offset: nat, n: nat)
    requires y < |rows| && offset + n <= |rows[y]|
    ensures Start(rows, y) + offset + n <= |Concat(rows)|
    ensures Concat(rows)[Start(rows, y) + offset..Start(rows, y) + offset + n] == rows[y][offset..offset + n]
  {
    SplitAtRow(rows, y);
    SliceMiddle(Concat(rows[..y]), rows[y], Concat(rows[y + 1..]), offset, n);
  }

  /** Writing inside one row of the flat buffer changes that row and no other. */
  lemma WriteInRow(rows: seq<seq<byte>>, y: nat, offset: nat, mid: seq<byte>)
    requires y < |rows| && offset + |mid| <= |rows[y]|
    ensures Start(rows, y) + offset + |mid| <= |Concat(rows)|
    ensures Splice(Concat(rows), Start(rows, y) + offset, mid) == Concat(rows[y := Splice(rows[y], offset, mid)])
  {
    var after := rows[y := Splice(rows[y], offset, mid)];
    assert after[..y] == rows[..y] && after[y + 1..] == rows[y + 1..];
    SplitAtRow(rows, y);
    SplitAtRow(after, y);
    SpliceMiddle(Concat(rows[..y]), rows[y], Concat(rows[y + 1..]), offset, mid);
  }

  // --- The screen a frame stands for ---

  /** The pixels of one row of the buffer. */
  ghost function PixelsOf(row: seq<byte>, width: nat): (pixels: seq<Pixel>)
    requires |row| == width * 4
    ensures |pixels| == width
  {
    if width == 0 then [] else PixelsOf(row[..(width - 1) * 4], width - 1) + [PixelIn(row, width - 1)]
  }

  lemma {:induction false} PixelsOfAt(row: seq<byte>, width: nat, x: nat)
    requires |row| == width * 4 && x < width
    ensures PixelsOf(row, width)[x] == PixelIn(row, x)
  {
    if x < width - 1 {
      PixelsOfAt(row[..(width - 1) * 4], width - 1, x);
    }
  }

  ghost function PixelRows(rows: seq<seq<byte>>, width: nat): (pixels: seq<seq<Pixel>>)
    requires RowsOfLength(rows, width * 4)
    ensures |pixels| == |rows|
    ensures forall y :: 0 <= y < |rows| ==> |pixels[y]| == width
  {
    if rows == [] then [] else [PixelsOf(rows[0], width)] + PixelRows(rows[1..], width)
  }

  lemma {:induction false} PixelRowsAt(rows: seq<seq<byte>>, width: nat, y: nat)
    requires RowsOfLength(rows, width * 4) && y < |rows|
    ensures PixelRows(rows, width)[y] == PixelsOf(rows[y], width)
  {
    if y > 0 {
      PixelRowsAt(rows[1..], width, y - 1);
    }
  }

  ghost function ScreenOfRows(rows: seq<seq<byte>>, width: nat): (s: Screen)
    requires RowsOfLength(rows, width * 4)
    ensures s.Valid() && s.width == width && s.height == |rows|
  {
    Screen(width, |rows|, PixelRows(rows, width))
  }

  lemma ScreenOfRowsAt(rows: seq<seq<byte>>, width: nat, x: nat, y: nat)
    requires RowsOfLength(rows, width * 4) && x < width && y < |rows|
    ensures ScreenOfRows(rows, width).At(x, y) == PixelIn(rows[y], x)
  {
    PixelRowsAt(rows, width, y);
    PixelsOfAt(rows[y], width, x);
  }

  /** Two rows that hold the same pixel show the same pixel. */
  lemma SameAt(a: seq<seq<byte>>, width: nat, x: nat, y: nat, b: seq<seq<byte>>, breadth: nat, i: nat, j: nat)
    requires RowsOfLength(a, width * 4) && x < width && y < |a|
    requires RowsOfLength(b, breadth * 4) && i < breadth && j < |b|
    requires PixelIn(a[y], x) == PixelIn(b[j], i)
    ensures ScreenOfRows(a, width).At(x, y) == ScreenOfRows(b, breadth).At(i, j)
  {
    ScreenOfRowsAt(a, width, x, y);
    ScreenOfRowsAt(b, breadth, i, j);
  }

  ghost function ScreenOf(b: seq<byte>, width: nat, height: nat): (s: Screen)
    requires |b| == Span(height, width * 4)
    ensures s.Valid() && s.width == width && s.height == height
  {
    ScreenOfRows(RowsOf(b, width * 4, height), width)
  }

  /** The flat offset of a pixel, for readers that index the buffer directly. */
  function PixelOffset(width: nat, x: nat, y: nat): nat {
    (y * width + x) * 4
  }

  lemma PixelOffsetIs(rows: seq<seq<byte>>, width: nat, x: nat, y: nat)
    requires RowsOfLength(rows, width * 4) && x < width && y < |rows|
    ensures PixelOffset(width, x, y) == Start(rows, y) + x * 4
  {
    StartIs(rows, width * 4, y);
    SpanIs(y, width * 4);
    assert y * (width * 4) == y * width * 4;
  }

  lemma PixelAt(b: seq<byte>, width: nat, height: nat, x: nat, y: nat)
    requires |b| == Span(height, width * 4) && x < width && y < height
    ensures PixelOffset(width, x, y) + 4 <= |b|
    ensures ScreenOf(b, width, height).At(x, y) == PixelOf(b, PixelOffset(width, x, y))
  {
    var rows := RowsOf(b, width * 4, height);
    RowsOfConcat(b, width * 4, height);
    ScreenOfRowsAt(rows, width, x, y);
    PixelInRow(rows, width, x, y);
    PixelOffsetIs(rows, width, x, y);
  }

  lemma PixelInRow(rows: seq<seq<byte>>, width: nat, x: nat, y: nat)
    requires RowsOfLength(rows, width * 4) && x < width && y < |rows|
    ensures Start(rows, y) + x * 4 + 4 <= |Concat(rows)|
    ensures PixelIn(rows[y], x) == PixelOf(Concat(rows), Start(rows, y) + x * 4)
  {
    var b, at := Concat(rows), Start(rows, y) + x * 4;
    ReadInRow(rows, y, x * 4, 4);
    SlicePixel(rows[y], x, 1, 0);
    assert PixelIn(b[at..at + 4], 0) == PixelOf(b, at);
  }

  lemma BlankBuffer(b: seq<byte>, width: nat, height: nat)
    requires |b| == Span(height, width * 4)
    requires forall k :: 0 <= k < |b| ==> b[k] == 0
    ensures ScreenOf(b, width, height) == Blank(width, height)
  {
    forall x: nat, y: nat | x < width && y < height
      ensures ScreenOf(b, width, height).At(x, y) == Blank(width, height).At(x, y)
    {
      PixelAt(b, width, height, x, y);
    }
    SameScreen(ScreenOf(b, width, height), Blank(width, height));
  }

  // --- Painting a rectangle one row at a time ---

  lemma SlicePixel(row: seq<byte>, x: nat, w: nat, i: nat)
    requires x * 4 + w * 4 <= |row| && i < w
    ensures PixelIn(row[x * 4..x * 4 + w * 4], i) == PixelIn(row, x + i)
  {
  }

  lemma PiecePixel(row: seq<byte>, x: nat, w: nat, piece: seq<byte>, i: nat)
    requires x * 4 + w * 4 <= |row| && piece == row[x * 4..x * 4 + w * 4] && i < w
    ensures PixelIn(piece, i) == PixelIn(row, x + i)
  {
    SlicePixel(row, x, w, i);
  }

  lemma SplicePixel(row: seq<byte>, x: nat, w: nat, mid: seq<byte>, px: nat)
    requires |mid| == w * 4 && x * 4 + w * 4 <= |row| && px * 4 + 4 <= |row|
    ensures PixelIn(Splice(row, x * 4, mid), px) == if x <= px < x + w then PixelIn(mid, px - x) else PixelIn(row, px)
  {
  }

  /** A Raw or CopyRect rectangle that fits the screen. */
  ghost predicate Paintable(s: Screen, r: Rectangle) {
    s.Valid() && !r.Resize? && RectFits(s.width, s.height, r)
  }

  /** The row of the rectangle the loop writes at step `i`. */
  function RowInOrder(h: nat, i: nat, bottomUp: bool): (k: nat)
    requires i < h
    ensures k < h
  {
    if bottomUp then h - 1 - i else i
  }

  /** Whether row `k` of the rectangle is among the first `steps` written. */
  predicate Written(k: int, h: nat, steps: nat, bottomUp: bool) {
    0 <= k < h && if bottomUp then k >= h - steps else k < steps
  }

  /** The pixel at `(x, y)` once `steps` rows of `r` are painted over `s`. */
  ghost function PixelAfter(s: Screen, r: Rectangle, steps: nat, bottomUp: bool, x: nat, y: nat): Pixel
    requires Paintable(s, r) && x < s.width && y < s.height
  {
    if Written(y - r.y, r.h, steps, bottomUp) then PaintedPixel(s, r, x, y) else s.At(x, y)
  }

  ghost predicate Painting(s: Screen, now: seq<seq<byte>>, r: Rectangle, steps: nat, bottomUp: bool)
    requires Paintable(s, r)
  {
    && |now| == s.height
    && RowsOfLength(now, s.width * 4)
    && forall x: nat, y: nat :: x < s.width && y < s.height ==>
         PixelIn(now[y], x) == PixelAfter(s, r, steps, bottomUp, x, y)
  }

  lemma PaintingStarts(rows: seq<seq<byte>>, width: nat, r: Rectangle, bottomUp: bool)
    requires RowsOfLength(rows, width * 4) && !r.Resize? && RectFits(width, |rows|, r)
    ensures Painting(ScreenOfRows(rows, width), rows, r, 0, bottomUp)
  {
    var s := ScreenOfRows(rows, width);
    forall x: nat, y: nat | x < s.width && y < s.height
      ensures PixelIn(rows[y], x) == PixelAfter(s, r, 0, bottomUp, x, y)
    {
      ScreenOfRowsAt(rows, width, x, y);
      assert !Written(y - r.y, r.h, 0, bottomUp);
    }
  }

  /** `mid` holds the pixels the protocol paints on row `k` of the rectangle. */
  ghost predicate PaintsRow(s: Screen, r: Rectangle, k: nat, mid: seq<byte>)
    requires Paintable(s, r) && k < r.h
  {
    && |mid| == r.w * 4
    && forall i: nat :: i < r.w ==> PixelIn(mid, i) == PaintedPixel(s, r, r.x + i, r.y + k)
  }

  lemma PaintingStep(s: Screen, now: seq<seq<byte>>, r: Rectangle, steps: nat, bottomUp: bool, mid: seq<byte>,
                     after: seq<seq<byte>>)
    requires Paintable(s, r) && steps < r.h && Painting(s, now, r, steps, bottomUp)
    requires PaintsRow(s, r, RowInOrder(r.h, steps, bottomUp), mid)
    requires var y := r.y + RowInOrder(r.h, steps, bottomUp); after == now[y := Splice(now[y], r.x * 4, mid)]
    ensures Painting(s, after, r, steps + 1, bottomUp)
  {
    var k := RowInOrder(r.h, steps, bottomUp);
    forall x: nat, y: nat | x < s.width && y < s.height
      ensures PixelIn(after[y], x) == PixelAfter(s, r, steps + 1, bottomUp, x, y)
    {
      assert PixelIn(now[y], x) == PixelAfter(s, r, steps, bottomUp, x, y);
      if y == r.y + k {
        SplicePixel(now[y], r.x, r.w, mid, x);
        if r.x <= x < r.x + r.w {
          assert PixelIn(mid, x - r.x) == PaintedPixel(s, r, r.x + (x - r.x), r.y + k);
        }
      } else {
        assert Written(y - r.y, r.h, steps, bottomUp) == Written(y - r.y, r.h, steps + 1, bottomUp);
      }
    }
  }

  /** One pass of a row loop: the write lands inside the frame and advances the painting. */
  lemma WriteStep(s: Screen, now: seq<seq<byte>>, r: Rectangle, steps: nat, bottomUp: bool, mid: seq<byte>)
    returns (after: seq<seq<byte>>)
    requires Paintable(s, r) && steps < r.h && Painting(s, now, r, steps, bottomUp)
    requires PaintsRow(s, r, RowInOrder(r.h, steps, bottomUp), mid)
    ensures var dst := Start(now, r.y + RowInOrder(r.h, steps, bottomUp)) + r.x * 4;
            && dst + r.w * 4 <= |Concat(now)|
            && Splice(Concat(now), dst, mid) == Concat(after)
    ensures Painting(s, after, r, steps + 1, bottomUp)
  {
    var y := r.y + RowInOrder(r.h, steps, bottomUp);
    WriteInRow(now, y, r.x * 4, mid);
    after := now[y := Splice(now[y], r.x * 4, mid)];
    PaintingStep(s, now, r, steps, bottomUp, mid, after);
  }

  /**
   * In the order CopyRect picks, the row about to be copied has not been
   * written: what the buffer holds there is still the old frame.
   */
  lemma CopySource(s: Screen, now: seq<seq<byte>>, r: Rectangle, steps: nat, bottomUp: bool, mid: seq<byte>)
    requires Paintable(s, r) && r.Copy? && steps < r.h && Painting(s, now, r, steps, bottomUp)
    requires if bottomUp then r.srcY <= r.y else r.srcY >= r.y
    requires mid == now[r.srcY + RowInOrder(r.h, steps, bottomUp)][r.srcX * 4..r.srcX * 4 + r.w * 4]
    ensures PaintsRow(s, r, RowInOrder(r.h, steps, bottomUp), mid)
  {
    var k := RowInOrder(r.h, steps, bottomUp);
    var y := r.srcY + k;
    forall i: nat | i < r.w
      ensures PixelIn(mid, i) == PaintedPixel(s, r, r.x + i, r.y + k)
    {
      SlicePixel(now[y], r.srcX, r.w, i);
      assert !Written(y - r.y, r.h, steps, bottomUp);
      assert PixelIn(now[y], r.srcX + i) == PixelAfter(s, r, steps, bottomUp, r.srcX + i, y);
    }
  }

  /** `after` is `before`, which is `rows`, with the `w` pixels of `mid` over row `y` from column `x`. */
  ghost predicate RowWritten(before: seq<byte>, after: seq<byte>, rows: seq<seq<byte>>, x: nat, y: nat, mid: seq<byte>)
    requires y < |rows|
  {
    before == Concat(rows) && Overwrites(before, Start(rows, y) + x * 4, mid, after)
  }

  /** A pass of the Raw loop turned `rows` into `b`. */
  lemma RawStep(s: Screen, now: seq<seq<byte>>, r: Rectangle, row: nat, b: seq<byte>) returns (after: seq<seq<byte>>)
    requires Paintable(s, r) && r.Raw? && row < r.h && Painting(s, now, r, row, false)
    requires RowWritten(Concat(now), b, now, r.x, r.y + row, RowsOf(r.data, r.w * 4, r.h)[row])
    ensures b == Concat(after)
    ensures Painting(s, after, r, row + 1, false)
  {
    var mid := RowsOf(r.data, r.w * 4, r.h)[row];
    OverwritesIsSplice(Concat(now), Start(now, r.y + row) + r.x * 4, mid, b);
    after := WriteStep(s, now, r, row, false, mid);
  }

  /** A pass of the CopyRect loop turned `rows` into `b`. */
  lemma CopyStep(s: Screen, now: seq<seq<byte>>, r: Rectangle, steps: nat, bottomUp: bool, mid: seq<byte>, b: seq<byte>)
    returns (after: seq<seq<byte>>)
    requires Paintable(s, r) && r.Copy? && steps < r.h && Painting(s, now, r, steps, bottomUp)
    requires if bottomUp then r.srcY <= r.y else r.srcY >= r.y
    requires mid == now[r.srcY + RowInOrder(r.h, steps, bottomUp)][r.srcX * 4..r.srcX * 4 + r.w * 4]
    requires RowWritten(Concat(now), b, now, r.x, r.y + RowInOrder(r.h, steps, bottomUp), mid)
    ensures b == Concat(after)
    ensures Painting(s, after, r, steps + 1, bottomUp)
  {
    var k := RowInOrder(r.h, steps, bottomUp);
    CopySource(s, now, r, steps, bottomUp, mid);
    OverwritesIsSplice(Concat(now), Start(now, r.y + k) + r.x * 4, mid, b);
    after := WriteStep(s, now, r, steps, bottomUp, mid);
  }

  /** Once every row is written, the frame is what the protocol says `r` paints. */
  lemma PaintingDone(s: Screen, now: seq<seq<byte>>, r: Rectangle, bottomUp: bool)
    requires Paintable(s, r) && Painting(s, now, r, r.h, bottomUp)
    ensures |Concat(now)| == Span(s.height, s.width * 4)
    ensures ScreenOf(Concat(now), s.width, s.height) == Paint(s, r)
  {
    var painted, done := Paint(s, r), ScreenOfRows(now, s.width);
    RowsUnique(now, s.width * 4);
    forall x: nat, y: nat | x < s.width && y < s.height
      ensures done.At(x, y) == painted.At(x, y)
    {
      ScreenOfRowsAt(now, s.width, x, y);
      PaintAt(s, r, x, y);
      assert PixelIn(now[y], x) == PixelAfter(s, r, r.h, bottomUp, x, y);
      if !Written(y - r.y, r.h, r.h, bottomUp) {
        assert !Inside(x, y, r.x, r.y, r.w, r.h);
      }
    }
    SameScreen(done, painted);
  }

  /** The offset of pixel `x` of row `y`, as the row loops compute it, is where `w` pixels of that row lie. */
  method OffsetOf(ghost rows: seq<seq<byte>>, stride: nat, x: nat, y: nat, ghost w: nat) returns (at: nat)
    requires RowsOfLength(rows, stride) && y < |rows| && x * 4 + w * 4 <= stride
    ensures at == Start(rows, y) + x * 4
    ensures at + w * 4 <= |Concat(rows)|
    ensures Concat(rows)[at..at + w * 4] == rows[y][x * 4..x * 4 + w * 4]
  {
    StartIs(rows, stride, y);
    SpanIs(y, stride);
    ReadInRow(rows, y, x * 4, w * 4);
    at := y * stride + x * 4;
  }

  // --- Buffer.copy ---

  /** Copies between two buffers; every byte it touches is in bounds. */
  method CopyBytes(target: array<byte>, targetStart: nat, source: seq<byte>, sourceStart: nat, sourceEnd: nat)
    requires sourceStart <= sourceEnd <= |source| && targetStart + (sourceEnd - sourceStart) <= target.Length
    modifies target
    ensures Overwrites(old(target[..]), targetStart, source[sourceStart..sourceEnd], target[..])
  {
    forall k | 0 <= k < sourceEnd - sourceStart {
      target[targetStart + k] := source[sourceStart + k];
    }
  }

  /** Copies inside one buffer: the ranges may overlap, and the old bytes are what is copied. */
  method CopyWithin(buffer: array<byte>, targetStart: nat, sourceStart: nat, sourceEnd: nat, ghost mid: seq<byte>)
    requires sourceStart <= sourceEnd <= buffer.Length && targetStart + (sourceEnd - sourceStart) <= buffer.Length
    requires mid == buffer[sourceStart..sourceEnd]
    modifies buffer
    ensures Overwrites(old(buffer[..]), targetStart, mid, buffer[..])
  {
    forall k | 0 <= k < sourceEnd - sourceStart {
      buffer[targetStart + k] := buffer[sourceStart + k];
    }
  }

  /** An owned copy of a frame, with its paint counter. */
  datatype Snapshot = Snapshot(width: nat, height: nat, buffer: seq<byte>, seqNo: nat) {
    ghost predicate Valid() {
      |buffer| == Span(height, width * 4)
    }

    ghost function View(): (s: Screen)
      requires Valid()
      ensures s.Valid() && s.width == width && s.height == height
    {
      ScreenOf(buffer, width, height)
    }
  }

  class Framebuffer {
    var width: nat
    var height: nat
    var buffer: array<byte>
    var updateSeq: nat

    ghost predicate Valid()
      reads this
    {
      buffer.Length == Span(height, width * 4)
    }

    ghost function View(): (s: Screen)
      requires Valid()
      reads this, buffer
      ensures s.Valid() && s.width == width && s.height == height
    {
      ScreenOf(buffer[..], width, height)
    }

    constructor (width: nat, height: nat)
      ensures Valid() && fresh(buffer)
      ensures View() == Blank(width, height) && updateSeq == 0
    {
      this.width, this.height, this.updateSeq := width, height, 0;
      SpanIs(height, width * 4);
      this.buffer := new byte[height * (width * 4)](_ => 0);
      new;
      BlankBuffer(buffer[..], width, height);
    }

    method TakeSnapshot() returns (snapshot: Snapshot)
      requires Valid()
      ensures snapshot.Valid() && snapshot.View() == View() && snapshot.seqNo == updateSeq
    {
      snapshot := Snapshot(width, height, buffer[..], updateSeq);
    }

    /** Puts row `k` of a Raw rectangle's data at column `x` of row `y`. */
    method WriteRow(x: nat, y: nat, w: nat, data: seq<byte>, k: nat, h: nat, ghost rows: seq<seq<byte>>)
      requires |data| == Span(h, w * 4) && k < h
      requires RowsOfLength(rows, width * 4) && y < |rows| && x + w <= width && buffer[..] == Concat(rows)
      modifies buffer
      ensures RowWritten(old(buffer[..]), buffer[..], rows, x, y, RowsOf(data, w * 4, h)[k])
    {
      RowsOfConcat(data, w * 4, h);
      var src := OffsetOf(RowsOf(data, w * 4, h), w * 4, 0, k, w);
      var dst := OffsetOf(rows, width * 4, x, y, w);
      CopyBytes(buffer, dst, data, src, src + w * 4);
    }

    /** Copies `w` pixels of row `srcY` over row `dstY`. */
    method MoveRow(dstX: nat, dstY: nat, w: nat, srcX: nat, srcY: nat, ghost rows: seq<seq<byte>>)
      returns (ghost mid: seq<byte>)
      requires RowsOfLength(rows, width * 4) && buffer[..] == Concat(rows)
      requires dstY < |rows| && srcY < |rows| && dstX + w <= width && srcX + w <= width
      modifies buffer
      ensures mid == rows[srcY][srcX * 4..srcX * 4 + w * 4]
      ensures RowWritten(old(buffer[..]), buffer[..], rows, dstX, dstY, mid)
    {
      var src := OffsetOf(rows, width * 4, srcX, srcY, w);
      var dst := OffsetOf(rows, width * 4, dstX, dstY, w);
      mid := rows[srcY][srcX * 4..srcX * 4 + w * 4];
      CopyWithin(buffer, dst, src, src + w * 4, mid);
    }

    method ApplyRaw(x: nat, y: nat, w: nat, h: nat, data: seq<byte>)
      requires Valid() && RectFits(width, height, Raw(x, y, w, h, data))
      modifies this`updateSeq, buffer
      ensures Valid()
      ensures View() == Paint(old(View()), Raw(x, y, w, h, data))
      ensures updateSeq == old(updateSeq) + 1
    {
      var stride := width * 4;
      ghost var r, screen := Raw(x, y, w, h, data), View();
      ghost var rows := RowsOf(buffer[..], stride, height);
      RowsOfConcat(buffer[..], stride, height);
      PaintingStarts(rows, width, r, false);
      var row := 0;
      while row < h
        modifies buffer
        invariant 0 <= row <= h
        invariant buffer[..] == Concat(rows)
        invariant Painting(screen, rows, r, row, false)
      {
        WriteRow(x, y + row, w, data, row, h, rows);
        rows := RawStep(screen, rows, r, row, buffer[..]);
        row := row + 1;
      }
      PaintingDone(screen, rows, r, false);
      updateSeq := updateSeq + 1;
    }

    /** Blits a rectangle inside the frame, in the row order that reads every source row before writing it. */
    method ApplyCopyRect(dstX: nat, dstY: nat, w: nat, h: nat, srcX: nat, srcY: nat)
      requires Valid() && RectFits(width, height, Copy(dstX, dstY, w, h, srcX, srcY))
      modifies this`updateSeq, buffer
      ensures Valid()
      ensures View() == Paint(old(View()), Copy(dstX, dstY, w, h, srcX, srcY))
      ensures updateSeq == old(updateSeq) + 1
    {
      var stride := width * 4;
      var bottomUp := srcY < dstY || (srcY == dstY && srcX < dstX);
      ghost var r, screen := Copy(dstX, dstY, w, h, srcX, srcY), View();
      ghost var rows := RowsOf(buffer[..], stride, height);
      RowsOfConcat(buffer[..], stride, height);
      PaintingStarts(rows, width, r, bottomUp);
      var i := 0;
      while i < h
        modifies buffer
        invariant 0 <= i <= h
        invariant buffer[..] == Concat(rows)
        invariant Painting(screen, rows, r, i, bottomUp)
      {
        var row := RowInOrder(h, i, bottomUp);
        ghost var mid := MoveRow(dstX, dstY + row, w, srcX, srcY + row, rows);
        rows := CopyStep(screen, rows, r, i, bottomUp, mid, buffer[..]);
        i := i + 1;
      }
      PaintingDone(screen, rows, r, bottomUp);
      updateSeq := updateSeq + 1;
    }

    /** DesktopSize: a new blank surface. */
    method Resize(width: nat, height: nat)
      requires Valid()
      modifies this
      ensures Valid() && fresh(buffer)
      ensures View() == Blank(width, height)
      ensures updateSeq == old(updateSeq) + 1
    {
      SpanIs(height, width * 4);
      this.width, this.height := width, height;
      this.buffer := new byte[height * (width * 4)](_ => 0);
      BlankBuffer(buffer[..], width, height);
      updateSeq := updateSeq + 1;
    }
  }
}
