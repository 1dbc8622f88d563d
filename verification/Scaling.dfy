/** Scaling a snapshot up, and how it goes with cropping. */
module Scaling {
  import opened Bytes
  import opened Screens
  import opened Framebuffers
  import opened Geometry

  // --- Repetition ---

  function Repeat<T>(x: T, n: nat): (s: seq<T>)
    ensures |s| == n
    ensures forall i :: 0 <= i < n ==> s[i] == x
  {
    if n == 0 then [] else Repeat(x, n - 1) + [x]
  }

  /** Every element `k` times, in order. */
  function Stretch<T>(s: seq<T>, k: nat): (t: seq<T>)
    ensures |t| == Span(|s|, k)
  {
    if s == [] then [] else Stretch(s[..|s| - 1], k) + Repeat(s[|s| - 1], k)
  }

  /** The block of `k` that index `i` lies in, counted a block at a time. */
  function Block(i: nat, k: nat): nat
    requires k > 0
    decreases i
  {
    if i < k then 0 else 1 + Block(i - k, k)
  }

  lemma {:induction false} BlockOf(i: nat, n: nat, k: nat)
    requires k > 0 && Span(n, k) <= i < Span(n, k) + k
    ensures Block(i, k) == n
    decreases n
  {
    if n != 0 {
      BlockOf(i - k, n - 1, k);
    }
  }

  lemma BlockIs(i: nat, k: nat)
    requires k > 0
    ensures Block(i, k) == i / k
  {
    assert i == i / k * k + i % k;
    SpanIs(i / k, k);
    BlockOf(i, i / k, k);
  }

  lemma {:induction false} StretchAt<T>(s: seq<T>, k: nat, i: nat)
    requires k > 0 && i < Span(|s|, k)
    ensures Block(i, k) < |s| && Stretch(s, k)[i] == s[Block(i, k)]
  {
    var n := |s| - 1;
    if i < Span(n, k) {
      StretchAt(s[..n], k, i);
    } else {
      BlockOf(i, n, k);
    }
  }

  // --- The scaled frame ---

  /** A row as its pixels' four bytes each. */
  ghost function Groups(row: seq<byte>, width: nat): (g: seq<seq<byte>>)
    requires |row| == width * 4
    ensures |g| == width && RowsOfLength(g, 4)
  {
    SpanIs(width, 4);
    RowsOf(row, 4, width)
  }

  ghost function StretchRow(row: seq<byte>, width: nat, k: nat): seq<byte>
    requires |row| == width * 4
  {
    Concat(Stretch(Groups(row, width), k))
  }

  /** Every row stretched, once. */
  ghost function StretchRows(rows: seq<seq<byte>>, width: nat, k: nat): (out: seq<seq<byte>>)
    requires RowsOfLength(rows, width * 4)
    ensures |out| == |rows|
    ensures forall y :: 0 <= y < |rows| ==> out[y] == StretchRow(rows[y], width, k)
  {
    if rows == [] then [] else [StretchRow(rows[0], width, k)] + StretchRows(rows[1..], width, k)
  }

  lemma {:induction false} BlockInside(i: nat, n: nat, k: nat)
    requires k > 0 && i < Span(n, k)
    ensures Block(i, k) < n
    decreases n
  {
    if i >= k {
      BlockInside(i - k, n - 1, k);
    }
  }

  /** The pixel that `(x, y)` of the scaled screen comes from: `Block(x, k)` is `x / k`. */
  ghost function Origin(s: Screen, k: nat, x: nat, y: nat): Pixel
    requires s.Valid() && k > 0 && x < Span(s.width, k) && y < Span(s.height, k)
  {
    BlockInside(x, s.width, k);
    BlockInside(y, s.height, k);
    s.At(Block(x, k), Block(y, k))
  }

  /** `out` is `s` with every pixel repeated `k` times in both directions; `Span(n, k)` is `n * k`. */
  ghost predicate IsScaled(s: Screen, k: nat, out: Screen)
    requires s.Valid() && k > 0
  {
    && out.Valid() && out.width == Span(s.width, k) && out.height == Span(s.height, k)
    && forall x: nat, y: nat :: x < out.width && y < out.height ==> out.At(x, y) == Origin(s, k, x, y)
  }

  lemma StretchLengths(groups: seq<seq<byte>>, k: nat)
    requires RowsOfLength(groups, 4)
    ensures RowsOfLength(Stretch(groups, k), 4)
    decreases |groups|
  {
    if groups != [] {
      StretchLengths(groups[..|groups| - 1], k);
    }
  }

  lemma StretchRowLength(row: seq<byte>, width: nat, k: nat)
    requires |row| == width * 4
    ensures |StretchRow(row, width, k)| == Span(width, k) * 4
  {
    StretchLengths(Groups(row, width), k);
    ConcatLength(Stretch(Groups(row, width), k), 4);
    SpanIs(Span(width, k), 4);
  }

  lemma GroupPixel(row: seq<byte>, width: nat, x: nat)
    requires |row| == width * 4 && x < width
    ensures PixelIn(row, x) == PixelOf(Groups(row, width)[x], 0)
  {
    var g := Groups(row, width);
    SpanIs(width, 4);
    RowsOfConcat(row, 4, width);
    ReadInRow(g, x, 0, 4);
    StartIs(g, 4, x);
    SpanIs(x, 4);
    assert row[x * 4..x * 4 + 4] == g[x][0..4] == g[x];
  }

  lemma StretchedPixel(row: seq<byte>, width: nat, k: nat, x: nat)
    requires |row| == width * 4 && k > 0 && x < Span(width, k)
    ensures Block(x, k) < width && x * 4 + 4 <= |StretchRow(row, width, k)|
    ensures PixelIn(StretchRow(row, width, k), x) == PixelIn(row, Block(x, k))
  {
    var g := Groups(row, width);
    var s := Stretch(g, k);
    StretchAt(g, k, x);
    StretchLengths(g, k);
    ReadInRow(s, x, 0, 4);
    StartIs(s, 4, x);
    SpanIs(x, 4);
    assert Concat(s)[x * 4..x * 4 + 4] == s[x][0..4] == s[x];
    GroupPixel(row, width, Block(x, k));
  }

  lemma {:induction false} SpanAdd(a: nat, b: nat, stride: nat)
    ensures Span(a + b, stride) == Span(a, stride) + Span(b, stride)
  {
    if b != 0 {
      SpanAdd(a, b - 1, stride);
    }
  }

  lemma ScaledRows(rows: seq<seq<byte>>, width: nat, k: nat)
    requires RowsOfLength(rows, width * 4) && k > 0
    requires RowsOfLength(Stretch(StretchRows(rows, width, k), k), Span(width, k) * 4)
    ensures IsScaled(ScreenOfRows(rows, width), k,
                     ScreenOfRows(Stretch(StretchRows(rows, width, k), k), Span(width, k)))
  {
    var s, t := ScreenOfRows(rows, width), ScreenOfRows(Stretch(StretchRows(rows, width, k), k), Span(width, k));
    forall x: nat, y: nat | x < t.width && y < t.height
      ensures t.At(x, y) == Origin(s, k, x, y)
    {
      ScaledPixel(rows, width, k, x, y);
    }
  }

  /** The scaled rows show the scaled screen. */
  lemma ScaledView(rows: seq<seq<byte>>, width: nat, k: nat)
    requires RowsOfLength(rows, width * 4) && k > 0
    ensures var out, wide, high := Stretch(StretchRows(rows, width, k), k), Span(width, k), Span(|rows|, k);
            && |Concat(out)| == Span(high, wide * 4)
            && IsScaled(ScreenOfRows(rows, width), k, ScreenOf(Concat(out), wide, high))
  {
    var out := Stretch(StretchRows(rows, width, k), k);
    StretchRowsLength(rows, width, k);
    RowsUnique(out, Span(width, k) * 4);
    ScaledRows(rows, width, k);
  }

  lemma ScaledPixel(rows: seq<seq<byte>>, width: nat, k: nat, x: nat, y: nat)
    requires RowsOfLength(rows, width * 4) && k > 0 && x < Span(width, k) && y < Span(|rows|, k)
    requires RowsOfLength(Stretch(StretchRows(rows, width, k), k), Span(width, k) * 4)
    ensures ScreenOfRows(Stretch(StretchRows(rows, width, k), k), Span(width, k)).At(x, y)
            == Origin(ScreenOfRows(rows, width), k, x, y)
  {
    var lines := StretchRows(rows, width, k);
    StretchAt(lines, k, y);
    StretchedPixel(rows[Block(y, k)], width, k, x);
    ScreenOfRowsAt(Stretch(lines, k), Span(width, k), x, y);
    ScreenOfRowsAt(rows, width, Block(x, k), Block(y, k));
  }

  lemma StretchRowsLength(rows: seq<seq<byte>>, width: nat, k: nat)
    requires RowsOfLength(rows, width * 4) && k > 0
    ensures RowsOfLength(Stretch(StretchRows(rows, width, k), k), Span(width, k) * 4)
  {
    var lines := StretchRows(rows, width, k);
    forall i | 0 <= i < |Stretch(lines, k)|
      ensures |Stretch(lines, k)[i]| == Span(width, k) * 4
    {
      StretchAt(lines, k, i);
      StretchRowLength(rows[Block(i, k)], width, k);
    }
  }

  // --- Little-endian pixels ---

  function U16LE(s: seq<byte>, at: nat): (value: nat)
    requires at + 2 <= |s|
    ensures value < 0x1_0000
  {
    s[at] as nat + 0x100 * s[at + 1] as nat
  }

  function U32LE(s: seq<byte>, at: nat): (value: nat)
    requires at + 4 <= |s|
    ensures value < 0x1_0000_0000
  {
    U16LE(s, at) + 0x1_0000 * U16LE(s, at + 2)
  }

  function PutU16LE(value: nat): (s: seq<byte>)
    requires value < 0x1_0000
    ensures |s| == 2
  {
    [(value % 0x100) as byte, (value / 0x100) as byte]
  }

  function PutU32LE(value: nat): (s: seq<byte>)
    requires value < 0x1_0000_0000
    ensures |s| == 4
  {
    PutU16LE(value % 0x1_0000) + PutU16LE(value / 0x1_0000)
  }

  /** Writing back the number read writes back the bytes. */
  lemma ReadThenWrite(s: seq<byte>, at: nat)
    requires at + 4 <= |s|
    ensures PutU32LE(U32LE(s, at)) == s[at..at + 4]
  {
    assert U32LE(s, at) % 0x1_0000 == U16LE(s, at) && U32LE(s, at) / 0x1_0000 == U16LE(s, at + 2);
    assert PutU16LE(U16LE(s, at)) == s[at..at + 2] && PutU16LE(U16LE(s, at + 2)) == s[at + 2..at + 4];
  }

  method WriteU16LE(buffer: array<byte>, value: nat, at: nat)
    requires value < 0x1_0000 && at + 2 <= buffer.Length
    modifies buffer
    ensures buffer[..at + 2] == old(buffer[..at]) + PutU16LE(value)
  {
    buffer[at] := (value % 0x100) as byte;
    buffer[at + 1] := (value / 0x100) as byte;
  }

  method WriteU32LE(buffer: array<byte>, value: nat, at: nat)
    requires value < 0x1_0000_0000 && at + 4 <= buffer.Length
    modifies buffer
    ensures buffer[..at + 4] == old(buffer[..at]) + PutU32LE(value)
  {
    WriteU16LE(buffer, value % 0x1_0000, at);
    WriteU16LE(buffer, value / 0x1_0000, at + 2);
  }

  // --- Scaling in place ---

  /** Writes one pixel `factor` times from `dst` on. */
  method WritePixel(buffer: array<byte>, pixel: nat, dst: nat, factor: nat)
    requires pixel < 0x1_0000_0000 && dst + Span(factor, 4) <= buffer.Length
    modifies buffer
    ensures buffer[..dst + Span(factor, 4)] == old(buffer[..dst]) + Concat(Repeat(PutU32LE(pixel), factor))
  {
    ghost var head := buffer[..dst];
    var at, i := dst, 0;
    while i < factor
      invariant 0 <= i <= factor && at == dst + Span(i, 4) <= buffer.Length
      invariant buffer[..at] == head + Concat(Repeat(PutU32LE(pixel), i))
    {
      SpanGrows(i + 1, factor, 4);
      WriteU32LE(buffer, pixel, at);
      ConcatPush(Repeat(PutU32LE(pixel), i), PutU32LE(pixel));
      at := at + 4;
      i := i + 1;
    }
  }

  lemma StretchPush<T>(s: seq<T>, x: nat, k: nat)
    requires x < |s|
    ensures Stretch(s[..x + 1], k) == Stretch(s[..x], k) + Repeat(s[x], k)
  {
    assert s[..x + 1][..x] == s[..x];
  }

  /** Reads one pixel of a row and writes it `factor` times. */
  method StretchPixel(frame: Snapshot, x: nat, y: nat, factor: nat, buffer: array<byte>, dst: nat,
                      ghost rows: seq<seq<byte>>)
    requires RowsOfLength(rows, frame.width * 4) && frame.buffer == Concat(rows)
    requires x < frame.width && y < |rows| && dst + Span(factor, 4) <= buffer.Length
    modifies buffer
    ensures buffer[..dst + Span(factor, 4)]
            == old(buffer[..dst]) + Concat(Repeat(Groups(rows[y], frame.width)[x], factor))
  {
    var src := OffsetOf(rows, frame.width * 4, x, y, 1);
    var pixel := U32LE(frame.buffer, src);
    ReadThenWrite(frame.buffer, src);
    GroupIs(rows[y], frame.width, x);
    WritePixel(buffer, pixel, dst, factor);
  }

  lemma GroupIs(row: seq<byte>, width: nat, x: nat)
    requires |row| == width * 4 && x < width
    ensures Groups(row, width)[x] == row[x * 4..x * 4 + 4]
  {
    var g := Groups(row, width);
    SpanIs(width, 4);
    RowsOfConcat(row, 4, width);
    ReadInRow(g, x, 0, 4);
    StartIs(g, 4, x);
    SpanIs(x, 4);
    assert g[x][0..4] == g[x];
  }

  /** Where the copies of item `y` start, `stride` bytes each. */
  method FirstRow(y: nat, factor: nat, stride: nat) returns (at: nat)
    ensures at == Span(Span(y, factor), stride)
  {
    SpanIs(y, factor);
    SpanIs(y * factor, stride);
    at := y * factor * stride;
  }

  /** Puts the stretched pixel `x` of a row after those before it. */
  method StretchNext(frame: Snapshot, x: nat, y: nat, factor: nat, buffer: array<byte>, firstRow: nat,
                     ghost rows: seq<seq<byte>>, ghost head: seq<byte>)
    requires RowsOfLength(rows, frame.width * 4) && frame.buffer == Concat(rows) && x < frame.width && y < |rows|
    requires firstRow + Span(Span(x, factor), 4) <= firstRow + Span(Span(x + 1, factor), 4) <= buffer.Length
    requires var groups := Groups(rows[y], frame.width);
             buffer[..firstRow + Span(Span(x, factor), 4)] == head + Concat(Stretch(groups[..x], factor))
    modifies buffer
    ensures var groups := Groups(rows[y], frame.width);
            buffer[..firstRow + Span(Span(x + 1, factor), 4)] == head + Concat(Stretch(groups[..x + 1], factor))
  {
    ghost var groups := Groups(rows[y], frame.width);
    SpanAdd(Span(x, factor), factor, 4);
    var dst := FirstRow(x, factor, 4);
    StretchPixel(frame, x, y, factor, buffer, firstRow + dst, rows);
    ConcatStretch(groups, x, factor);
  }

  lemma ConcatStretch(groups: seq<seq<byte>>, x: nat, factor: nat)
    requires x < |groups|
    ensures Concat(Stretch(groups[..x + 1], factor))
            == Concat(Stretch(groups[..x], factor)) + Concat(Repeat(groups[x], factor))
  {
    StretchPush(groups, x, factor);
    ConcatAppend(Stretch(groups[..x], factor), Repeat(groups[x], factor));
  }

  /** Writes one stretched row from `firstRow` on. */
  method StretchLine(frame: Snapshot, y: nat, factor: nat, buffer: array<byte>, firstRow: nat,
                     ghost rows: seq<seq<byte>>)
    requires RowsOfLength(rows, frame.width * 4) && frame.buffer == Concat(rows) && y < |rows|
    requires firstRow + Span(Span(frame.width, factor), 4) <= buffer.Length
    modifies buffer
    ensures buffer[..firstRow + Span(Span(frame.width, factor), 4)]
            == old(buffer[..firstRow]) + StretchRow(rows[y], frame.width, factor)
  {
    ghost var head, groups := buffer[..firstRow], Groups(rows[y], frame.width);
    var x := 0;
    while x < frame.width
      invariant 0 <= x <= frame.width && firstRow + Span(Span(x, factor), 4) <= buffer.Length
      invariant buffer[..firstRow + Span(Span(x, factor), 4)] == head + Concat(Stretch(groups[..x], factor))
    {
      SpanGrows(Span(x, factor), Span(x + 1, factor), 4);
      SpanGrows(x + 1, frame.width, factor);
      SpanGrows(Span(x + 1, factor), Span(frame.width, factor), 4);
      StretchNext(frame, x, y, factor, buffer, firstRow, rows, head);
      x := x + 1;
    }
    assert groups[..x] == groups;
  }

  lemma LineNext(head: seq<byte>, line: seq<byte>, i: nat)
    ensures head + Concat(Repeat(line, i + 1)) == (head + Concat(Repeat(line, i))) + line
  {
    ConcatPush(Repeat(line, i), line);
  }

  /** Repeats the row at `rowStart` below itself until it is there `factor` times. */
  method DuplicateLine(buffer: array<byte>, rowStart: nat, stride: nat, factor: nat, ghost line: seq<byte>)
    requires factor > 0 && |line| == stride && rowStart + Span(factor, stride) <= buffer.Length
    requires rowStart + stride <= buffer.Length && buffer[..rowStart + stride] == buffer[..rowStart] + line
    modifies buffer
    ensures buffer[..rowStart + Span(factor, stride)] == old(buffer[..rowStart]) + Concat(Repeat(line, factor))
  {
    ghost var head := buffer[..rowStart];
    ConcatSingle(line);
    assert Repeat(line, 1) == [line];
    var i := 1;
    while i < factor
      invariant 1 <= i <= factor && rowStart + Span(i, stride) <= buffer.Length
      invariant rowStart + stride <= buffer.Length && buffer[rowStart..rowStart + stride] == line
      invariant buffer[..rowStart + Span(i, stride)] == head + Concat(Repeat(line, i))
    {
      CopyLine(buffer, rowStart, stride, i, factor, line);
      LineNext(head, line, i);
      i := i + 1;
    }
  }

  /** Copies the row at `rowStart` to `i` rows below it. */
  method CopyLine(buffer: array<byte>, rowStart: nat, stride: nat, i: nat, factor: nat, ghost line: seq<byte>)
    requires 1 <= i < factor && rowStart + Span(factor, stride) <= buffer.Length
    requires rowStart + stride <= buffer.Length && buffer[rowStart..rowStart + stride] == line
    modifies buffer
    ensures rowStart + Span(i + 1, stride) <= buffer.Length
    ensures buffer[..rowStart + Span(i + 1, stride)] == old(buffer[..rowStart + Span(i, stride)]) + line
    ensures buffer[rowStart..rowStart + stride] == line
  {
    SpanGrows(i + 1, factor, stride);
    SpanGrows(1, i, stride);
    SpanIs(i, stride);
    ghost var was := buffer[..];
    CopyWithin(buffer, rowStart + i * stride, rowStart, rowStart + stride, line);
    OverwritesExtends(was, rowStart + Span(i, stride), line, buffer[..]);
  }

  /** Writes one source row and its repetitions below the rows already written. */
  method ScaleLine(frame: Snapshot, y: nat, factor: nat, dstStride: nat, buffer: array<byte>,
                   ghost rows: seq<seq<byte>>)
    requires RowsOfLength(rows, frame.width * 4) && frame.buffer == Concat(rows) && y < |rows| && factor > 0
    requires dstStride == Span(frame.width, factor) * 4
    requires Span(Span(y, factor), dstStride) <= Span(Span(y + 1, factor), dstStride) <= buffer.Length
    modifies buffer
    ensures buffer[..Span(Span(y + 1, factor), dstStride)]
            == old(buffer[..Span(Span(y, factor), dstStride)])
               + Concat(Repeat(StretchRow(rows[y], frame.width, factor), factor))
  {
    ghost var line := StretchRow(rows[y], frame.width, factor);
    StretchRowLength(rows[y], frame.width, factor);
    SpanIs(Span(frame.width, factor), 4);
    SpanAdd(Span(y, factor), factor, dstStride);
    SpanGrows(1, factor, dstStride);
    var firstRow := FirstRow(y, factor, dstStride);
    StretchLine(frame, y, factor, buffer, firstRow, rows);
    assert buffer[..firstRow + dstStride][..firstRow] == buffer[..firstRow];
    DuplicateLine(buffer, firstRow, dstStride, factor, line);
  }

  /** Scales by two or more, row after row. */
  method ScaleRows(frame: Snapshot, factor: nat, width: nat, height: nat) returns (buffer: array<byte>)
    requires frame.Valid() && factor > 0
    requires width == Span(frame.width, factor) && height == Span(frame.height, factor)
    ensures buffer.Length == Span(height, width * 4)
    ensures IsScaled(frame.View(), factor, ScreenOf(buffer[..], width, height))
  {
    var dstStride := width * 4;
    ghost var rows := RowsOf(frame.buffer, frame.width * 4, frame.height);
    ghost var lines := StretchRows(rows, frame.width, factor);
    RowsOfConcat(frame.buffer, frame.width * 4, frame.height);
    SpanIs(height, dstStride);
    buffer := new byte[height * dstStride](_ => 0);
    var y := 0;
    while y < frame.height
      invariant 0 <= y <= frame.height && Span(Span(y, factor), dstStride) <= buffer.Length
      invariant buffer[..Span(Span(y, factor), dstStride)] == Concat(Stretch(lines[..y], factor))
    {
      SpanGrows(Span(y, factor), Span(y + 1, factor), dstStride);
      SpanGrows(y + 1, frame.height, factor);
      SpanGrows(Span(y + 1, factor), height, dstStride);
      ScaleLine(frame, y, factor, dstStride, buffer, rows);
      StretchPush(lines, y, factor);
      ConcatAppend(Stretch(lines[..y], factor), Repeat(lines[y], factor));
      y := y + 1;
    }
    assert lines[..y] == lines;
    ScaledView(rows, frame.width, factor);
    assert buffer[..] == Concat(Stretch(lines, factor));
  }

  /** A new snapshot with every pixel repeated `factor` times in both directions. */
  method ScaleFrame(frame: Snapshot, factor: int) returns (r: Result<Snapshot>)
    requires frame.Valid()
    ensures if factor < 1 then r == Failure(BadFactor(factor))
            else && r.Ok? && r.value.Valid() && r.value.seqNo == frame.seqNo
                 && r.value.width == frame.width * factor && r.value.height == frame.height * factor
                 && IsScaled(frame.View(), factor, r.value.View())
  {
    if factor < 1 { return Failure(BadFactor(factor)); }
    if factor == 1 {
      ScaledByOne(frame.View());
      return Ok(frame);
    }
    SpanIs(frame.width, factor);
    SpanIs(frame.height, factor);
    var width, height := frame.width * factor, frame.height * factor;
    var buffer := ScaleRows(frame, factor, width, height);
    r := Ok(Snapshot(width, height, buffer[..], frame.seqNo));
  }

  lemma ScaledByOne(s: Screen)
    requires s.Valid()
    ensures IsScaled(s, 1, s)
  {
    SpanIs(s.width, 1);
    SpanIs(s.height, 1);
    forall x: nat
      ensures Block(x, 1) == x
    {
      SpanIs(x, 1);
      BlockOf(x, x, 1);
    }
  }

  // --- Scaling and cropping ---

  lemma BlockShift(a: nat, i: nat, k: nat)
    requires k > 0
    ensures Block(Span(a, k) + i, k) == a + Block(i, k)
  {
    var b := Block(i, k);
    BlockSpans(i, k);
    SpanAdd(a, b, k);
    BlockOf(Span(a, k) + i, a + b, k);
  }

  lemma {:induction false} BlockSpans(i: nat, k: nat)
    requires k > 0
    ensures Span(Block(i, k), k) <= i < Span(Block(i, k), k) + k
    decreases i
  {
    if i >= k {
      BlockSpans(i - k, k);
    }
  }

  /** The area that `a` becomes in the frame scaled by `k`. */
  function ScaleArea(a: Area, k: nat): Area {
    Area(Span(a.x, k), Span(a.y, k), Span(a.w, k), Span(a.h, k))
  }

  lemma ScaledAxis(at: nat, size: nat, limit: nat, k: nat)
    requires k > 0 && size > 0 && at + size <= limit
    ensures Span(size, k) > 0 && Span(at, k) + Span(size, k) <= Span(limit, k)
  {
    SpanAdd(at, size, k);
    SpanGrows(at + size, limit, k);
  }

  lemma ScaledWithin(a: Area, width: nat, height: nat, k: nat)
    requires k > 0 && Within(a, width, height)
    ensures Within(ScaleArea(a, k), Span(width, k), Span(height, k))
  {
    ScaledAxis(a.x, a.w, width, k);
    ScaledAxis(a.y, a.h, height, k);
  }

  /** Scaling a crop shows what cropping the scaled frame by the scaled area shows, and nothing else does. */
  lemma ScaleOfCrop(s: Screen, a: Area, k: nat, cropped: Screen, scaledCrop: Screen, scaled: Screen, out: Screen)
    requires s.Valid() && k > 0 && Within(a, s.width, s.height)
    requires IsCrop(s, a, cropped) && IsScaled(cropped, k, scaledCrop) && IsScaled(s, k, scaled)
    ensures Within(ScaleArea(a, k), scaled.width, scaled.height)
    ensures IsCrop(scaled, ScaleArea(a, k), out) <==> out == scaledCrop
  {
    ScaledWithin(a, s.width, s.height, k);
    forall x: nat, y: nat | x < scaledCrop.width && y < scaledCrop.height
      ensures scaledCrop.At(x, y) == scaled.At(Span(a.x, k) + x, Span(a.y, k) + y)
    {
      BlockShift(a.x, x, k);
      BlockShift(a.y, y, k);
      BlockInside(x, a.w, k);
      BlockInside(y, a.h, k);
    }
    if IsCrop(scaled, ScaleArea(a, k), out) {
      SameScreen(out, scaledCrop);
    }
  }

  lemma RowBytes(a: seq<byte>, b: seq<byte>, width: nat)
    requires |a| == width * 4 && |b| == width * 4
    requires forall x: nat :: x < width ==> PixelIn(a, x) == PixelIn(b, x)
    ensures a == b
  {
    forall i | 0 <= i < |a|
      ensures a[i] == b[i]
    {
      assert PixelIn(a, i / 4) == PixelIn(b, i / 4);
      assert i == i / 4 * 4 + i % 4;
    }
  }

  /** Two frames of a size that show the same are byte for byte the same. */
  lemma SameBytes(p: Snapshot, q: Snapshot)
    requires p.Valid() && q.Valid() && p.View() == q.View()
    ensures p.buffer == q.buffer
  {
    var a, b := RowsOf(p.buffer, p.width * 4, p.height), RowsOf(q.buffer, q.width * 4, q.height);
    RowsOfConcat(p.buffer, p.width * 4, p.height);
    RowsOfConcat(q.buffer, q.width * 4, q.height);
    forall y | 0 <= y < p.height
      ensures a[y] == b[y]
    {
      forall x: nat | x < p.width
        ensures PixelIn(a[y], x) == PixelIn(b[y], x)
      {
        ScreenOfRowsAt(a, p.width, x, y);
        ScreenOfRowsAt(b, q.width, x, y);
      }
      RowBytes(a[y], b[y], p.width);
    }
    assert a == b;
  }
}
