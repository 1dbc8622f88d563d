/** Regions and pixels of a frame snapshot: clamping, reading, cropping and packing. */
module Geometry {
  import opened Options
  import opened Bytes
  import opened Screens
  import opened Framebuffers
  import ClientMessages

  datatype Problem =
    | EmptyFrame
    | OutsideFrame(x: int, y: int)
    | BadFactor(factor: int)
    | BadThreshold(threshold: real)

  datatype Result<+T> = Ok(value: T) | Failure(problem: Problem)

  // --- Regions ---

  /** What a caller asks for; coordinates need not be whole or inside the frame. */
  datatype Region = Region(x: real, y: real, w: real, h: real)

  /** A region of whole pixels. */
  datatype Area = Area(x: nat, y: nat, w: nat, h: nat)

  predicate Within(a: Area, width: nat, height: nat) {
    a.w > 0 && a.h > 0 && a.x + a.w <= width && a.y + a.h <= height
  }

  /** The whole part, towards zero. */
  function Trunc(r: real): int {
    if r >= 0.0 then r.Floor else -(-r).Floor
  }

  function Min(a: int, b: int): int { if a < b then a else b }

  function Max(a: int, b: int): int { if a > b then a else b }

  function ClampRegion(width: nat, height: nat, region: Option<Region>): (r: Result<Area>)
    ensures r.Failure? <==> width == 0 || height == 0
    ensures r.Ok? ==> Within(r.value, width, height)
  {
    if width == 0 || height == 0 then Failure(EmptyFrame)
    else if region.None? then Ok(Area(0, 0, width, height))
    else
      var x := Max(0, Min(width - 1, Trunc(region.value.x)));
      var y := Max(0, Min(height - 1, Trunc(region.value.y)));
      var w := Max(1, Min(width - x, Trunc(region.value.w)));
      var h := Max(1, Min(height - y, Trunc(region.value.h)));
      Ok(Area(x, y, w, h))
  }

  function RegionOf(a: Area): Region {
    Region(a.x as real, a.y as real, a.w as real, a.h as real)
  }

  /** Clamping changes an area exactly when it does not lie within the frame. */
  lemma ClampKeeps(width: nat, height: nat, a: Area)
    ensures ClampRegion(width, height, Some(RegionOf(a))) == Ok(a) <==> Within(a, width, height)
  {
  }

  /** `r` is the value between `low` and `high` nearest to `v`. */
  predicate Nearest(low: int, high: int, v: int, r: int) {
    && low <= r <= high
    && (v < low ==> r == low) && (low <= v <= high ==> r == v) && (v > high ==> r == high)
  }

  /** `n` is `r` without its fraction. */
  predicate IsTrunc(r: real, n: int) {
    if r >= 0.0 then n as real <= r < n as real + 1.0 else n as real - 1.0 < r <= n as real
  }

  /**
   * No region is the whole frame; any other starts at the point of the frame
   * nearest to its own start, and has the size nearest to its own that fits there.
   */
  lemma ClampNearest(width: nat, height: nat, region: Region, x: int, y: int, w: int, h: int)
    requires width > 0 && height > 0
    requires IsTrunc(region.x, x) && IsTrunc(region.y, y) && IsTrunc(region.w, w) && IsTrunc(region.h, h)
    ensures ClampRegion(width, height, None) == Ok(Area(0, 0, width, height))
    ensures var r := ClampRegion(width, height, Some(region));
            && r.Ok?
            && Nearest(0, width - 1, x, r.value.x) && Nearest(0, height - 1, y, r.value.y)
            && Nearest(1, width - r.value.x, w, r.value.w) && Nearest(1, height - r.value.y, h, r.value.h)
  {
    TruncIs(region.x, x);
    TruncIs(region.y, y);
    TruncIs(region.w, w);
    TruncIs(region.h, h);
  }

  lemma TruncIs(r: real, n: int)
    requires IsTrunc(r, n)
    ensures Trunc(r) == n
  {
  }

  // --- One pixel ---

  datatype Rgb = Rgb(red: byte, green: byte, blue: byte)

  function Colour(p: Pixel): Rgb {
    Rgb(p.red, p.green, p.blue)
  }

  /** Where the negotiated pixel format's shifts of 16, 8 and 0 bits put each channel. */
  const RED_OFFSET := 2
  const GREEN_OFFSET := 1
  const BLUE_OFFSET := 0

  /** The colour of the four bytes at an offset. */
  function ColourAt(buffer: seq<byte>, offset: nat): (c: Rgb)
    requires offset + 4 <= |buffer|
    ensures c == Colour(PixelOf(buffer, offset))
  {
    Rgb(buffer[offset + RED_OFFSET], buffer[offset + GREEN_OFFSET], buffer[offset + BLUE_OFFSET])
  }

  lemma LittleEndian(a: int, b: int, c: int, d: int)
    requires 0 <= a < 256 && 0 <= b < 256 && 0 <= c < 256 && 0 <= d < 256
    ensures var v := a + 256 * b + 65536 * c + 16777216 * d;
            v / 65536 % 256 == c && v / 256 % 256 == b && v % 256 == a
  {
    var v := a + 256 * b + 65536 * c + 16777216 * d;
    assert v / 65536 == c + 256 * d && v / 256 == b + 256 * (c + 256 * d);
  }

  /**
   * Each channel is found where the pixel format asked for puts it: a pixel is
   * a little-endian number of 32 bits, and red, green and blue are the low
   * eight bits of what is left of it after a shift by 16, 8 and 0.
   */
  lemma ChannelsOf(buffer: seq<byte>, offset: nat)
    requires offset + 4 <= |buffer|
    ensures var format := ClientMessages.PIXEL_FORMAT;
            format[0] == 32 && format[2] == 0 && format[10] == 16 && format[11] == 8 && format[12] == 0
    ensures var v := buffer[offset] as int + 256 * buffer[offset + 1] as int + 65536 * buffer[offset + 2] as int
                     + 16777216 * buffer[offset + 3] as int;
            && ColourAt(buffer, offset).red as int == v / 65536 % 256
            && ColourAt(buffer, offset).green as int == v / 256 % 256
            && ColourAt(buffer, offset).blue as int == v % 256
  {
    LittleEndian(buffer[offset] as int, buffer[offset + 1] as int, buffer[offset + 2] as int,
                 buffer[offset + 3] as int);
  }

  /** The colour at a point, read from the flat buffer. */
  method PixelAtPoint(frame: Snapshot, x: int, y: int) returns (r: Result<Rgb>)
    requires frame.Valid()
    ensures if 0 <= x < frame.width && 0 <= y < frame.height
            then r == Ok(Colour(frame.View().At(x, y)))
            else r == Failure(OutsideFrame(x, y))
  {
    if x < 0 || y < 0 || x >= frame.width || y >= frame.height { return Failure(OutsideFrame(x, y)); }
    var offset := (y * frame.width + x) * 4;
    PixelAt(frame.buffer, frame.width, frame.height, x, y);
    r := Ok(ColourAt(frame.buffer, offset));
  }

  // --- Cropping ---

  /** The `n` rows of `w` pixels from column `x` of row `y` down. */
  ghost function CropRows(rows: seq<seq<byte>>, x: nat, y: nat, w: nat, n: nat): (out: seq<seq<byte>>)
    requires y + n <= |rows| && forall k :: 0 <= k < |rows| ==> x * 4 + w * 4 <= |rows[k]|
    ensures |out| == n && RowsOfLength(out, w * 4)
  {
    if n == 0 then [] else CropRows(rows, x, y, w, n - 1) + [rows[y + n - 1][x * 4..x * 4 + w * 4]]
  }

  /** `out` is the part of `s` that `a` covers. */
  ghost predicate IsCrop(s: Screen, a: Area, out: Screen)
    requires s.Valid() && Within(a, s.width, s.height)
  {
    && out.Valid() && out.width == a.w && out.height == a.h
    && forall x: nat, y: nat :: x < a.w && y < a.h ==> out.At(x, y) == s.At(a.x + x, a.y + y)
  }

  lemma {:induction false} CropRowsAt(rows: seq<seq<byte>>, x: nat, y: nat, w: nat, n: nat, k: nat)
    requires y + n <= |rows| && k < n && forall k :: 0 <= k < |rows| ==> x * 4 + w * 4 <= |rows[k]|
    ensures CropRows(rows, x, y, w, n)[k] == rows[y + k][x * 4..x * 4 + w * 4]
  {
    if k < n - 1 {
      CropRowsAt(rows, x, y, w, n - 1, k);
    }
  }

  lemma CropBytes(rows: seq<seq<byte>>, width: nat, a: Area, out: seq<seq<byte>>, x: nat, y: nat)
    requires RowsOfLength(rows, width * 4) && Within(a, width, |rows|) && x < a.w && y < a.h
    requires out == CropRows(rows, a.x, a.y, a.w, a.h)
    ensures PixelIn(out[y], x) == PixelIn(rows[a.y + y], a.x + x)
  {
    CropRowsAt(rows, a.x, a.y, a.w, a.h, y);
    PiecePixel(rows[a.y + y], a.x, a.w, out[y], x);
  }

  lemma CroppedRows(rows: seq<seq<byte>>, width: nat, a: Area, out: seq<seq<byte>>)
    requires RowsOfLength(rows, width * 4) && Within(a, width, |rows|)
    requires out == CropRows(rows, a.x, a.y, a.w, a.h)
    ensures IsCrop(ScreenOfRows(rows, width), a, ScreenOfRows(out, a.w))
  {
    forall x: nat, y: nat | x < a.w && y < a.h
      ensures ScreenOfRows(out, a.w).At(x, y) == ScreenOfRows(rows, width).At(a.x + x, a.y + y)
    {
      CroppedPixel(rows, width, a, out, x, y);
    }
  }

  lemma CroppedPixel(rows: seq<seq<byte>>, width: nat, a: Area, out: seq<seq<byte>>, x: nat, y: nat)
    requires RowsOfLength(rows, width * 4) && Within(a, width, |rows|)
    requires out == CropRows(rows, a.x, a.y, a.w, a.h) && x < a.w && y < a.h
    ensures ScreenOfRows(out, a.w).At(x, y) == ScreenOfRows(rows, width).At(a.x + x, a.y + y)
  {
    CropBytes(rows, width, a, out, x, y);
    SameAt(out, a.w, x, y, rows, width, a.x + x, a.y + y);
  }

  lemma CropView(rows: seq<seq<byte>>, width: nat, a: Area)
    requires RowsOfLength(rows, width * 4) && Within(a, width, |rows|)
    ensures var out := CropRows(rows, a.x, a.y, a.w, a.h);
            && |Concat(out)| == Span(a.h, a.w * 4)
            && IsCrop(ScreenOfRows(rows, width), a, ScreenOf(Concat(out), a.w, a.h))
  {
    var out := CropRows(rows, a.x, a.y, a.w, a.h);
    RowsUnique(out, a.w * 4);
    CroppedRows(rows, width, a, out);
  }

  /** `mid` is written after the first `at` bytes; what comes after it does not matter yet. */
  ghost predicate Extended(before: seq<byte>, at: nat, mid: seq<byte>, after: seq<byte>) {
    && at + |mid| <= |before| == |after|
    && after[..at + |mid|] == before[..at] + mid
  }

  lemma OverwritesExtends(before: seq<byte>, at: nat, mid: seq<byte>, after: seq<byte>)
    requires Overwrites(before, at, mid, after)
    ensures Extended(before, at, mid, after)
  {
  }

  /** Copies `w` pixels of row `y` to `at`, the end of what is written so far. */
  method AppendPixels(frame: Snapshot, x: nat, y: nat, w: nat, buffer: array<byte>, at: nat, ghost rows: seq<seq<byte>>)
    requires RowsOfLength(rows, frame.width * 4) && frame.buffer == Concat(rows)
    requires x + w <= frame.width && y < |rows| && at + w * 4 <= buffer.Length
    modifies buffer
    ensures buffer[..at + w * 4] == old(buffer[..at]) + rows[y][x * 4..x * 4 + w * 4]
  {
    ghost var was := buffer[..];
    var src := OffsetOf(rows, frame.width * 4, x, y, w);
    CopyBytes(buffer, at, frame.buffer, src, src + w * 4);
    OverwritesExtends(was, at, rows[y][x * 4..x * 4 + w * 4], buffer[..]);
  }

  /** Copies one row of the area after the rows copied before it. */
  method CropRow(frame: Snapshot, a: Area, row: nat, buffer: array<byte>, ghost rows: seq<seq<byte>>)
    requires RowsOfLength(rows, frame.width * 4) && frame.buffer == Concat(rows)
    requires Within(a, frame.width, |rows|) && row < a.h && Span(row + 1, a.w * 4) <= buffer.Length
    requires buffer[..Span(row, a.w * 4)] == Concat(CropRows(rows, a.x, a.y, a.w, row))
    modifies buffer
    ensures buffer[..Span(row + 1, a.w * 4)] == Concat(CropRows(rows, a.x, a.y, a.w, row + 1))
  {
    var rowBytes := a.w * 4;
    SpanIs(row, rowBytes);
    AppendPixels(frame, a.x, a.y + row, a.w, buffer, row * rowBytes, rows);
    ConcatPush(CropRows(rows, a.x, a.y, a.w, row), rows[a.y + row][a.x * 4..a.x * 4 + a.w * 4]);
  }

  lemma {:induction false} SpanGrows(m: nat, n: nat, stride: nat)
    requires m <= n
    ensures Span(m, stride) <= Span(n, stride)
  {
    if m < n {
      SpanGrows(m, n - 1, stride);
    }
  }

  /** A new snapshot holding one region. */
  method CropFrame(frame: Snapshot, region: Region) returns (r: Result<Snapshot>)
    requires frame.Valid()
    ensures match ClampRegion(frame.width, frame.height, Some(region))
            case Failure(p) => r == Failure(p)
            case Ok(a) =>
              && r.Ok? && r.value.Valid() && r.value.seqNo == frame.seqNo
              && r.value.width == a.w && r.value.height == a.h
              && IsCrop(frame.View(), a, r.value.View())
  {
    var clamped := ClampRegion(frame.width, frame.height, Some(region));
    if clamped.Failure? { return Failure(clamped.problem); }
    var a := clamped.value;
    ghost var rows := RowsOf(frame.buffer, frame.width * 4, frame.height);
    RowsOfConcat(frame.buffer, frame.width * 4, frame.height);
    SpanIs(a.h, a.w * 4);
    var buffer := new byte[a.h * (a.w * 4)](_ => 0);
    var row := 0;
    while row < a.h
      invariant 0 <= row <= a.h
      invariant Span(row, a.w * 4) <= buffer.Length
      invariant buffer[..Span(row, a.w * 4)] == Concat(CropRows(rows, a.x, a.y, a.w, row))
    {
      SpanGrows(row + 1, a.h, a.w * 4);
      CropRow(frame, a, row, buffer, rows);
      row := row + 1;
    }
    CropView(rows, frame.width, a);
    r := Ok(Snapshot(a.w, a.h, buffer[..], frame.seqNo));
    assert r.value.buffer == Concat(CropRows(rows, a.x, a.y, a.w, a.h));
  }

  // --- Packing ---

  /** Red, green and blue, and an opaque alpha if there is room for it. */
  function PackPixel(p: Pixel, channels: nat): (out: seq<byte>)
    requires channels == 3 || channels == 4
    ensures |out| == channels
  {
    [p.red, p.green, p.blue] + if channels == 4 then [255] else []
  }

  /** PNG's channel order, whatever the order in memory. */
  lemma PackedOrder(b: seq<byte>, at: nat)
    requires at + 4 <= |b|
    ensures var c := ColourAt(b, at);
            && PackPixel(PixelOf(b, at), 3) == [c.red, c.green, c.blue]
            && PackPixel(PixelOf(b, at), 4) == [c.red, c.green, c.blue, 255]
  {
  }

  /** The first `n` pixels of a buffer, packed. */
  ghost function PackPixels(b: seq<byte>, n: nat, channels: nat): (out: seq<seq<byte>>)
    requires (channels == 3 || channels == 4) && n * 4 <= |b|
    ensures |out| == n && RowsOfLength(out, channels)
  {
    if n == 0 then [] else PackPixels(b, n - 1, channels) + [PackPixel(PixelOf(b, (n - 1) * 4), channels)]
  }

  lemma {:induction false} PackPixelsAt(b: seq<byte>, n: nat, channels: nat, k: nat)
    requires (channels == 3 || channels == 4) && n * 4 <= |b| && k < n
    ensures PackPixels(b, n, channels)[k] == PackPixel(PixelOf(b, k * 4), channels)
  {
    if k < n - 1 {
      PackPixelsAt(b, n - 1, channels, k);
    }
  }

  /** Packs the pixel at `offset` to `dst`. */
  method PackOne(src: seq<byte>, offset: nat, out: array<byte>, dst: nat, channels: nat)
    requires (channels == 3 || channels == 4) && offset + 4 <= |src| && dst + channels <= out.Length
    modifies out
    ensures out[..dst + channels] == old(out[..dst]) + PackPixel(PixelOf(src, offset), channels)
  {
    out[dst] := src[offset + RED_OFFSET];
    out[dst + 1] := src[offset + GREEN_OFFSET];
    out[dst + 2] := src[offset + BLUE_OFFSET];
    if channels == 4 { out[dst + 3] := 255; }
  }

  lemma PixelCount(width: nat, height: nat)
    ensures Span(height, width * 4) == width * height * 4
  {
    SpanIs(height, width * 4);
    assert height * (width * 4) == width * height * 4;
  }

  /** One pass of the packing loop has room for its pixel. */
  lemma PackRoom(i: nat, n: nat, channels: nat)
    requires i < n
    ensures i * channels + channels == (i + 1) * channels <= n * channels
  {
  }

  lemma PackNext(src: seq<byte>, i: nat, channels: nat)
    requires (channels == 3 || channels == 4) && i * 4 + 4 <= |src|
    ensures Concat(PackPixels(src, i + 1, channels))
            == Concat(PackPixels(src, i, channels)) + PackPixel(PixelOf(src, i * 4), channels)
  {
    ConcatPush(PackPixels(src, i, channels), PackPixel(PixelOf(src, i * 4), channels));
  }

  /** The frame's pixels, three or four bytes each. */
  method PackRgb(frame: Snapshot, channels: nat) returns (out: array<byte>)
    requires frame.Valid() && (channels == 3 || channels == 4)
    ensures frame.width * frame.height * 4 <= |frame.buffer|
    ensures out[..] == Concat(PackPixels(frame.buffer, frame.width * frame.height, channels))
  {
    ghost var n := frame.width * frame.height;
    PixelCount(frame.width, frame.height);
    out := new byte[frame.width * frame.height * channels](_ => 0);
    var dst, offset := 0, 0;
    ghost var i := 0;
    while offset < |frame.buffer|
      invariant 0 <= i <= n && offset == i * 4 && dst == i * channels <= out.Length
      invariant out[..dst] == Concat(PackPixels(frame.buffer, i, channels))
    {
      PackRoom(i, n, channels);
      PackOne(frame.buffer, offset, out, dst, channels);
      PackNext(frame.buffer, i, channels);
      i := i + 1;
      offset := offset + 4;
      dst := dst + channels;
    }
    assert i == n;
    assert out[..dst] == out[..];
  }

  lemma IndexInside(width: nat, height: nat, x: nat, y: nat)
    requires x < width && y < height
    ensures y * width + x < width * height
  {
    SpanIs(y + 1, width);
    SpanIs(height, width);
    SpanGrows(y + 1, height, width);
  }

  /** Row-major packing: the pixel at `(x, y)` is found at its index times the channel count. */
  lemma PackedAt(frame: Snapshot, channels: nat, x: nat, y: nat)
    requires frame.Valid() && (channels == 3 || channels == 4) && x < frame.width && y < frame.height
    ensures frame.width * frame.height * 4 <= |frame.buffer|
    ensures var out := Concat(PackPixels(frame.buffer, frame.width * frame.height, channels));
            var at := (y * frame.width + x) * channels;
            at + channels <= |out| && out[at..at + channels] == PackPixel(frame.View().At(x, y), channels)
  {
    var n, k := frame.width * frame.height, y * frame.width + x;
    PixelCount(frame.width, frame.height);
    IndexInside(frame.width, frame.height, x, y);
    PixelAt(frame.buffer, frame.width, frame.height, x, y);
    var groups := PackPixels(frame.buffer, n, channels);
    ReadInRow(groups, k, 0, channels);
    StartIs(groups, channels, k);
    SpanIs(k, channels);
    PackPixelsAt(frame.buffer, n, channels, k);
  }
}
