/**
 * The guest's screen as a map from coordinates to pixels, and what RFC 6143
 * says each rectangle does to it: section 7.7.1 (Raw), 7.7.2 (CopyRect) and
 * 7.8.2 (DesktopSize). Nothing here knows how a frame is laid out in memory.
 */
module Screens {
  import opened Bytes

  /** Four bytes in memory order, in the pixel format the session asks for. */
  datatype Pixel = Pixel(blue: byte, green: byte, red: byte, unused: byte)

  /** The pixel four bytes of a buffer make up. */
  function PixelOf(b: seq<byte>, at: nat): Pixel
    requires at + 4 <= |b|
  {
    Pixel(b[at], b[at + 1], b[at + 2], b[at + 3])
  }

  /** Rows top to bottom, each left to right. */
  datatype Screen = Screen(width: nat, height: nat, rows: seq<seq<Pixel>>) {
    ghost predicate Valid() {
      && |rows| == height
      && forall y :: 0 <= y < height ==> |rows[y]| == width
    }

    ghost function At(x: nat, y: nat): Pixel
      requires Valid() && x < width && y < height
    {
      rows[y][x]
    }
  }

  datatype Rectangle =
    | Raw(x: nat, y: nat, w: nat, h: nat, data: seq<byte>)
    | Copy(x: nat, y: nat, w: nat, h: nat, srcX: nat, srcY: nat)
    | Resize(width: nat, height: nat)

  predicate RectFits(width: nat, height: nat, r: Rectangle) {
    match r
    case Raw(x, y, w, h, data) => x + w <= width && y + h <= height && |data| == Span(h, w * 4)
    case Copy(x, y, w, h, srcX, srcY) =>
      x + w <= width && y + h <= height && srcX + w <= width && srcY + h <= height
    case Resize(_, _) => true
  }

  /** Pixel `x` of a row of packed pixels. */
  function PixelIn(row: seq<byte>, x: nat): Pixel
    requires x * 4 + 4 <= |row|
  {
    PixelOf(row, x * 4)
  }

  const BLACK := Pixel(0, 0, 0, 0)

  function BlankRow(width: nat): (row: seq<Pixel>)
    ensures |row| == width
    ensures forall x :: 0 <= x < width ==> row[x] == BLACK
  {
    if width == 0 then [] else [BLACK] + BlankRow(width - 1)
  }

  function BlankRows(width: nat, height: nat): (rows: seq<seq<Pixel>>)
    ensures |rows| == height
    ensures forall y :: 0 <= y < height ==> rows[y] == BlankRow(width)
  {
    if height == 0 then [] else [BlankRow(width)] + BlankRows(width, height - 1)
  }

  function Blank(width: nat, height: nat): (s: Screen)
    ensures s.Valid()
  {
    Screen(width, height, BlankRows(width, height))
  }

  predicate Inside(px: nat, py: nat, x: nat, y: nat, w: nat, h: nat) {
    x <= px < x + w && y <= py < y + h
  }

  /** Pixel data comes row after row from the top, each row left to right. */
  ghost function DataPixel(data: seq<byte>, w: nat, h: nat, px: nat, py: nat): Pixel
    requires |data| == Span(h, w * 4) && px < w && py < h
  {
    PixelIn(RowsOf(data, w * 4, h)[py], px)
  }

  /** What one rectangle leaves at `(px, py)`. Every read is of the old screen. */
  ghost function PaintedPixel(s: Screen, r: Rectangle, px: nat, py: nat): Pixel
    requires s.Valid() && RectFits(s.width, s.height, r) && !r.Resize?
    requires px < s.width && py < s.height
  {
    match r
    case Raw(x, y, w, h, data) =>
      if Inside(px, py, x, y, w, h) then DataPixel(data, w, h, px - x, py - y) else s.At(px, py)
    case Copy(x, y, w, h, srcX, srcY) =>
      if Inside(px, py, x, y, w, h) then s.At(srcX + (px - x), srcY + (py - y)) else s.At(px, py)
  }

  /** Row `y` of the painted screen from column `x` on. */
  ghost function PaintedRow(s: Screen, r: Rectangle, y: nat, x: nat): (row: seq<Pixel>)
    requires s.Valid() && RectFits(s.width, s.height, r) && !r.Resize?
    requires x <= s.width && y < s.height
    ensures |row| == s.width - x
    ensures forall k :: 0 <= k < |row| ==> row[k] == PaintedPixel(s, r, x + k, y)
    decreases s.width - x
  {
    if x == s.width then [] else [PaintedPixel(s, r, x, y)] + PaintedRow(s, r, y, x + 1)
  }

  /** The painted rows from row `y` on. */
  ghost function PaintedRows(s: Screen, r: Rectangle, y: nat): (rows: seq<seq<Pixel>>)
    requires s.Valid() && RectFits(s.width, s.height, r) && !r.Resize? && y <= s.height
    ensures |rows| == s.height - y
    ensures forall k :: 0 <= k < |rows| ==> rows[k] == PaintedRow(s, r, y + k, 0)
    decreases s.height - y
  {
    if y == s.height then [] else [PaintedRow(s, r, y, 0)] + PaintedRows(s, r, y + 1)
  }

  /** The screen once `r` is applied, every pixel computed from the old screen. */
  ghost function Paint(s: Screen, r: Rectangle): (t: Screen)
    requires s.Valid() && RectFits(s.width, s.height, r)
    ensures t.Valid()
  {
    if r.Resize? then Blank(r.width, r.height) else Screen(s.width, s.height, PaintedRows(s, r, 0))
  }

  lemma PaintAt(s: Screen, r: Rectangle, x: nat, y: nat)
    requires s.Valid() && RectFits(s.width, s.height, r) && !r.Resize? && x < s.width && y < s.height
    ensures Paint(s, r).At(x, y) == PaintedPixel(s, r, x, y)
  {
    assert Paint(s, r).rows[y] == PaintedRow(s, r, y, 0);
  }

  /** A screen is its size and its pixels. */
  lemma SameScreen(s: Screen, t: Screen)
    requires s.Valid() && t.Valid() && s.width == t.width && s.height == t.height
    requires forall x: nat, y: nat :: x < s.width && y < s.height ==> s.At(x, y) == t.At(x, y)
    ensures s == t
  {
    forall y | 0 <= y < s.height
      ensures s.rows[y] == t.rows[y]
    {
      forall x | 0 <= x < s.width
        ensures s.rows[y][x] == t.rows[y][x]
      {
        assert s.At(x, y) == t.At(x, y);
      }
    }
  }
}
