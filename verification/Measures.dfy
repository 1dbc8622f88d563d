/** How much of a region has a colour, or changed between two frames. */
module Measures {
  import opened Options
  import opened Bytes
  import opened Screens
  import opened Framebuffers
  import opened Geometry

  function Abs(n: int): nat { if n < 0 then -n else n }

  /** Channels as numbers; a caller's triple is not checked. */
  datatype Triple = Triple(red: int, green: int, blue: int)

  function TripleOf(c: Rgb): Triple {
    Triple(c.red as int, c.green as int, c.blue as int)
  }

  /** The largest drift of any one channel. */
  function ColourDistance(a: Triple, b: Triple): (d: nat)
    ensures forall t: int :: d <= t <==> Near(a, b, t)
  {
    Max(Abs(a.red - b.red), Max(Abs(a.green - b.green), Abs(a.blue - b.blue)))
  }

  predicate Near(a: Triple, b: Triple, tolerance: int) {
    Abs(a.red - b.red) <= tolerance && Abs(a.green - b.green) <= tolerance && Abs(a.blue - b.blue) <= tolerance
  }

  /** The per-channel drift a similarity threshold allows, to the nearest level. */
  function ToleranceFor(threshold: real): (r: Result<nat>)
    ensures r.Ok? <==> 0.0 <= threshold <= 1.0
    ensures r.Ok? ==> r.value <= 255
    ensures r.Ok? ==> -0.5 <= (1.0 - threshold) * 255.0 - r.value as real < 0.5
  {
    if 0.0 <= threshold <= 1.0 then Ok(((1.0 - threshold) * 255.0 + 0.5).Floor)
    else Failure(BadThreshold(threshold))
  }

  // --- Counting points ---

  /** Says of each point whether it counts. */
  type Mark = (int, int) -> bool

  ghost function HitsInRow(mark: Mark, x: nat, y: nat, n: nat): (hits: nat)
    ensures hits <= n
  {
    if n == 0 then 0 else HitsInRow(mark, x, y, n - 1) + if mark(x + n - 1, y) then 1 else 0
  }

  ghost function Hits(mark: Mark, a: Area, rows: nat): nat {
    if rows == 0 then 0 else Hits(mark, a, rows - 1) + HitsInRow(mark, a.x, a.y + rows - 1, a.w)
  }

  function CountTrue(bits: seq<bool>): nat {
    if bits == [] then 0 else CountTrue(bits[..|bits| - 1]) + if bits[|bits| - 1] then 1 else 0
  }

  lemma CountPush(bits: seq<bool>, b: bool)
    ensures CountTrue(bits + [b]) == CountTrue(bits) + if b then 1 else 0
  {
    assert (bits + [b])[..|bits|] == bits;
  }

  lemma {:induction false} HitsOfBits(mark: Mark, x: nat, y: nat, bits: seq<bool>)
    requires forall i {:trigger bits[i]} :: 0 <= i < |bits| ==> mark(x + i, y) == bits[i]
    ensures HitsInRow(mark, x, y, |bits|) == CountTrue(bits)
  {
    if bits != [] {
      var last := |bits| - 1;
      assert mark(x + last, y) == bits[last];
      HitsOfBits(mark, x, y, bits[..last]);
    }
  }

  lemma HitsNext(mark: Mark, a: Area, rows: nat)
    ensures Hits(mark, a, rows + 1) == Hits(mark, a, rows) + HitsInRow(mark, a.x, a.y + rows, a.w)
  {
  }

  ghost function PointsInRow(mark: Mark, x: nat, y: nat, n: nat): set<(int, int)> {
    set i | x <= i < x + n && mark(i, y) :: (i, y)
  }

  /** The points of the first `rows` rows of an area that count. */
  ghost function Points(mark: Mark, a: Area, rows: nat): set<(int, int)> {
    set i, j | a.x <= i < a.x + a.w && a.y <= j < a.y + rows && mark(i, j) :: (i, j)
  }

  lemma {:induction false} RowCounts(mark: Mark, x: nat, y: nat, n: nat)
    ensures |PointsInRow(mark, x, y, n)| == HitsInRow(mark, x, y, n)
  {
    if n == 0 {
      assert PointsInRow(mark, x, y, n) == {};
    } else {
      RowCounts(mark, x, y, n - 1);
      var before, last := PointsInRow(mark, x, y, n - 1), (x + n - 1, y);
      assert last !in before;
      assert PointsInRow(mark, x, y, n) == if mark(x + n - 1, y) then before + {last} else before;
    }
  }

  /** The loops count each point of the area that counts once. */
  lemma {:induction false} AreaCounts(mark: Mark, a: Area, rows: nat)
    ensures |Points(mark, a, rows)| == Hits(mark, a, rows)
  {
    if rows == 0 {
      assert Points(mark, a, rows) == {};
    } else {
      AreaCounts(mark, a, rows - 1);
      RowCounts(mark, a.x, a.y + rows - 1, a.w);
      RowMore(mark, a, rows);
    }
  }

  /** The points of an area are those of its last row and of the rows before it. */
  lemma RowMore(mark: Mark, a: Area, rows: nat)
    requires rows > 0
    ensures |Points(mark, a, rows)| == |Points(mark, a, rows - 1)| + |PointsInRow(mark, a.x, a.y + rows - 1, a.w)|
  {
    var before, last := Points(mark, a, rows - 1), PointsInRow(mark, a.x, a.y + rows - 1, a.w);
    assert before !! last;
    assert Points(mark, a, rows) == before + last;
  }

  lemma {:induction false} HitsBounded(mark: Mark, a: Area, rows: nat)
    ensures Hits(mark, a, rows) <= Span(rows, a.w)
  {
    if rows != 0 {
      HitsBounded(mark, a, rows - 1);
    }
  }

  /** The fraction of an area's points that count. */
  ghost function Fraction(mark: Mark, a: Area): real
    requires a.w > 0 && a.h > 0
  {
    |Points(mark, a, a.h)| as real / Span(a.h, a.w) as real
  }

  lemma RatioOrder(m: nat, n: nat, d: nat)
    requires m <= n && d > 0
    ensures m as real / d as real <= n as real / d as real
  {
    var more := (n - m) as real / d as real;
    assert more >= 0.0;
    assert n as real / d as real == m as real / d as real + more;
  }

  lemma UnitRatio(x: real, d: real)
    requires 0.0 <= x <= d && d > 0.0
    ensures 0.0 <= x / d <= 1.0
  {
  }

  lemma FractionBounds(mark: Mark, a: Area)
    requires a.w > 0 && a.h > 0
    ensures 0.0 <= Fraction(mark, a) <= 1.0
  {
    AreaCounts(mark, a, a.h);
    HitsBounded(mark, a, a.h);
    UnitRatio(|Points(mark, a, a.h)| as real, Span(a.h, a.w) as real);
  }

  /** Marking fewer points lowers the fraction. */
  lemma FractionOrder(fewer: Mark, more: Mark, a: Area)
    requires a.w > 0 && a.h > 0 && forall x, y :: fewer(x, y) ==> more(x, y)
    ensures Fraction(fewer, a) <= Fraction(more, a)
  {
    SubsetSize(Points(fewer, a, a.h), Points(more, a, a.h));
    RatioOrder(|Points(fewer, a, a.h)|, |Points(more, a, a.h)|, Span(a.h, a.w));
  }

  lemma FractionSame(p: Mark, q: Mark, a: Area)
    requires a.w > 0 && a.h > 0 && forall x, y :: p(x, y) == q(x, y)
    ensures Fraction(p, a) == Fraction(q, a)
  {
    FractionOrder(p, q, a);
    FractionOrder(q, p, a);
  }

  lemma SubsetSize<T>(s: set<T>, t: set<T>)
    requires s <= t
    ensures |s| <= |t|
  {
    assert t == s + (t - s);
  }

  /** The fraction is zero exactly when no point of the area counts. */
  lemma FractionZero(mark: Mark, a: Area)
    requires a.w > 0 && a.h > 0
    ensures Fraction(mark, a) == 0.0 <==> forall x, y | a.x <= x < a.x + a.w && a.y <= y < a.y + a.h :: !mark(x, y)
  {
    var s, d := Points(mark, a, a.h), Span(a.h, a.w) as real;
    assert Fraction(mark, a) * d == |s| as real;
    forall x, y | a.x <= x < a.x + a.w && a.y <= y < a.y + a.h
      ensures mark(x, y) <==> (x, y) in s
    {
    }
  }

  // --- Reading a row ---

  /** The offset of a pixel, a row at a time. */
  function Place(width: nat, x: nat, y: nat): nat {
    (Span(y, width) + x) * 4
  }

  lemma PlaceIs(width: nat, x: nat, y: nat)
    ensures Place(width, x, y) == PixelOffset(width, x, y)
  {
    SpanIs(y, width);
  }

  lemma PlaceInside(frame: Snapshot, x: nat, y: nat)
    requires frame.Valid() && x < frame.width && y < frame.height
    ensures Place(frame.width, x, y) + 4 <= |frame.buffer|
  {
    PlaceIs(frame.width, x, y);
    PixelAt(frame.buffer, frame.width, frame.height, x, y);
  }

  lemma ColourHere(frame: Snapshot, x: nat, y: nat)
    requires frame.Valid() && x < frame.width && y < frame.height
    requires Place(frame.width, x, y) + 4 <= |frame.buffer|
    ensures ColourAt(frame.buffer, Place(frame.width, x, y)) == Colour(frame.View().At(x, y))
  {
    PlaceIs(frame.width, x, y);
    PixelAt(frame.buffer, frame.width, frame.height, x, y);
  }

  method RowOffset(width: nat, x: nat, y: nat) returns (offset: nat)
    ensures offset == Place(width, x, y)
  {
    SpanIs(y, width);
    assert y * (width * 4) == y * width * 4;
    offset := y * (width * 4) + x * 4;
  }

  /** The count as a fraction of the area's pixels. */
  method Ratio(hits: nat, ghost mark: Mark, a: Area) returns (ratio: real)
    requires a.w > 0 && a.h > 0 && hits == Hits(mark, a, a.h)
    ensures ratio == Fraction(mark, a)
  {
    AreaCounts(mark, a, a.h);
    SpanIs(a.h, a.w);
    ratio := hits as real / (a.h * a.w) as real;
  }

  // --- Counting in buffers ---

  /** Says of the pixel at each offset whether it counts. */
  type Test = nat -> bool

  /** The points of a frame whose pixels count. */
  ghost function MarkOf(test: Test, width: nat, height: nat): Mark {
    (x: int, y: int) => 0 <= x < width && 0 <= y < height && test(Place(width, x, y))
  }

  /** Which of `n` pixels in a row count. */
  ghost function Bits(test: Test, offset: nat, n: nat): (bits: seq<bool>)
    ensures |bits| == n
  {
    if n == 0 then [] else Bits(test, offset, n - 1) + [test(offset + (n - 1) * 4)]
  }

  lemma {:induction false} BitsAt(test: Test, offset: nat, n: nat, i: nat)
    requires i < n
    ensures Bits(test, offset, n)[i] == test(offset + i * 4)
  {
    if i < n - 1 {
      BitsAt(test, offset, n - 1, i);
    }
  }

  lemma RowIs(test: Test, width: nat, height: nat, x: nat, y: nat, n: nat)
    requires x + n <= width && y < height
    ensures CountTrue(Bits(test, Place(width, x, y), n)) == HitsInRow(MarkOf(test, width, height), x, y, n)
  {
    var mark, bits := MarkOf(test, width, height), Bits(test, Place(width, x, y), n);
    forall i: nat {:trigger bits[i]} | i < n
      ensures mark(x + i, y) == bits[i]
    {
      BitsAt(test, Place(width, x, y), n, i);
      assert Place(width, x, y) + i * 4 == Place(width, x + i, y);
    }
    HitsOfBits(mark, x, y, bits);
  }

  lemma BitsNext(test: Test, first: nat, n: nat, hit: bool)
    requires hit == test(first + n * 4)
    ensures CountTrue(Bits(test, first, n + 1)) == CountTrue(Bits(test, first, n)) + if hit then 1 else 0
  {
    CountPush(Bits(test, first, n), hit);
  }

  /** Counts along a row. */
  method CountInRow(test: Test, first: nat, w: nat) returns (hits: nat)
    ensures hits == CountTrue(Bits(test, first, w))
  {
    hits := 0;
    var offset, col := first, 0;
    while col < w
      invariant 0 <= col <= w && offset == first + col * 4
      invariant hits == CountTrue(Bits(test, first, col))
    {
      var hit := test(offset);
      BitsNext(test, first, col, hit);
      if hit { hits := hits + 1; }
      offset, col := offset + 4, col + 1;
    }
  }

  lemma RowAdds(test: Test, width: nat, height: nat, a: Area, row: nat)
    requires Within(a, width, height) && row < a.h
    ensures var mark := MarkOf(test, width, height);
            Hits(mark, a, row + 1) == Hits(mark, a, row) + CountTrue(Bits(test, Place(width, a.x, a.y + row), a.w))
  {
    RowIs(test, width, height, a.x, a.y + row, a.w);
    HitsNext(MarkOf(test, width, height), a, row);
  }

  /** Adds the hits of one row to those of the rows above it. */
  method AddRow(test: Test, width: nat, height: nat, a: Area, row: nat, sofar: nat, ghost mark: Mark)
    returns (hits: nat)
    requires Within(a, width, height) && row < a.h
    requires mark == MarkOf(test, width, height) && sofar == Hits(mark, a, row)
    ensures hits == Hits(mark, a, row + 1)
  {
    var offset := RowOffset(width, a.x, a.y + row);
    var n := CountInRow(test, offset, a.w);
    RowAdds(test, width, height, a, row);
    hits := sofar + n;
  }

  method CountInArea(test: Test, width: nat, height: nat, a: Area, ghost mark: Mark) returns (hits: nat)
    requires Within(a, width, height) && mark == MarkOf(test, width, height)
    ensures hits == Hits(mark, a, a.h)
  {
    hits := 0;
    var row := 0;
    while row < a.h
      invariant 0 <= row <= a.h && hits == Hits(mark, a, row)
    {
      hits := AddRow(test, width, height, a, row, hits, mark);
      row := row + 1;
    }
  }

  // --- Colour ratio ---

  /** The points of a screen whose colour is within `tolerance` of one. */
  ghost function NearTo(s: Screen, colour: Triple, tolerance: nat): Mark
    requires s.Valid()
  {
    (x: int, y: int) =>
      0 <= x < s.width && 0 <= y < s.height && Near(TripleOf(Colour(s.At(x, y))), colour, tolerance)
  }

  function NearTest(buffer: seq<byte>, colour: Triple, tolerance: nat): Test {
    (offset: nat) => offset + 4 <= |buffer| && Near(TripleOf(ColourAt(buffer, offset)), colour, tolerance)
  }

  lemma NearOnScreen(frame: Snapshot, colour: Triple, tolerance: nat, mark: Mark, a: Area)
    requires frame.Valid() && Within(a, frame.width, frame.height)
    requires mark == MarkOf(NearTest(frame.buffer, colour, tolerance), frame.width, frame.height)
    ensures Fraction(mark, a) == Fraction(NearTo(frame.View(), colour, tolerance), a)
  {
    var near := NearTo(frame.View(), colour, tolerance);
    forall x, y
      ensures mark(x, y) == near(x, y)
    {
      if 0 <= x < frame.width && 0 <= y < frame.height {
        PlaceInside(frame, x, y);
        ColourHere(frame, x, y);
      }
    }
    FractionSame(mark, near, a);
  }

  /** The fraction of a region's pixels within the threshold of a colour. */
  method ColourRatio(frame: Snapshot, colour: Triple, threshold: real, region: Option<Region>) returns (r: Result<real>)
    requires frame.Valid()
    ensures match ToleranceFor(threshold)
            case Failure(p) => r == Failure(p)
            case Ok(t) =>
              match ClampRegion(frame.width, frame.height, region)
              case Failure(p) => r == Failure(p)
              case Ok(a) => r == Ok(Fraction(NearTo(frame.View(), colour, t), a))
  {
    var tolerance := ToleranceFor(threshold);
    if tolerance.Failure? { return Failure(tolerance.problem); }
    var clamped := ClampRegion(frame.width, frame.height, region);
    if clamped.Failure? { return Failure(clamped.problem); }
    var test := NearTest(frame.buffer, colour, tolerance.value);
    ghost var mark := MarkOf(test, frame.width, frame.height);
    NearOnScreen(frame, colour, tolerance.value, mark, clamped.value);
    var hits := CountInArea(test, frame.width, frame.height, clamped.value, mark);
    var ratio := Ratio(hits, mark, clamped.value);
    r := Ok(ratio);
  }

  /** A stricter threshold never finds more of a colour. */
  lemma StricterFindsLess(s: Screen, colour: Triple, strict: real, lax: real, a: Area)
    requires s.Valid() && a.w > 0 && a.h > 0 && 0.0 <= lax <= strict <= 1.0
    ensures Fraction(NearTo(s, colour, ToleranceFor(strict).value), a)
            <= Fraction(NearTo(s, colour, ToleranceFor(lax).value), a)
  {
    assert (1.0 - strict) * 255.0 <= (1.0 - lax) * 255.0;
    FractionOrder(NearTo(s, colour, ToleranceFor(strict).value), NearTo(s, colour, ToleranceFor(lax).value), a);
  }

  // --- Changed fraction ---

  /** The points at which two screens of a size differ in colour. */
  ghost function Changed(s: Screen, t: Screen): Mark
    requires s.Valid() && t.Valid() && s.width == t.width && s.height == t.height
  {
    (x: int, y: int) => 0 <= x < s.width && 0 <= y < s.height && Colour(s.At(x, y)) != Colour(t.At(x, y))
  }

  function ChangedTest(b: seq<byte>, c: seq<byte>): Test {
    (offset: nat) => offset + 4 <= |b| && offset + 4 <= |c| && ColourAt(b, offset) != ColourAt(c, offset)
  }

  lemma ChangedPoint(before: Snapshot, after: Snapshot, x: nat, y: nat)
    requires before.Valid() && after.Valid() && before.width == after.width && before.height == after.height
    requires x < after.width && y < after.height
    ensures Changed(before.View(), after.View())(x, y)
            == MarkOf(ChangedTest(before.buffer, after.buffer), after.width, after.height)(x, y)
  {
    PlaceInside(before, x, y);
    PlaceInside(after, x, y);
    ColourHere(before, x, y);
    ColourHere(after, x, y);
  }

  lemma ChangedOnScreen(before: Snapshot, after: Snapshot, mark: Mark, a: Area)
    requires before.Valid() && after.Valid() && before.width == after.width && before.height == after.height
    requires Within(a, after.width, after.height)
    requires mark == MarkOf(ChangedTest(before.buffer, after.buffer), after.width, after.height)
    ensures Fraction(mark, a) == Fraction(Changed(before.View(), after.View()), a)
  {
    var changed := Changed(before.View(), after.View());
    forall x, y
      ensures mark(x, y) == changed(x, y)
    {
      if 0 <= x < after.width && 0 <= y < after.height {
        ChangedPoint(before, after, x, y);
      }
    }
    FractionSame(mark, changed, a);
  }

  /** The fraction of a region's pixels whose colour differs; frames of two sizes have changed altogether. */
  method ChangedFraction(before: Snapshot, after: Snapshot, region: Option<Region>) returns (r: Result<real>)
    requires before.Valid() && after.Valid()
    ensures if before.width != after.width || before.height != after.height then r == Ok(1.0)
            else
              match ClampRegion(after.width, after.height, region)
              case Failure(p) => r == Failure(p)
              case Ok(a) => r == Ok(Fraction(Changed(before.View(), after.View()), a))
  {
    if before.width != after.width || before.height != after.height { return Ok(1.0); }
    var clamped := ClampRegion(after.width, after.height, region);
    if clamped.Failure? { return Failure(clamped.problem); }
    var test := ChangedTest(before.buffer, after.buffer);
    ghost var mark := MarkOf(test, after.width, after.height);
    ChangedOnScreen(before, after, mark, clamped.value);
    var changed := CountInArea(test, after.width, after.height, clamped.value, mark);
    var ratio := Ratio(changed, mark, clamped.value);
    r := Ok(ratio);
  }

  /** Nothing has changed exactly when every colour of the area is the same, whatever the unused bytes hold. */
  lemma UnchangedMeansSameColours(s: Screen, t: Screen, a: Area)
    requires s.Valid() && t.Valid() && s.width == t.width && s.height == t.height && Within(a, s.width, s.height)
    ensures Fraction(Changed(s, t), a) == 0.0
            <==> forall x: nat, y: nat | a.x <= x < a.x + a.w && a.y <= y < a.y + a.h ::
                   Colour(s.At(x, y)) == Colour(t.At(x, y))
  {
    var mark := Changed(s, t);
    FractionZero(mark, a);
    forall x: nat, y: nat | a.x <= x < a.x + a.w && a.y <= y < a.y + a.h
      ensures mark(x, y) <==> Colour(s.At(x, y)) != Colour(t.At(x, y))
    {
    }
  }

  /** Which frame came first makes no difference. */
  lemma ChangedEitherWay(s: Screen, t: Screen, a: Area)
    requires s.Valid() && t.Valid() && s.width == t.width && s.height == t.height && a.w > 0 && a.h > 0
    ensures Fraction(Changed(s, t), a) == Fraction(Changed(t, s), a)
  {
    FractionSame(Changed(s, t), Changed(t, s), a);
  }
}
