/** Comparing two bitmaps, and the picture of their difference (apps/snapshot_tests). */
module SnapshotImages {
  type Byte = b: int | 0 <= b < 256 witness 0

  datatype Pixel = Pixel(r: Byte, g: Byte, b: Byte, a: Byte)

  /** A row may be padded beyond its pixels. */
  datatype Bitmap = Bitmap(width: nat, height: nat, rowBytes: nat, bytes: seq<Byte>)

  const BYTES_PER_PIXEL: nat := 4

  predicate Valid(b: Bitmap) {
    b.rowBytes >= BYTES_PER_PIXEL * b.width && |b.bytes| == b.rowBytes * b.height
  }

  predicate SameSize(a: Bitmap, b: Bitmap) {
    a.width == b.width && a.height == b.height
  }

  lemma Multiply(a: nat, b: nat, c: nat)
    requires a < b
    ensures a * c + c <= b * c
  {
    var more := b - a - 1;
    assert b * c == (a + 1 + more) * c == a * c + c + more * c;
  }

  function OffsetOf(b: Bitmap, x: nat, y: nat): (offset: nat)
    requires Valid(b) && x < b.width && y < b.height
    ensures offset + BYTES_PER_PIXEL <= |b.bytes|
  {
    Multiply(y, b.height, b.rowBytes);
    assert b.height * b.rowBytes == b.rowBytes * b.height;
    y * b.rowBytes + x * BYTES_PER_PIXEL
  }

  function PixelAt(b: Bitmap, x: nat, y: nat): Pixel
    requires Valid(b) && x < b.width && y < b.height
  {
    var o := OffsetOf(b, x, y);
    Pixel(b.bytes[o], b.bytes[o + 1], b.bytes[o + 2], b.bytes[o + 3])
  }

  // ----- one pixel -----

  function Abs(d: int): nat { if d < 0 then -d else d }

  function Max(a: int, b: int): int { if a >= b then a else b }

  function Difference(p: Pixel, q: Pixel): (d: int)
    ensures 0 <= d < 256
  {
    Max(Max(Abs(p.r - q.r), Abs(p.g - q.g)), Max(Abs(p.b - q.b), Abs(p.a - q.a)))
  }

  predicate Mismatch(p: Pixel, q: Pixel, tolerance: real) {
    Difference(p, q) as real > tolerance
  }

  /** The difference bounds that of each channel, opacity included, and some channel attains it. */
  lemma DifferenceIsGreatest(p: Pixel, q: Pixel)
    ensures var d := Difference(p, q);
            && -d <= p.r - q.r <= d && -d <= p.g - q.g <= d && -d <= p.b - q.b <= d && -d <= p.a - q.a <= d
            && (|| d == p.r - q.r || d == q.r - p.r || d == p.g - q.g || d == q.g - p.g
                || d == p.b - q.b || d == q.b - p.b || d == p.a - q.a || d == q.a - p.a)
  {
  }

  predicate IsOff(x: Byte, y: Byte, tolerance: real) {
    (x - y) as real > tolerance || (y - x) as real > tolerance
  }

  /** A pixel is a mismatch iff some channel is off by more than the tolerance. */
  lemma MismatchIff(p: Pixel, q: Pixel, tolerance: real)
    ensures Mismatch(p, q, tolerance) <==>
              IsOff(p.r, q.r, tolerance) || IsOff(p.g, q.g, tolerance) || IsOff(p.b, q.b, tolerance) || IsOff(p.a, q.a, tolerance)
  {
    DifferenceIsGreatest(p, q);
  }

  const MAGENTA := Pixel(255, 0, 255, 255)

  /** A quarter of the luminance, rounded half up. */
  function Gray(p: Pixel): Byte {
    (299 * p.r + 587 * p.g + 114 * p.b + 2000) / 4000
  }

  /** The gray value is the nearest to a quarter of the luminance (299, 587 and 114 thousandths of the
      channels), the greater of two that are as near. */
  lemma GrayIsNearest(p: Pixel)
    ensures var gray, luminance := Gray(p) as real, 0.299 * p.r as real + 0.587 * p.g as real + 0.114 * p.b as real;
            gray - 0.5 <= luminance / 4.0 < gray + 0.5
  {
  }

  function Overlay(p: Pixel, q: Pixel, tolerance: real): Pixel {
    if Mismatch(p, q, tolerance) then MAGENTA else Pixel(Gray(p), Gray(p), Gray(p), 255)
  }

  // ----- counting -----

  /** Mismatches in the rows above `y` and in the first `x` pixels of row `y`. */
  function Mismatches(a: Bitmap, b: Bitmap, tolerance: real, x: nat, y: nat): nat
    requires Valid(a) && Valid(b) && SameSize(a, b) && x <= a.width && (y < a.height || (y == a.height && x == 0))
    decreases y, x
  {
    if x > 0 then
      Mismatches(a, b, tolerance, x - 1, y) + (if Mismatch(PixelAt(a, x - 1, y), PixelAt(b, x - 1, y), tolerance) then 1 else 0)
    else if y > 0 then Mismatches(a, b, tolerance, a.width, y - 1)
    else 0
  }

  datatype PixelDiffResult = PixelDiffResult(totalPixels: nat, mismatchedPixels: nat, mismatchPercent: real, maxDifference: int)

  /** No pixel differs by more than `most`, and unless it is 0 some pixel differs by as much. */
  ghost predicate IsGreatest(a: Bitmap, b: Bitmap, most: int, x: nat, y: nat)
    requires Valid(a) && Valid(b) && SameSize(a, b)
  {
    && (forall j: nat, i: nat :: IsBefore(a, i, j, x, y) ==> Difference(PixelAt(a, i, j), PixelAt(b, i, j)) <= most)
    && (most == 0 || exists j: nat, i: nat :: IsBefore(a, i, j, x, y) && Difference(PixelAt(a, i, j), PixelAt(b, i, j)) == most)
  }

  predicate IsBefore(a: Bitmap, i: nat, j: nat, x: nat, y: nat) {
    i < a.width && j < a.height && (j < y || (j == y && i < x))
  }

  /** The counts over two bitmaps of one size. */
  method CountMismatches(baseline: Bitmap, actual: Bitmap, tolerance: real) returns (mismatched: nat, most: int)
    requires Valid(baseline) && Valid(actual) && SameSize(baseline, actual)
    ensures mismatched == Mismatches(baseline, actual, tolerance, 0, baseline.height)
    ensures IsGreatest(baseline, actual, most, 0, baseline.height)
  {
    mismatched, most := 0, 0;
    for y := 0 to baseline.height
      invariant mismatched == Mismatches(baseline, actual, tolerance, 0, y)
      invariant IsGreatest(baseline, actual, most, 0, y)
    {
      for x := 0 to baseline.width
        invariant mismatched == Mismatches(baseline, actual, tolerance, x, y)
        invariant IsGreatest(baseline, actual, most, x, y)
      {
        var pixelMax := Difference(PixelAt(baseline, x, y), PixelAt(actual, x, y));
        GreatestGrows(baseline, actual, most, x, y);
        if pixelMax as real > tolerance {
          mismatched := mismatched + 1;
        }
        if pixelMax > most {
          most := pixelMax;
        }
      }
      RowEnds(baseline, actual, most, y);
    }
  }

  method PixelDiff(baseline: Bitmap, actual: Bitmap, tolerance: real) returns (result: PixelDiffResult)
    requires Valid(baseline) && Valid(actual)
    ensures result.totalPixels == TotalPixels(baseline)
    ensures !SameSize(baseline, actual) ==>
              result == PixelDiffResult(result.totalPixels, result.totalPixels, 100.0, 255)
    ensures SameSize(baseline, actual) ==>
              && result.mismatchedPixels == Mismatches(baseline, actual, tolerance, 0, baseline.height)
              && IsGreatest(baseline, actual, result.maxDifference, 0, baseline.height)
              && IsPercent(result.mismatchPercent, result.mismatchedPixels, result.totalPixels)
  {
    var total := TotalPixels(baseline);
    if baseline.width != actual.width || baseline.height != actual.height {
      return PixelDiffResult(total, total, 100.0, 255);
    }
    var mismatched, most := CountMismatches(baseline, actual, tolerance);
    MismatchesBounded(baseline, actual, tolerance, 0, baseline.height);
    PercentOfTotal(mismatched, total);
    result := PixelDiffResult(total, mismatched, Percent(mismatched, total), most);
  }

  function TotalPixels(b: Bitmap): nat {
    b.width * b.height
  }

  /** `percent` of `total` is `part`, and at most all of it. */
  predicate IsPercent(percent: real, part: nat, total: nat) {
    part <= total && percent * (total as real) == 100.0 * (part as real)
  }

  function Percent(part: nat, total: nat): real {
    if total > 0 then (part as real) / (total as real) * 100.0 else 0.0
  }

  lemma PercentOfTotal(part: nat, total: nat)
    requires part <= total
    ensures IsPercent(Percent(part, total), part, total)
  {
    if total > 0 {
      var share := (part as real) / (total as real);
      assert share * (total as real) == part as real;
      assert share * 100.0 * (total as real) == 100.0 * (share * (total as real));
    }
  }

  lemma GreatestGrows(a: Bitmap, b: Bitmap, most: int, x: nat, y: nat)
    requires Valid(a) && Valid(b) && SameSize(a, b) && x < a.width && y < a.height
    requires IsGreatest(a, b, most, x, y)
    ensures IsGreatest(a, b, Max(most, Difference(PixelAt(a, x, y), PixelAt(b, x, y))), x + 1, y)
  {
    assert IsBefore(a, x, y, x + 1, y);
    forall j: nat, i: nat | IsBefore(a, i, j, x + 1, y) ensures IsBefore(a, i, j, x, y) || (i == x && j == y) {
    }
    forall j: nat, i: nat | IsBefore(a, i, j, x, y) ensures IsBefore(a, i, j, x + 1, y) {
    }
  }

  lemma RowEnds(a: Bitmap, b: Bitmap, most: int, y: nat)
    requires Valid(a) && Valid(b) && SameSize(a, b) && y < a.height && IsGreatest(a, b, most, a.width, y)
    ensures IsGreatest(a, b, most, 0, y + 1)
  {
    forall j: nat, i: nat ensures IsBefore(a, i, j, a.width, y) == IsBefore(a, i, j, 0, y + 1) {
    }
  }

  lemma {:induction false} MismatchesBounded(a: Bitmap, b: Bitmap, tolerance: real, x: nat, y: nat)
    requires Valid(a) && Valid(b) && SameSize(a, b) && x <= a.width && (y < a.height || (y == a.height && x == 0))
    ensures Mismatches(a, b, tolerance, x, y) <= y * a.width + x
    decreases y, x
  {
    if x > 0 {
      MismatchesBounded(a, b, tolerance, x - 1, y);
    } else if y > 0 {
      MismatchesBounded(a, b, tolerance, a.width, y - 1);
      assert (y - 1) * a.width + a.width == y * a.width;
    }
  }

  // ----- the picture -----

  /** Where pixel `x`, `y` of a panel (0 left, 1 centre, 2 right) is, counted in pixels. */
  function Slot(width: nat, panel: nat, x: nat, y: nat): nat {
    y * (3 * width) + (panel * width + x)
  }

  predicate IsSlot(width: nat, height: nat, panel: nat, x: nat, y: nat) {
    panel < 3 && x < width && y < height
  }

  lemma SlotInRow(width: nat, panel: nat, x: nat)
    requires panel < 3 && x < width
    ensures panel * width + x < 3 * width
  {
    assert panel == 0 || panel == 1 || panel == 2;
  }

  lemma SlotInRange(width: nat, height: nat, panel: nat, x: nat, y: nat)
    requires IsSlot(width, height, panel, x, y)
    ensures Slot(width, panel, x, y) < height * (3 * width)
  {
    SlotInRow(width, panel, x);
    Multiply(y, height, 3 * width);
  }

  /** No two pixels of the panels share a place. */
  lemma SlotsDiffer(width: nat, height: nat, panel: nat, x: nat, y: nat, panel': nat, x': nat, y': nat)
    requires IsSlot(width, height, panel, x, y) && IsSlot(width, height, panel', x', y')
    requires Slot(width, panel, x, y) == Slot(width, panel', x', y')
    ensures panel == panel' && x == x' && y == y'
  {
    SlotInRow(width, panel, x);
    SlotInRow(width, panel', x');
    if y < y' { Multiply(y, y', 3 * width); }
    if y' < y { Multiply(y', y, 3 * width); }
    assert panel * width + x == panel' * width + x';
    if panel < panel' { Multiply(panel, panel', width); }
    if panel' < panel { Multiply(panel', panel, width); }
  }

  /** And between them the panels fill the picture. */
  lemma PanelsCover(width: nat, height: nat, s: nat) returns (panel: nat, x: nat, y: nat)
    requires s < height * (3 * width)
    ensures IsSlot(width, height, panel, x, y) && Slot(width, panel, x, y) == s
  {
    var column: nat;
    y, column := Divide(s, height, 3 * width);
    if column < width {
      return 0, column, y;
    } else if column < 2 * width {
      return 1, column - width, y;
    }
    return 2, column - 2 * width, y;
  }

  lemma {:induction false} Divide(s: nat, rows: nat, row: nat) returns (y: nat, column: nat)
    requires s < rows * row
    ensures y < rows && column < row && s == y * row + column
    decreases rows
  {
    if s < row {
      y, column := 0, s;
    } else {
      assert (rows - 1) * row == rows * row - row;
      y, column := Divide(s - row, rows - 1, row);
      assert (y + 1) * row == y * row + row;
      y := y + 1;
    }
  }

  function Expected(a: Bitmap, b: Bitmap, tolerance: real, panel: nat, x: nat, y: nat): Pixel
    requires Valid(a) && Valid(b) && SameSize(a, b) && IsSlot(a.width, a.height, panel, x, y)
  {
    if panel == 0 then PixelAt(a, x, y)
    else if panel == 1 then PixelAt(b, x, y)
    else Overlay(PixelAt(a, x, y), PixelAt(b, x, y), tolerance)
  }

  /** The bytes of a buffer, four at a time. */
  function Pixels(bytes: seq<Byte>): (ps: seq<Pixel>)
    requires |bytes| % 4 == 0
    ensures |ps| == |bytes| / 4
  {
    seq(|bytes| / 4, i requires 0 <= i < |bytes| / 4 => Pixel(bytes[4 * i], bytes[4 * i + 1], bytes[4 * i + 2], bytes[4 * i + 3]))
  }

  /** The picture so far: everything before pixel `x`, `y` is in all three panels. */
  ghost predicate Painted(a: Bitmap, b: Bitmap, tolerance: real, picture: seq<Pixel>, x: nat, y: nat)
    requires Valid(a) && Valid(b) && SameSize(a, b)
  {
    && |picture| == a.height * (3 * a.width)
    && forall panel: nat, i: nat, j: nat :: panel < 3 && IsBefore(a, i, j, x, y) ==>
         && Slot(a.width, panel, i, j) < |picture|
         && picture[Slot(a.width, panel, i, j)] == Expected(a, b, tolerance, panel, i, j)
  }

  predicate IsSlotOf(width: nat, x: nat, y: nat, s: int) {
    s == Slot(width, 0, x, y) || s == Slot(width, 1, x, y) || s == Slot(width, 2, x, y)
  }

  lemma PaintOne(a: Bitmap, b: Bitmap, tolerance: real, picture: seq<Pixel>, x: nat, y: nat, picture': seq<Pixel>)
    requires Valid(a) && Valid(b) && SameSize(a, b) && x < a.width && y < a.height
    requires Painted(a, b, tolerance, picture, x, y) && |picture'| == |picture|
    requires forall panel: nat :: panel < 3 ==>
               && Slot(a.width, panel, x, y) < |picture|
               && picture'[Slot(a.width, panel, x, y)] == Expected(a, b, tolerance, panel, x, y)
    requires forall s :: 0 <= s < |picture| && !IsSlotOf(a.width, x, y, s) ==> picture'[s] == picture[s]
    ensures Painted(a, b, tolerance, picture', x + 1, y)
  {
    forall panel: nat, i: nat, j: nat | panel < 3 && IsBefore(a, i, j, x + 1, y)
      ensures Slot(a.width, panel, i, j) < |picture'|
      ensures picture'[Slot(a.width, panel, i, j)] == Expected(a, b, tolerance, panel, i, j)
    {
      SlotInRange(a.width, a.height, panel, i, j);
      if i != x || j != y {
        assert IsBefore(a, i, j, x, y);
        forall other: nat | other < 3 ensures Slot(a.width, panel, i, j) != Slot(a.width, other, x, y) {
          if Slot(a.width, panel, i, j) == Slot(a.width, other, x, y) {
            SlotsDiffer(a.width, a.height, panel, i, j, other, x, y);
          }
        }
      }
    }
  }

  /** Four bytes at once. */
  method SetPixel(buffer: array<Byte>, slot: nat, p: Pixel)
    requires buffer.Length % 4 == 0 && 4 * slot + 3 < buffer.Length
    modifies buffer
    ensures Pixels(buffer[..]) == old(Pixels(buffer[..]))[slot := p]
  {
    buffer[4 * slot] := p.r;
    buffer[4 * slot + 1] := p.g;
    buffer[4 * slot + 2] := p.b;
    buffer[4 * slot + 3] := p.a;
  }

  /** One pixel of each panel. */
  method PaintPixel(buffer: array<Byte>, baseline: Bitmap, actual: Bitmap, tolerance: real, x: nat, y: nat)
    requires Valid(baseline) && Valid(actual) && SameSize(baseline, actual) && x < baseline.width && y < baseline.height
    requires buffer.Length % 4 == 0 && Painted(baseline, actual, tolerance, Pixels(buffer[..]), x, y)
    modifies buffer
    ensures Painted(baseline, actual, tolerance, Pixels(buffer[..]), x + 1, y)
  {
    var width, height := baseline.width, baseline.height;
    ghost var before := Pixels(buffer[..]);
    SlotInRange(width, height, 0, x, y);
    SlotInRange(width, height, 1, x, y);
    SlotInRange(width, height, 2, x, y);
    var p, q := PixelAt(baseline, x, y), PixelAt(actual, x, y);
    SetPixel(buffer, Slot(width, 0, x, y), p);
    SetPixel(buffer, Slot(width, 1, x, y), q);
    SetPixel(buffer, Slot(width, 2, x, y), Overlay(p, q, tolerance));
    PaintOne(baseline, actual, tolerance, before, x, y, Pixels(buffer[..]));
  }

  function BufferLength(width: nat, height: nat): (length: nat)
    ensures length == 4 * (height * (3 * width)) && length % 4 == 0
  {
    width * 3 * 4 * height
  }

  method GenerateDiffImage(baseline: Bitmap, actual: Bitmap, tolerance: real) returns (buffer: array<Byte>)
    requires Valid(baseline) && Valid(actual) && SameSize(baseline, actual)
    ensures fresh(buffer) && buffer.Length == BufferLength(baseline.width, baseline.height) && buffer.Length % 4 == 0
    ensures Painted(baseline, actual, tolerance, Pixels(buffer[..]), 0, baseline.height)
  {
    var width, height := baseline.width, baseline.height;
    buffer := new Byte[BufferLength(width, height)](i => 0);
    for y := 0 to height
      invariant Painted(baseline, actual, tolerance, Pixels(buffer[..]), 0, y)
    {
      for x := 0 to width
        invariant Painted(baseline, actual, tolerance, Pixels(buffer[..]), x, y)
      {
        PaintPixel(buffer, baseline, actual, tolerance, x, y);
      }
      RowPainted(baseline, actual, tolerance, Pixels(buffer[..]), y);
    }
  }

  lemma RowPainted(a: Bitmap, b: Bitmap, tolerance: real, picture: seq<Pixel>, y: nat)
    requires Valid(a) && Valid(b) && SameSize(a, b) && y < a.height && Painted(a, b, tolerance, picture, a.width, y)
    ensures Painted(a, b, tolerance, picture, 0, y + 1)
  {
    forall j: nat, i: nat ensures IsBefore(a, i, j, a.width, y) == IsBefore(a, i, j, 0, y + 1) {
    }
  }

  // ----- the picture agrees with the counter -----

  /** Magenta pixels of the right panel in the rows above `y` and in the first `x` of row `y`. */
  function Magenta(picture: seq<Pixel>, width: nat, height: nat, x: nat, y: nat): nat
    requires |picture| == height * (3 * width) && x <= width && (y < height || (y == height && x == 0))
    decreases y, x
  {
    if x > 0 then
      SlotInRange(width, height, 2, x - 1, y);
      Magenta(picture, width, height, x - 1, y) + (if picture[Slot(width, 2, x - 1, y)] == MAGENTA then 1 else 0)
    else if y > 0 then Magenta(picture, width, height, width, y - 1)
    else 0
  }

  lemma {:induction false} MagentaCountsMismatches(a: Bitmap, b: Bitmap, tolerance: real, picture: seq<Pixel>, x: nat, y: nat)
    requires Valid(a) && Valid(b) && SameSize(a, b) && Painted(a, b, tolerance, picture, 0, a.height)
    requires x <= a.width && (y < a.height || (y == a.height && x == 0))
    ensures Magenta(picture, a.width, a.height, x, y) == Mismatches(a, b, tolerance, x, y)
    decreases y, x
  {
    if x > 0 {
      MagentaCountsMismatches(a, b, tolerance, picture, x - 1, y);
      assert IsBefore(a, x - 1, y, 0, a.height);
    } else if y > 0 {
      MagentaCountsMismatches(a, b, tolerance, picture, a.width, y - 1);
    }
  }

  /** The picture is the baseline, the other bitmap and the overlay, side by side and nothing else,
      and shows as many magenta pixels as the counter finds mismatches. */
  lemma PictureAgreesWithCounter(a: Bitmap, b: Bitmap, tolerance: real, picture: seq<Pixel>)
    requires Valid(a) && Valid(b) && SameSize(a, b) && Painted(a, b, tolerance, picture, 0, a.height)
    ensures Magenta(picture, a.width, a.height, 0, a.height) == Mismatches(a, b, tolerance, 0, a.height)
    ensures forall s :: 0 <= s < |picture| ==> IsPanelPixel(a, b, tolerance, picture[s], s)
  {
    MagentaCountsMismatches(a, b, tolerance, picture, 0, a.height);
    forall s | 0 <= s < |picture| ensures IsPanelPixel(a, b, tolerance, picture[s], s) {
      var panel, x, y := PanelsCover(a.width, a.height, s);
      assert IsBefore(a, x, y, 0, a.height);
      assert picture[Slot(a.width, panel, x, y)] == Expected(a, b, tolerance, panel, x, y);
    }
  }

  ghost predicate IsPanelPixel(a: Bitmap, b: Bitmap, tolerance: real, p: Pixel, s: nat)
    requires Valid(a) && Valid(b) && SameSize(a, b)
  {
    exists panel: nat, x: nat, y: nat ::
      IsSlot(a.width, a.height, panel, x, y) && Slot(a.width, panel, x, y) == s && p == Expected(a, b, tolerance, panel, x, y)
  }

  /** Nothing is counted exactly when no pixel is off by more than the tolerance. */
  lemma {:induction false} NoMismatchIffWithinTolerance(a: Bitmap, b: Bitmap, tolerance: real, x: nat, y: nat)
    requires Valid(a) && Valid(b) && SameSize(a, b) && x <= a.width && (y < a.height || (y == a.height && x == 0))
    ensures Mismatches(a, b, tolerance, x, y) == 0
       <==> forall j: nat, i: nat :: IsBefore(a, i, j, x, y) ==> Difference(PixelAt(a, i, j), PixelAt(b, i, j)) as real <= tolerance
    decreases y, x
  {
    if x > 0 {
      NoMismatchIffWithinTolerance(a, b, tolerance, x - 1, y);
      assert IsBefore(a, x - 1, y, x, y);
      forall j: nat, i: nat ensures IsBefore(a, i, j, x, y) == (IsBefore(a, i, j, x - 1, y) || (i == x - 1 && j == y)) {
      }
    } else if y > 0 {
      NoMismatchIffWithinTolerance(a, b, tolerance, a.width, y - 1);
      forall j: nat, i: nat ensures IsBefore(a, i, j, x, y) == IsBefore(a, i, j, a.width, y - 1) {
      }
    }
  }

  // ----- the same in bytes, and as sets of pixels -----

  lemma PixelIsFourBytes(b: Bitmap, x: nat, y: nat)
    requires Valid(b) && x < b.width && y < b.height
    ensures var at, p := y * b.rowBytes + 4 * x, PixelAt(b, x, y);
            at + 3 < |b.bytes| && [p.r, p.g, p.b, p.a] == b.bytes[at..at + 4]
  {
    var o := OffsetOf(b, x, y);
    assert o == y * b.rowBytes + 4 * x;
  }

  function BytesAt(bytes: seq<Byte>, pixel: nat): seq<Byte>
    requires 4 * pixel + 4 <= |bytes|
  {
    bytes[4 * pixel..4 * pixel + 4]
  }

  /** Row by row the picture has the bytes of the baseline, those of the other bitmap, and magenta where some
      channel is off by more than the tolerance, gray elsewhere. */
  lemma PictureBytes(a: Bitmap, b: Bitmap, tolerance: real, bytes: seq<Byte>, x: nat, y: nat)
    requires Valid(a) && Valid(b) && SameSize(a, b) && x < a.width && y < a.height
    requires |bytes| % 4 == 0 && Painted(a, b, tolerance, Pixels(bytes), 0, a.height)
    ensures var row := y * (3 * a.width);
            var p, q := PixelAt(a, x, y), PixelAt(b, x, y);
            && 4 * (row + 2 * a.width + x) + 4 <= |bytes|
            && y * a.rowBytes + 4 * x + 4 <= |a.bytes| && y * b.rowBytes + 4 * x + 4 <= |b.bytes|
            && BytesAt(bytes, row + x) == a.bytes[y * a.rowBytes + 4 * x..y * a.rowBytes + 4 * x + 4]
            && BytesAt(bytes, row + a.width + x) == b.bytes[y * b.rowBytes + 4 * x..y * b.rowBytes + 4 * x + 4]
            && BytesAt(bytes, row + 2 * a.width + x)
               == if IsOff(p.r, q.r, tolerance) || IsOff(p.g, q.g, tolerance) || IsOff(p.b, q.b, tolerance) || IsOff(p.a, q.a, tolerance)
                  then [255, 0, 255, 255] else [Gray(p), Gray(p), Gray(p), 255]
  {
    var row := y * (3 * a.width);
    var p, q := PixelAt(a, x, y), PixelAt(b, x, y);
    assert IsBefore(a, x, y, 0, a.height);
    PixelIsFourBytes(a, x, y);
    PixelIsFourBytes(b, x, y);
    MismatchIff(p, q, tolerance);
    PanelPixel(a, b, tolerance, bytes, 0, x, y);
    PanelPixel(a, b, tolerance, bytes, 1, x, y);
    PanelPixel(a, b, tolerance, bytes, 2, x, y);
  }

  lemma PanelPixel(a: Bitmap, b: Bitmap, tolerance: real, bytes: seq<Byte>, panel: nat, x: nat, y: nat)
    requires Valid(a) && Valid(b) && SameSize(a, b) && IsSlot(a.width, a.height, panel, x, y)
    requires |bytes| % 4 == 0 && Painted(a, b, tolerance, Pixels(bytes), 0, a.height)
    ensures var at, p := Slot(a.width, panel, x, y), Expected(a, b, tolerance, panel, x, y);
            4 * at + 4 <= |bytes| && BytesAt(bytes, at) == [p.r, p.g, p.b, p.a]
  {
    assert IsBefore(a, x, y, 0, a.height);
    var at, p := Slot(a.width, panel, x, y), Expected(a, b, tolerance, panel, x, y);
    assert Pixels(bytes)[at] == p;
  }

  /** The pixels that are off, before `x`, `y`. */
  function MismatchSet(a: Bitmap, b: Bitmap, tolerance: real, x: nat, y: nat): set<(nat, nat)>
    requires Valid(a) && Valid(b) && SameSize(a, b)
  {
    set i: nat, j: nat | 0 <= i < a.width && 0 <= j < a.height && IsBefore(a, i, j, x, y)
                         && Mismatch(PixelAt(a, i, j), PixelAt(b, i, j), tolerance) :: (i, j)
  }

  /** The counter counts them: each once. */
  lemma {:induction false} MismatchesAreCounted(a: Bitmap, b: Bitmap, tolerance: real, x: nat, y: nat)
    requires Valid(a) && Valid(b) && SameSize(a, b) && x <= a.width && (y < a.height || (y == a.height && x == 0))
    ensures Mismatches(a, b, tolerance, x, y) == |MismatchSet(a, b, tolerance, x, y)|
    decreases y, x
  {
    if x > 0 {
      MismatchesAreCounted(a, b, tolerance, x - 1, y);
      OneMoreIsCounted(a, b, tolerance, x, y);
    } else if y > 0 {
      MismatchesAreCounted(a, b, tolerance, a.width, y - 1);
      RowsMeet(a, b, tolerance, y);
    } else {
      NothingCountedYet(a, b, tolerance);
    }
  }

  lemma OneMoreIsCounted(a: Bitmap, b: Bitmap, tolerance: real, x: nat, y: nat)
    requires Valid(a) && Valid(b) && SameSize(a, b) && 0 < x <= a.width && y < a.height
    requires Mismatches(a, b, tolerance, x - 1, y) == |MismatchSet(a, b, tolerance, x - 1, y)|
    ensures Mismatches(a, b, tolerance, x, y) == |MismatchSet(a, b, tolerance, x, y)|
  {
    var before, off := MismatchSet(a, b, tolerance, x - 1, y), Mismatch(PixelAt(a, x - 1, y), PixelAt(b, x - 1, y), tolerance);
    OneMoreMismatch(a, b, tolerance, x, y);
    NotCountedYet(a, b, tolerance, x, y);
    OneMoreElement(before, (x - 1, y));
    assert |MismatchSet(a, b, tolerance, x, y)| == |before| + if off then 1 else 0;
  }

  lemma NothingCountedYet(a: Bitmap, b: Bitmap, tolerance: real)
    requires Valid(a) && Valid(b) && SameSize(a, b)
    ensures MismatchSet(a, b, tolerance, 0, 0) == {}
  {
  }

  lemma NotCountedYet(a: Bitmap, b: Bitmap, tolerance: real, x: nat, y: nat)
    requires Valid(a) && Valid(b) && SameSize(a, b) && 0 < x <= a.width && y < a.height
    ensures (x - 1, y) !in MismatchSet(a, b, tolerance, x - 1, y)
  {
  }

  lemma OneMoreElement<T>(s: set<T>, x: T)
    requires x !in s
    ensures |s + {x}| == |s| + 1 && s + {} == s
  {
  }

  lemma OneMoreMismatch(a: Bitmap, b: Bitmap, tolerance: real, x: nat, y: nat)
    requires Valid(a) && Valid(b) && SameSize(a, b) && 0 < x <= a.width && y < a.height
    ensures MismatchSet(a, b, tolerance, x, y) == MismatchSet(a, b, tolerance, x - 1, y)
            + if Mismatch(PixelAt(a, x - 1, y), PixelAt(b, x - 1, y), tolerance) then {(x - 1, y)} else {}
  {
    forall j: nat, i: nat ensures IsBefore(a, i, j, x, y) == (IsBefore(a, i, j, x - 1, y) || (i == x - 1 && j == y)) {
    }
  }

  lemma RowsMeet(a: Bitmap, b: Bitmap, tolerance: real, y: nat)
    requires Valid(a) && Valid(b) && SameSize(a, b) && 0 < y <= a.height
    ensures MismatchSet(a, b, tolerance, 0, y) == MismatchSet(a, b, tolerance, a.width, y - 1)
  {
    forall j: nat, i: nat ensures IsBefore(a, i, j, 0, y) == IsBefore(a, i, j, a.width, y - 1) {
    }
  }
}
