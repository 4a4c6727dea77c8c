/**
 * The static photo and sheet tables, the millimetre/inch to pixel conversions
 * and the sheet tiling arithmetic (src/data/photoSpecs.ts).
 *
 * Lengths in the tables are whole millimetres, so they are `int` here; the
 * conversions to pixels take `real` arguments because the renderer also calls
 * them with fractional values and at fractional resolutions.
 */
module PhotoSpecs {

  /** A country's official photo requirements; lengths in millimetres. */
  datatype PhotoSpec = PhotoSpec(
    id: string,
    country: string,
    flag: string,
    width: int,
    height: int,
    widthInches: real,
    heightInches: real,
    headHeightMin: int,
    headHeightMax: int,
    eyeLineFromBottom: int,  // percentage of the height, measured from the bottom
    backgroundColor: string,
    dpi: int,
    notes: seq<string>)

  /** A printable paper size, given both in inches and in millimetres. */
  datatype SheetSize = SheetSize(
    id: string,
    name: string,
    width: real,   // inches
    height: real,  // inches
    widthMm: int,
    heightMm: int)

  /** How many photos fit across and down a sheet. */
  datatype SheetLayout = SheetLayout(cols: int, rows: int, total: int)

  const MmPerInch: real := 25.4
  const DefaultDpi: real := 300.0
  const DefaultMarginMm: int := 5
  const DefaultGapMm: int := 2

  // ---------------------------------------------------------------------------
  // Table invariants

  predicate ValidPhotoSpec(s: PhotoSpec) {
    && s.width > 0 && s.height > 0 && s.dpi > 0
    && s.headHeightMin <= s.headHeightMax <= s.height
    && 0 <= s.eyeLineFromBottom <= 100
  }

  predicate ValidSheetSize(s: SheetSize) {
    s.widthMm > 0 && s.heightMm > 0
  }

  /** The inch fields name the same physical size as the millimetre fields, to within half a millimetre. */
  predicate PhotoInchesAgree(s: PhotoSpec) {
    && -0.5 <= s.widthInches * MmPerInch - s.width as real <= 0.5
    && -0.5 <= s.heightInches * MmPerInch - s.height as real <= 0.5
  }

  predicate SheetInchesAgree(s: SheetSize) {
    && -0.5 <= s.width * MmPerInch - s.widthMm as real <= 0.5
    && -0.5 <= s.height * MmPerInch - s.heightMm as real <= 0.5
  }

  predicate DistinctPhotoIds(specs: seq<PhotoSpec>) {
    forall i, j :: 0 <= i < j < |specs| ==> specs[i].id != specs[j].id
  }

  predicate DistinctSheetIds(sheets: seq<SheetSize>) {
    forall i, j :: 0 <= i < j < |sheets| ==> sheets[i].id != sheets[j].id
  }

  // ---------------------------------------------------------------------------
  // The tables

  const PHOTO_SPECS: seq<PhotoSpec> := [
    PhotoSpec("us", "United States", "\U{1F1FA}\U{1F1F8}", 51, 51, 2.0, 2.0, 25, 35, 56, "#FFFFFF", 300,
      ["Head must be between 1\" and 1\U{215C}\" (25-35mm)",
       "Eyes between 1\U{215B}\" and 1\U{215C}\" from bottom",
       "White or off-white background",
       "Taken within last 6 months"]),
    PhotoSpec("uk", "United Kingdom", "\U{1F1EC}\U{1F1E7}", 35, 45, 1.38, 1.77, 29, 34, 60, "#FFFFFF", 300,
      ["Head height 29-34mm",
       "Plain cream or light grey background",
       "No shadows on face or background",
       "Neutral expression, mouth closed"]),
    PhotoSpec("eu", "European Union (Schengen)", "\U{1F1EA}\U{1F1FA}", 35, 45, 1.38, 1.77, 32, 36, 60, "#FFFFFF", 300,
      ["Face must cover 70-80% of photo",
       "Light grey or light blue background",
       "Neutral expression required",
       "ICAO compliant"]),
    PhotoSpec("india", "India", "\U{1F1EE}\U{1F1F3}", 35, 45, 1.38, 1.77, 25, 35, 55, "#FFFFFF", 300,
      ["White background only",
       "Face should cover 50-60% of photo",
       "Both ears must be visible",
       "Taken within last 3 months"]),
    PhotoSpec("china", "China", "\U{1F1E8}\U{1F1F3}", 33, 48, 1.3, 1.89, 28, 33, 55, "#FFFFFF", 300,
      ["White background required",
       "Head height 28-33mm",
       "Face centered in frame",
       "No glasses allowed"]),
    PhotoSpec("canada", "Canada", "\U{1F1E8}\U{1F1E6}", 50, 70, 1.97, 2.76, 31, 36, 50, "#FFFFFF", 300,
      ["Face height 31-36mm",
       "White or light-colored background",
       "Neutral expression",
       "Taken within last 12 months"]),
    PhotoSpec("australia", "Australia", "\U{1F1E6}\U{1F1FA}", 35, 45, 1.38, 1.77, 32, 36, 58, "#FFFFFF", 300,
      ["Head and shoulders only",
       "Plain light background",
       "Mouth closed, neutral expression",
       "No head coverings (except religious)"]),
    PhotoSpec("japan", "Japan", "\U{1F1EF}\U{1F1F5}", 35, 45, 1.38, 1.77, 27, 40, 55, "#FFFFFF", 300,
      ["Plain white or light background",
       "Face clearly visible",
       "No hats or sunglasses",
       "Taken within last 6 months"])
  ]

  const SHEET_SIZES: seq<SheetSize> := [
    SheetSize("4x6", "4×6\" (Standard Photo)", 4.0, 6.0, 102, 152),
    SheetSize("5x7", "5×7\"", 5.0, 7.0, 127, 178),
    SheetSize("a4", "A4 (210×297mm)", 8.27, 11.69, 210, 297),
    SheetSize("letter", "US Letter (8.5×11\")", 8.5, 11.0, 216, 279)
  ]

  /** Every photo specification satisfies the data-model invariant, and ids are unique. */
  lemma PhotoSpecsWellFormed()
    ensures |PHOTO_SPECS| == 8
    ensures forall i :: 0 <= i < |PHOTO_SPECS| ==> ValidPhotoSpec(PHOTO_SPECS[i]) && PhotoInchesAgree(PHOTO_SPECS[i])
    ensures DistinctPhotoIds(PHOTO_SPECS)
  {
  }

  /** Every sheet size has positive dimensions, and ids are unique. */
  lemma SheetSizesWellFormed()
    ensures |SHEET_SIZES| == 4
    ensures forall i :: 0 <= i < |SHEET_SIZES| ==> ValidSheetSize(SHEET_SIZES[i]) && SheetInchesAgree(SHEET_SIZES[i])
    ensures DistinctSheetIds(SHEET_SIZES)
  {
  }

  // ---------------------------------------------------------------------------
  // Rounding and unit conversion

  /** JavaScript's Math.round: the nearest integer, halves rounding up. */
  function Round(x: real): (r: int)
    ensures x - 0.5 < r as real <= x + 0.5
  {
    (x + 0.5).Floor
  }

  /** Math.round rounds every real to exactly one integer. */
  lemma RoundUnique(x: real, n: int)
    requires x - 0.5 < n as real <= x + 0.5
    ensures Round(x) == n
  {
  }

  /** Pixels covered by `mm` millimetres at `dpi` dots per inch. */
  function MmToPixels(mm: real, dpi: real := DefaultDpi): (px: int)
    ensures mm * dpi / MmPerInch - 0.5 < px as real <= mm * dpi / MmPerInch + 0.5
  {
    Round(mm / MmPerInch * dpi)
  }

  /** Pixels covered by `inches` at `dpi` dots per inch. */
  function InchesToPixels(inches: real, dpi: real := DefaultDpi): (px: int)
    ensures inches * dpi - 0.5 < px as real <= inches * dpi + 0.5
  {
    Round(inches * dpi)
  }

  /** Floor of a quotient of integers with a positive divisor is Dafny's (Euclidean) division. */
  lemma FloorOfQuotient(n: int, d: int)
    requires d > 0
    ensures (n as real / d as real).Floor == n / d
  {
    var q, m := n / d, n % d;
    assert n == q * d + m && 0 <= m < d;
    assert n as real == q as real * d as real + m as real;
    assert n as real / d as real == q as real + m as real / d as real;
    assert 0.0 <= m as real / d as real < 1.0;
  }

  /** For whole millimetres and a whole dpi the conversion is exact integer arithmetic. */
  lemma {:induction false} MmToPixelsExact(mm: int, dpi: int)
    ensures MmToPixels(mm as real, dpi as real) == (10 * mm * dpi + 127) / 254
  {
    var n := 10 * mm * dpi + 127;
    assert (mm * dpi) as real == mm as real * dpi as real;
    calc {
      mm as real / MmPerInch * dpi as real + 0.5;
      (10 * mm * dpi) as real / 254.0 + 127.0 / 254.0;
      n as real / 254 as real;
    }
    FloorOfQuotient(n, 254);
  }

  lemma MmToPixelsExamples()
    ensures MmToPixels(51.0, 300.0) == 602
    ensures MmToPixels(45.0, 300.0) == 531
    ensures MmToPixels(35.0, 300.0) == 413
    ensures MmToPixels(0.0, 300.0) == 0
  {
    MmToPixelsExact(51, 300);
    MmToPixelsExact(45, 300);
    MmToPixelsExact(35, 300);
    MmToPixelsExact(0, 300);
  }

  /** Zero millimetres is zero pixels at any resolution. */
  lemma MmToPixelsZero(dpi: real)
    ensures MmToPixels(0.0, dpi) == 0
  {
  }

  /** More millimetres never give fewer pixels. */
  lemma MmToPixelsMonotone(mm1: real, mm2: real, dpi: real)
    requires mm1 <= mm2 && dpi >= 0.0
    ensures MmToPixels(mm1, dpi) <= MmToPixels(mm2, dpi)
  {
    assert mm1 * dpi <= mm2 * dpi by {
      assert (mm2 - mm1) * dpi >= 0.0;
    }
    assert mm1 / MmPerInch * dpi + 0.5 <= mm2 / MmPerInch * dpi + 0.5;
  }

  /** A non-negative length is a non-negative number of pixels at a non-negative resolution. */
  lemma MmToPixelsNonNegative(mm: real, dpi: real)
    requires mm >= 0.0 && dpi >= 0.0
    ensures MmToPixels(mm, dpi) >= 0
  {
    MmToPixelsMonotone(0.0, mm, dpi);
  }

  /** A length given in millimetres as 25.4 k converts exactly as k inches does. */
  lemma MmAgreesWithInches(k: real, dpi: real)
    ensures MmToPixels(MmPerInch * k, dpi) == InchesToPixels(k, dpi)
  {
    assert MmPerInch * k / MmPerInch * dpi == k * dpi;
  }

  // ---------------------------------------------------------------------------
  // Sheet layout

  /** Math.floor of the quotient n / d, for a nonzero divisor of either sign. */
  function FloorDiv(n: int, d: int): (q: int)
    requires d != 0
    ensures d > 0 ==> q * d <= n < q * d + d
    ensures d < 0 ==> q * d >= n > q * d + d
  {
    if d > 0 then n / d else (-n) / (-d)
  }

  /** `n` tiles of `size` separated by `n - 1` gaps fit into `avail`. */
  predicate Fits(n: int, size: int, gap: int, avail: int) {
    n * size + (n - 1) * gap <= avail
  }

  /** Sheet width left between the two side margins. */
  function AvailableWidth(sheet: SheetSize, marginMm: int): int {
    sheet.widthMm - marginMm * 2
  }

  /** Sheet height left between the top and bottom margins. */
  function AvailableHeight(sheet: SheetSize, marginMm: int): int {
    sheet.heightMm - marginMm * 2
  }

  function CalculateSheetLayout(photo: PhotoSpec, sheet: SheetSize,
                                marginMm: int := DefaultMarginMm, gapMm: int := DefaultGapMm): (r: SheetLayout)
    requires photo.width + gapMm != 0 && photo.height + gapMm != 0
    ensures r.total == r.cols * r.rows
  {
    var availableWidth := AvailableWidth(sheet, marginMm);
    var availableHeight := AvailableHeight(sheet, marginMm);
    var cols := FloorDiv(availableWidth + gapMm, photo.width + gapMm);
    var rows := FloorDiv(availableHeight + gapMm, photo.height + gapMm);
    SheetLayout(cols, rows, cols * rows)
  }

  lemma MulLeftMonotone(a: int, b: int, d: int)
    requires a <= b && d > 0
    ensures a * d <= b * d
  {
    assert b * d - a * d == (b - a) * d;
  }

  /**
   * With a positive pitch `size + gap`, the floor formula gives exactly the
   * largest count whose tiles and inner gaps fit the available length.
   */
  lemma {:induction false} FloorFormulaIsLargestFit(size: int, gap: int, avail: int)
    requires size + gap > 0
    ensures forall n :: Fits(n, size, gap, avail) <==> n <= FloorDiv(avail + gap, size + gap)
  {
    var d, q := size + gap, FloorDiv(avail + gap, size + gap);
    forall n
      ensures Fits(n, size, gap, avail) <==> n <= q
    {
      assert n * size + (n - 1) * gap == n * d - gap;
      if n <= q {
        MulLeftMonotone(n, q, d);
      } else {
        MulLeftMonotone(q + 1, n, d);
      }
    }
  }

  /** `cols` is the largest count of photo widths and inner gaps that fits between the margins. */
  lemma LayoutColsLargestFit(photo: PhotoSpec, sheet: SheetSize, marginMm: int, gapMm: int)
    requires photo.width + gapMm > 0 && photo.height + gapMm != 0
    ensures var cols := CalculateSheetLayout(photo, sheet, marginMm, gapMm).cols;
            forall n :: Fits(n, photo.width, gapMm, AvailableWidth(sheet, marginMm)) <==> n <= cols
  {
    FloorFormulaIsLargestFit(photo.width, gapMm, AvailableWidth(sheet, marginMm));
  }

  /** `rows` is the largest count of photo heights and inner gaps that fits between the margins. */
  lemma LayoutRowsLargestFit(photo: PhotoSpec, sheet: SheetSize, marginMm: int, gapMm: int)
    requires photo.width + gapMm != 0 && photo.height + gapMm > 0
    ensures var rows := CalculateSheetLayout(photo, sheet, marginMm, gapMm).rows;
            forall n :: Fits(n, photo.height, gapMm, AvailableHeight(sheet, marginMm)) <==> n <= rows
  {
    FloorFormulaIsLargestFit(photo.height, gapMm, AvailableHeight(sheet, marginMm));
  }

  /** Without a clamp, `cols` is non-negative exactly when the available width plus one gap is. */
  lemma LayoutNonNegativeIff(photo: PhotoSpec, sheet: SheetSize, marginMm: int, gapMm: int)
    requires photo.width + gapMm > 0 && photo.height + gapMm > 0
    ensures var r := CalculateSheetLayout(photo, sheet, marginMm, gapMm);
            && (r.cols >= 0 <==> sheet.widthMm - 2 * marginMm + gapMm >= 0)
            && (r.rows >= 0 <==> sheet.heightMm - 2 * marginMm + gapMm >= 0)
  {
  }

  /** A wider sheet never holds fewer columns. */
  lemma LayoutColsMonotone(photo: PhotoSpec, narrow: SheetSize, wide: SheetSize, marginMm: int, gapMm: int)
    requires photo.width + gapMm > 0 && photo.height + gapMm != 0
    requires narrow.widthMm <= wide.widthMm
    ensures CalculateSheetLayout(photo, narrow, marginMm, gapMm).cols <= CalculateSheetLayout(photo, wide, marginMm, gapMm).cols
  {
    var d := photo.width + gapMm;
    var c := FloorDiv(AvailableWidth(narrow, marginMm) + gapMm, d);
    FloorFormulaIsLargestFit(photo.width, gapMm, AvailableWidth(narrow, marginMm));
    assert Fits(c, photo.width, gapMm, AvailableWidth(narrow, marginMm));
    FloorFormulaIsLargestFit(photo.width, gapMm, AvailableWidth(wide, marginMm));
    assert Fits(c, photo.width, gapMm, AvailableWidth(wide, marginMm));
  }

  /**
   * The announced total is positive exactly when cols and rows have the same non-zero sign:
   * one side too short for a photo (a negative count) with the other long enough gives no positive total.
   */
  lemma LayoutTotalSign(photo: PhotoSpec, sheet: SheetSize, marginMm: int, gapMm: int)
    requires photo.width + gapMm != 0 && photo.height + gapMm != 0
    ensures var r := CalculateSheetLayout(photo, sheet, marginMm, gapMm);
            r.total > 0 <==> (r.cols > 0 && r.rows > 0) || (r.cols < 0 && r.rows < 0)
  {
    var r := CalculateSheetLayout(photo, sheet, marginMm, gapMm);
    if r.cols > 0 && r.rows < 0 {
      MulLeftMonotone(r.rows, -1, r.cols);
    } else if r.cols < 0 && r.rows > 0 {
      MulLeftMonotone(r.cols, -1, r.rows);
    } else if r.cols > 0 && r.rows > 0 {
      MulLeftMonotone(1, r.cols, r.rows);
    } else if r.cols < 0 && r.rows < 0 {
      MulLeftMonotone(1, -r.cols, -r.rows);
    }
  }

  /** Every listed photo fits at least once on every listed sheet with the default margin and gap. */
  lemma ListedLayoutsPositive(i: int, j: int)
    requires 0 <= i < |PHOTO_SPECS| && 0 <= j < |SHEET_SIZES|
    ensures var r := CalculateSheetLayout(PHOTO_SPECS[i], SHEET_SIZES[j]);
            r.cols >= 1 && r.rows >= 1 && r.total >= 1
  {
    var photo, sheet := PHOTO_SPECS[i], SHEET_SIZES[j];
    assert photo.width <= 51 && photo.height <= 70;
    assert sheet.widthMm >= 102 && sheet.heightMm >= 152;
    LayoutColsLargestFit(photo, sheet, DefaultMarginMm, DefaultGapMm);
    LayoutRowsLargestFit(photo, sheet, DefaultMarginMm, DefaultGapMm);
    assert Fits(1, photo.width, DefaultGapMm, AvailableWidth(sheet, DefaultMarginMm));
    assert Fits(1, photo.height, DefaultGapMm, AvailableHeight(sheet, DefaultMarginMm));
    LayoutTotalSign(photo, sheet, DefaultMarginMm, DefaultGapMm);
  }

  /** The default layouts for the standard 4x6 sheet (102 mm wide, 152 mm high). */
  lemma LayoutExamples()
    ensures CalculateSheetLayout(PHOTO_SPECS[1], SHEET_SIZES[0]) == SheetLayout(2, 3, 6)
    ensures CalculateSheetLayout(PHOTO_SPECS[0], SHEET_SIZES[0]) == SheetLayout(1, 2, 2)
  {
  }
}
