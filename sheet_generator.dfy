/**
 * Tiling one cropped photo onto a printable sheet (generateSheet in
 * src/components/SheetGenerator.tsx).
 *
 * Drawing on the canvas is modelled as appending commands to a sequence; each
 * command carries the coordinates it was given and the stroke style in force.
 * The pixels those commands produce are not modelled.
 */
module SheetGenerator {
  import opened Wrappers
  import opened PhotoSpecs

  /** Spacing the renderer uses, in millimetres. */
  const MarginMm: int := 5
  const GapMm: int := 2
  const MarkLengthMm: real := 3.0

  /** The on-screen preview is rendered at 150 dpi; download and print at 300 dpi. */
  const PreviewDpi: real := 150.0
  const ExportDpi: real := 300.0

  const White: string := "#FFFFFF"
  const BorderColor: string := "#E0E0E0"
  const BorderWidth: real := 1.0
  const MarkColor: string := "#CCCCCC"
  const MarkWidth: real := 0.5

  datatype Point = Point(x: real, y: real)
  datatype Segment = Segment(from: Point, to: Point)

  /** One call on the 2D context, with the style it was drawn in. */
  datatype Command =
    | FillRect(x: int, y: int, w: int, h: int, color: string)
    | DrawImage(x: int, y: int, w: int, h: int)
    | StrokeRect(x: int, y: int, w: int, h: int, color: string, lineWidth: real)
    | StrokePath(first: Segment, second: Segment, color: string, lineWidth: real)

  /** A finished sheet: canvas size and everything drawn on it, in order. */
  datatype Sheet = Sheet(width: int, height: int, commands: seq<Command>)

  /** The pixel lengths the renderer derives from millimetres at one resolution. */
  datatype Grid = Grid(margin: int, photoW: int, photoH: int, gap: int, markLen: int)

  function Max0(n: int): nat {
    if n < 0 then 0 else n
  }

  function Abs(x: real): real {
    if x < 0.0 then -x else x
  }

  /** `px` is `mm` millimetres at `dpi`, to the nearest pixel (halves rounding up). */
  predicate NearestPixels(px: int, mm: real, dpi: real) {
    mm * dpi / MmPerInch - 0.5 < px as real <= mm * dpi / MmPerInch + 0.5
  }

  /** Every length of the grid is its millimetre length at `dpi`, to the nearest pixel. */
  function PixelGrid(photo: PhotoSpec, dpi: real): (g: Grid)
    ensures NearestPixels(g.margin, MarginMm as real, dpi) && NearestPixels(g.gap, GapMm as real, dpi)
    ensures NearestPixels(g.photoW, photo.width as real, dpi) && NearestPixels(g.photoH, photo.height as real, dpi)
    ensures NearestPixels(g.markLen, MarkLengthMm, dpi)
  {
    Grid(MmToPixels(MarginMm as real, dpi),
         MmToPixels(photo.width as real, dpi),
         MmToPixels(photo.height as real, dpi),
         MmToPixels(GapMm as real, dpi),
         MmToPixels(MarkLengthMm, dpi))
  }

  /** Left edge of the tiles in column `col`. */
  function TileX(g: Grid, col: int): int {
    g.margin + col * (g.photoW + g.gap)
  }

  /** Top edge of the tiles in row `row`. */
  function TileY(g: Grid, row: int): int {
    g.margin + row * (g.photoH + g.gap)
  }

  /** One stroked path of two arms: an L-shaped crop mark. */
  function Mark(a0: Point, a1: Point, b0: Point, b1: Point): Command {
    StrokePath(Segment(a0, a1), Segment(b0, b1), MarkColor, MarkWidth)
  }

  /** The L-shaped marks at the corners of the tile at (x, y): top-left, top-right, bottom-left, bottom-right. */
  function CornerMarks(g: Grid, x: int, y: int): (marks: seq<Command>)
    ensures |marks| == 4
    ensures forall i :: 0 <= i < 4 ==> marks[i].StrokePath? && marks[i].color == MarkColor && marks[i].lineWidth == MarkWidth
  {
    var left, top := x as real, y as real;
    var right, bottom := (x + g.photoW) as real, (y + g.photoH) as real;
    var half, len := g.gap as real / 2.0, g.markLen as real;
    [ Mark(Point(left - half, top), Point(left - half, top - len),
           Point(left, top - half), Point(left - len, top - half)),
      Mark(Point(right + half, top), Point(right + half, top - len),
           Point(right, top - half), Point(right + len, top - half)),
      Mark(Point(left - half, bottom), Point(left - half, bottom + len),
           Point(left, bottom + half), Point(left - len, bottom + half)),
      Mark(Point(right + half, bottom), Point(right + half, bottom + len),
           Point(right, bottom + half), Point(right + len, bottom + half)) ]
  }

  /** The renderer makes two passes over the grid: photos with borders, then crop marks. */
  datatype Pass = Photos | Marks

  function PerTile(p: Pass): nat {
    match p
    case Photos => 2
    case Marks => 4
  }

  /** What one pass draws for the tile in row `row`, column `col`. */
  function TileCommands(p: Pass, g: Grid, row: int, col: int): (cs: seq<Command>)
    ensures |cs| == PerTile(p)
  {
    var x, y := TileX(g, col), TileY(g, row);
    match p
    case Photos => [DrawImage(x, y, g.photoW, g.photoH), StrokeRect(x, y, g.photoW, g.photoH, BorderColor, BorderWidth)]
    case Marks => CornerMarks(g, x, y)
  }

  /** What a pass draws for each tile, as a function of (row, col). */
  type TileFn = (int, int) -> seq<Command>

  function PassTile(p: Pass, g: Grid): TileFn {
    (row, col) => TileCommands(p, g, row, col)
  }

  /** Every tile of `tile` is drawn with exactly `w` commands. */
  ghost predicate Uniform(tile: TileFn, w: nat) {
    forall row, col :: |tile(row, col)| == w
  }

  lemma PassTileUniform(p: Pass, g: Grid)
    ensures Uniform(PassTile(p, g), PerTile(p))
  {
  }

  /** What a pass draws for the first `n` columns of row `row`. */
  function RowCommands(tile: TileFn, row: int, n: int): seq<Command>
    decreases n
  {
    if n <= 0 then [] else RowCommands(tile, row, n - 1) + tile(row, n - 1)
  }

  /** What a pass draws for the first `n` rows of a grid `cols` wide. */
  function PassCommands(tile: TileFn, n: int, cols: int): seq<Command>
    decreases n
  {
    if n <= 0 then [] else PassCommands(tile, n - 1, cols) + RowCommands(tile, n - 1, cols)
  }

  /** One loop step of either pass: drawing the next tile of the current row. */
  lemma AppendTile(tile: TileFn, prefix: seq<Command>, row: int, col: int, cmds: seq<Command>, drawn: seq<Command>)
    requires col >= 0
    requires cmds == prefix + RowCommands(tile, row, col)
    requires drawn == tile(row, col)
    ensures cmds + drawn == prefix + RowCommands(tile, row, col + 1)
  {
  }

  /** One step of the crop-mark loop: the marks computed at the loop's (x, y) are those of tile (row, col). */
  lemma AppendMarks(tile: TileFn, prefix: seq<Command>, margin: int, photoW: int, photoH: int, gap: int, markLen: int,
                    row: int, col: int, cmds: seq<Command>)
    requires tile == PassTile(Marks, Grid(margin, photoW, photoH, gap, markLen))
    requires col >= 0 && cmds == prefix + RowCommands(tile, row, col)
    ensures cmds + CornerMarks(Grid(margin, photoW, photoH, gap, markLen), margin + col * (photoW + gap), margin + row * (photoH + gap))
         == prefix + RowCommands(tile, row, col + 1)
  {
    AppendTile(tile, prefix, row, col, cmds, tile(row, col));
  }

  /** Leaving the inner loop of either pass: the current row is complete. */
  lemma AppendRow(tile: TileFn, before: seq<Command>, row: int, cols: int, col: int, cmds: seq<Command>)
    requires row >= 0 && col == Max0(cols)
    requires cmds == before + PassCommands(tile, row, cols) + RowCommands(tile, row, col)
    ensures cmds == before + PassCommands(tile, row + 1, cols)
  {
  }

  lemma SixPerTile(a: int, b: int)
    ensures a * (b * 2) + a * (b * 4) == 6 * (a * b)
  {
  }

  /** The sheet that generateSheet produces at resolution `dpi` once the image and a context are available. */
  function RenderedSheet(photo: PhotoSpec, sheet: SheetSize, layout: SheetLayout, dpi: real): (s: Sheet)
    ensures NearestPixels(s.width, sheet.widthMm as real, dpi) && NearestPixels(s.height, sheet.heightMm as real, dpi)
    ensures |s.commands| == 1 + 6 * (Max0(layout.rows) * Max0(layout.cols))
    ensures s.commands[0] == FillRect(0, 0, s.width, s.height, White)
  {
    var w, h := MmToPixels(sheet.widthMm as real, dpi), MmToPixels(sheet.heightMm as real, dpi);
    var g := PixelGrid(photo, dpi);
    PassTileUniform(Photos, g);
    PassTileUniform(Marks, g);
    PassLength(PassTile(Photos, g), 2, layout.rows, layout.cols);
    PassLength(PassTile(Marks, g), 4, layout.rows, layout.cols);
    SixPerTile(Max0(layout.rows), Max0(layout.cols));
    Sheet(w, h, [FillRect(0, 0, w, h, White)]
                + PassCommands(PassTile(Photos, g), layout.rows, layout.cols)
                + PassCommands(PassTile(Marks, g), layout.rows, layout.cols))
  }

  /** The body of the photo loop for tile (row, col): the photo, then its thin cutting border. */
  method DrawTilePhoto(cmds: seq<Command>, margin: int, photoWidth: int, photoHeight: int, gap: int, ghost markLen: int,
                       row: int, col: int, ghost tile: TileFn, ghost prefix: seq<Command>) returns (next: seq<Command>)
    requires tile == PassTile(Photos, Grid(margin, photoWidth, photoHeight, gap, markLen))
    requires col >= 0 && cmds == prefix + RowCommands(tile, row, col)
    ensures next == prefix + RowCommands(tile, row, col + 1)
  {
    var x := margin + col * (photoWidth + gap);
    var y := margin + row * (photoHeight + gap);
    AppendTile(tile, prefix, row, col, cmds,
               [DrawImage(x, y, photoWidth, photoHeight), StrokeRect(x, y, photoWidth, photoHeight, BorderColor, BorderWidth)]);
    next := cmds + [DrawImage(x, y, photoWidth, photoHeight)];
    var strokeStyle, lineWidth := BorderColor, BorderWidth;
    next := next + [StrokeRect(x, y, photoWidth, photoHeight, strokeStyle, lineWidth)];
  }

  /** The first drawing loop: every tile's photo and its thin cutting border, row by row. */
  method DrawPhotoPass(before: seq<Command>, margin: int, photoWidth: int, photoHeight: int, gap: int,
                       ghost markLen: int, rows: int, cols: int) returns (cmds: seq<Command>)
    ensures cmds == before + PassCommands(PassTile(Photos, Grid(margin, photoWidth, photoHeight, gap, markLen)), rows, cols)
  {
    ghost var tile := PassTile(Photos, Grid(margin, photoWidth, photoHeight, gap, markLen));
    cmds := before;
    var row := 0;
    while row < rows
      invariant 0 <= row <= Max0(rows)
      invariant cmds == before + PassCommands(tile, row, cols)
    {
      var col := 0;
      while col < cols
        invariant 0 <= col <= Max0(cols)
        invariant cmds == before + PassCommands(tile, row, cols) + RowCommands(tile, row, col)
      {
        cmds := DrawTilePhoto(cmds, margin, photoWidth, photoHeight, gap, markLen, row, col, tile, before + PassCommands(tile, row, cols));
        col := col + 1;
      }
      AppendRow(tile, before, row, cols, col, cmds);
      row := row + 1;
    }
  }

  /** The body of the crop-mark loop for tile (row, col): its four L-shaped marks, top-left, top-right, bottom-left, bottom-right. */
  method DrawTileMarks(cmds: seq<Command>, margin: int, photoWidth: int, photoHeight: int, gap: int, dpi: real,
                       row: int, col: int, ghost tile: TileFn, ghost prefix: seq<Command>) returns (next: seq<Command>)
    requires tile == PassTile(Marks, Grid(margin, photoWidth, photoHeight, gap, MmToPixels(MarkLengthMm, dpi)))
    requires col >= 0 && cmds == prefix + RowCommands(tile, row, col)
    ensures next == prefix + RowCommands(tile, row, col + 1)
  {
    var x := margin + col * (photoWidth + gap);
    var y := margin + row * (photoHeight + gap);
    var markLength := MmToPixels(MarkLengthMm, dpi);
    var marks := CornerMarks(Grid(margin, photoWidth, photoHeight, gap, markLength), x, y);
    AppendMarks(tile, prefix, margin, photoWidth, photoHeight, gap, markLength, row, col, cmds);
    next := cmds + marks;
  }

  /** The second drawing loop: four L-shaped crop marks around every tile, at the same origins. */
  method DrawMarkPass(before: seq<Command>, margin: int, photoWidth: int, photoHeight: int, gap: int,
                      dpi: real, rows: int, cols: int) returns (cmds: seq<Command>)
    ensures cmds == before + PassCommands(PassTile(Marks, Grid(margin, photoWidth, photoHeight, gap, MmToPixels(MarkLengthMm, dpi))), rows, cols)
  {
    ghost var tile := PassTile(Marks, Grid(margin, photoWidth, photoHeight, gap, MmToPixels(MarkLengthMm, dpi)));
    cmds := before;
    var row := 0;
    while row < rows
      invariant 0 <= row <= Max0(rows)
      invariant cmds == before + PassCommands(tile, row, cols)
    {
      var col := 0;
      while col < cols
        invariant 0 <= col <= Max0(cols)
        invariant cmds == before + PassCommands(tile, row, cols) + RowCommands(tile, row, col)
      {
        cmds := DrawTileMarks(cmds, margin, photoWidth, photoHeight, gap, dpi, row, col, tile, before + PassCommands(tile, row, cols));
        col := col + 1;
      }
      AppendRow(tile, before, row, cols, col, cmds);
      row := row + 1;
    }
  }

  /**
   * generateSheet: no sheet when the image fails to load or no 2D context is
   * available; otherwise a white canvas of the sheet's pixel size, every tile
   * with its border, then every tile's four corner marks.
   */
  method GenerateSheet(photo: PhotoSpec, sheet: SheetSize, layout: SheetLayout, dpi: real,
                       imageLoads: bool, contextAvailable: bool) returns (r: Option<Sheet>)
    ensures r.Some? <==> imageLoads && contextAvailable
    ensures r.Some? ==> r.value == RenderedSheet(photo, sheet, layout, dpi)
  {
    if !imageLoads {
      return None;
    }
    var canvasWidth := MmToPixels(sheet.widthMm as real, dpi);
    var canvasHeight := MmToPixels(sheet.heightMm as real, dpi);
    if !contextAvailable {
      return None;
    }

    var fillStyle := White;
    var cmds := [FillRect(0, 0, canvasWidth, canvasHeight, fillStyle)];

    var photoWidth := MmToPixels(photo.width as real, dpi);
    var photoHeight := MmToPixels(photo.height as real, dpi);
    var margin := MmToPixels(MarginMm as real, dpi);
    var gap := MmToPixels(GapMm as real, dpi);

    cmds := DrawPhotoPass(cmds, margin, photoWidth, photoHeight, gap, MmToPixels(MarkLengthMm, dpi), layout.rows, layout.cols);
    cmds := DrawMarkPass(cmds, margin, photoWidth, photoHeight, gap, dpi, layout.rows, layout.cols);
    r := Some(Sheet(canvasWidth, canvasHeight, cmds));
  }

  /** The layout the component computes once, from millimetres, with the renderer's own margin and gap. */
  function ComponentLayout(photo: PhotoSpec, sheet: SheetSize): (layout: SheetLayout)
    requires photo.width + GapMm != 0 && photo.height + GapMm != 0
    ensures layout == CalculateSheetLayout(photo, sheet)
    ensures layout.total == layout.cols * layout.rows
  {
    CalculateSheetLayout(photo, sheet, MarginMm, GapMm)
  }

  /** The on-screen preview: generateSheet at 150 dpi with the component's layout. */
  method PreviewSheet(photo: PhotoSpec, sheet: SheetSize, imageLoads: bool, contextAvailable: bool)
    returns (r: Option<Sheet>)
    requires photo.width + GapMm != 0 && photo.height + GapMm != 0
    ensures r.Some? <==> imageLoads && contextAvailable
    ensures r.Some? ==> r.value == RenderedSheet(photo, sheet, ComponentLayout(photo, sheet), PreviewDpi)
  {
    r := GenerateSheet(photo, sheet, ComponentLayout(photo, sheet), PreviewDpi, imageLoads, contextAvailable);
  }

  /** Download and print: generateSheet at 300 dpi with the same layout. */
  method ExportSheet(photo: PhotoSpec, sheet: SheetSize, imageLoads: bool, contextAvailable: bool)
    returns (r: Option<Sheet>)
    requires photo.width + GapMm != 0 && photo.height + GapMm != 0
    ensures r.Some? <==> imageLoads && contextAvailable
    ensures r.Some? ==> r.value == RenderedSheet(photo, sheet, ComponentLayout(photo, sheet), ExportDpi)
  {
    r := GenerateSheet(photo, sheet, ComponentLayout(photo, sheet), ExportDpi, imageLoads, contextAvailable);
  }

  // ---------------------------------------------------------------------------
  // Coverage and order of the drawing loops

  lemma {:induction false} RowLength(tile: TileFn, w: nat, row: int, n: int)
    requires Uniform(tile, w)
    ensures |RowCommands(tile, row, n)| == Max0(n) * w
    decreases n
  {
    if n > 0 {
      RowLength(tile, w, row, n - 1);
      assert |tile(row, n - 1)| == w;
    }
  }

  lemma {:induction false} PassLength(tile: TileFn, w: nat, n: int, cols: int)
    requires Uniform(tile, w)
    ensures |PassCommands(tile, n, cols)| == Max0(n) * (Max0(cols) * w)
    decreases n
  {
    if n > 0 {
      var rowLen := Max0(cols) * w;
      PassLength(tile, w, n - 1, cols);
      RowLength(tile, w, n - 1, cols);
      assert Max0(n) * rowLen == Max0(n - 1) * rowLen + rowLen;
    }
  }

  /** Command j of tile `col` sits inside a row of n tiles of w commands each. */
  lemma BlockBelow(col: int, n: int, w: int, j: int)
    requires 0 <= col < n && 0 <= j < w
    ensures 0 <= col * w + j < n * w
  {
    MulLeftMonotone(col + 1, n, w);
  }

  /** The flat position of command j of tile (row, col): past `row` full rows, then inside the row. */
  lemma BlockIndex(row: int, n: int, cols: int, col: int, w: int, j: int)
    requires 0 <= row < n && 0 <= col < cols && 0 <= j < w
    ensures (row * cols + col) * w + j == row * (cols * w) + (col * w + j)
    ensures 0 <= col * w + j < cols * w
    ensures (row * cols + col) * w + j < n * (cols * w)
  {
    BlockBelow(col, cols, w, j);
    BlockBelow(row, n, cols * w, col * w + j);
  }

  /** Within a row, tile `col` occupies the `col`-th block of w commands. */
  lemma {:induction false} RowCommandsAt(tile: TileFn, w: nat, row: int, n: int, col: int, j: int)
    requires Uniform(tile, w)
    requires 0 <= col < n && 0 <= j < w
    ensures col * w + j < |RowCommands(tile, row, n)|
         && RowCommands(tile, row, n)[col * w + j] == tile(row, col)[j]
    decreases n
  {
    RowLength(tile, w, row, n);
    RowLength(tile, w, row, n - 1);
    BlockBelow(col, n, w, j);
    if col < n - 1 {
      RowCommandsAt(tile, w, row, n - 1, col, j);
    } else {
      assert col * w + j == (n - 1) * w + j;
    }
  }

  /** Across the pass, tile (row, col) occupies block row * cols + col: the tiles are drawn in row-major order. */
  lemma {:induction false} PassCommandsAt(tile: TileFn, w: nat, n: int, cols: int, row: int, col: int, j: int)
    requires Uniform(tile, w)
    requires 0 <= row < n && 0 <= col < cols && 0 <= j < w
    ensures (row * cols + col) * w + j < |PassCommands(tile, n, cols)|
         && PassCommands(tile, n, cols)[(row * cols + col) * w + j] == tile(row, col)[j]
    decreases n
  {
    assert Max0(n) == n && Max0(n - 1) == n - 1 && Max0(cols) == cols;
    PassLength(tile, w, n, cols);
    PassLength(tile, w, n - 1, cols);
    BlockIndex(row, n, cols, col, w, j);
    if row < n - 1 {
      BlockIndex(row, n - 1, cols, col, w, j);
      PassCommandsAt(tile, w, n - 1, cols, row, col, j);
    } else {
      RowCommandsAt(tile, w, row, cols, col, j);
    }
  }

  /** Quotient and remainder of a row-major index. */
  lemma RowMajorDivMod(row: int, cols: int, col: int)
    requires 0 <= col < cols
    ensures (row * cols + col) / cols == row && (row * cols + col) % cols == col
  {
    var k := row * cols + col;
    var q, m := k / cols, k % cols;
    assert q * cols + m == row * cols + col;
    assert (q - row) * cols == col - m;
    if q > row {
      MulLeftMonotone(1, q - row, cols);
    } else if q < row {
      MulLeftMonotone(1, row - q, cols);
    }
  }

  /** Floor division by a positive divisor keeps an index below n * d below n. */
  lemma QuotientBelow(k: int, n: int, d: int)
    requires d > 0 && 0 <= k < n * d
    ensures 0 <= k / d < n
  {
    if k / d >= n {
      MulLeftMonotone(n, k / d, d);
    }
  }

  /** A flat index below rows * cols * w names a tile of the grid. */
  lemma RowMajorBounds(k: int, rows: nat, cols: nat, w: int)
    requires w > 0 && 0 <= k < rows * (cols * w)
    ensures cols > 0 && 0 <= (k / w) / cols < rows
    ensures k == ((k / w) / cols * cols + (k / w) % cols) * w + k % w
  {
    var t := k / w;
    assert rows * (cols * w) == rows * cols * w;
    QuotientBelow(k, rows * cols, w);
    assert cols > 0;
    QuotientBelow(t, rows, cols);
    assert t == t / cols * cols + t % cols;
  }

  /** Every command of a pass belongs to exactly the tile its index names: none is drawn outside the grid. */
  lemma PassCommandsIndex(tile: TileFn, w: nat, n: int, cols: int, k: int)
    requires Uniform(tile, w) && w > 0
    requires 0 <= k < |PassCommands(tile, n, cols)|
    ensures cols > 0
    ensures var t := k / w;
            0 <= t / cols < n && 0 <= t % cols < cols
            && PassCommands(tile, n, cols)[k] == tile(t / cols, t % cols)[k % w]
  {
    PassLength(tile, w, n, cols);
    RowMajorBounds(k, Max0(n), Max0(cols), w);
    PassCommandsAt(tile, w, n, cols, (k / w) / cols, (k / w) % cols, k % w);
  }

  // ---------------------------------------------------------------------------
  // The photos drawn: exactly the grid, in row-major order

  /** A rectangle drawn on the canvas, in pixels. */
  datatype Rect = Rect(x: int, y: int, w: int, h: int)

  function TileRect(g: Grid, row: int, col: int): Rect {
    Rect(TileX(g, col), TileY(g, row), g.photoW, g.photoH)
  }

  /** The rectangles of the drawImage calls among `cs`, in drawing order. */
  function ImageRects(cs: seq<Command>): seq<Rect> {
    if |cs| == 0 then []
    else (if cs[0].DrawImage? then [Rect(cs[0].x, cs[0].y, cs[0].w, cs[0].h)] else []) + ImageRects(cs[1..])
  }

  /** Reference definition: the tiles of a rows-by-cols grid, listed row by row. */
  function GridRects(g: Grid, rows: int, cols: int): (rs: seq<Rect>)
    ensures |rs| == Max0(rows) * Max0(cols)
  {
    var n, c := Max0(rows), Max0(cols);
    seq(n * c, k requires 0 <= k < n * c => TileRect(g, k / c, k % c))
  }

  lemma {:induction false} ImageRectsAppend(a: seq<Command>, b: seq<Command>)
    ensures ImageRects(a + b) == ImageRects(a) + ImageRects(b)
    decreases |a|
  {
    if |a| == 0 {
      assert a + b == b;
    } else {
      assert (a + b)[0] == a[0] && (a + b)[1..] == a[1..] + b;
      ImageRectsAppend(a[1..], b);
    }
  }

  lemma {:induction false} ImagesOfRow(g: Grid, row: int, n: int)
    ensures ImageRects(RowCommands(PassTile(Photos, g), row, n)) == seq(Max0(n), c => TileRect(g, row, c))
    decreases n
  {
    if n > 0 {
      var x, y := TileX(g, n - 1), TileY(g, row);
      var tile := [DrawImage(x, y, g.photoW, g.photoH), StrokeRect(x, y, g.photoW, g.photoH, BorderColor, BorderWidth)];
      assert PassTile(Photos, g)(row, n - 1) == tile;
      ImagesOfRow(g, row, n - 1);
      ImageRectsAppend(RowCommands(PassTile(Photos, g), row, n - 1), tile);
      assert ImageRects(tile) == [TileRect(g, row, n - 1)] by {
        assert ImageRects(tile[1..]) == [] by {
          assert tile[1..][1..] == [];
        }
      }
    }
  }

  /** The grid is its first rows followed by its last row. */
  lemma GridRectsSplit(g: Grid, n: int, cols: int)
    requires n > 0 && cols > 0
    ensures GridRects(g, n, cols) == GridRects(g, n - 1, cols) + seq(cols, c => TileRect(g, n - 1, c))
  {
    var lhs, rhs := GridRects(g, n, cols), GridRects(g, n - 1, cols) + seq(cols, c => TileRect(g, n - 1, c));
    assert |lhs| == |rhs|;
    forall k | 0 <= k < |lhs|
      ensures lhs[k] == rhs[k]
    {
      if k >= (n - 1) * cols {
        RowMajorDivMod(n - 1, cols, k - (n - 1) * cols);
      }
    }
  }

  lemma {:induction false} ImagesOfPhotoPass(g: Grid, n: int, cols: int)
    ensures ImageRects(PassCommands(PassTile(Photos, g), n, cols)) == GridRects(g, n, cols)
    decreases n
  {
    if n > 0 {
      var tile := PassTile(Photos, g);
      var done, last := PassCommands(tile, n - 1, cols), RowCommands(tile, n - 1, cols);
      assert PassCommands(tile, n, cols) == done + last;
      ImagesOfPhotoPass(g, n - 1, cols);
      ImageRectsAppend(done, last);
      ImagesOfRow(g, n - 1, cols);
      if cols > 0 {
        GridRectsSplit(g, n, cols);
      } else {
        assert ImageRects(last) == [];
        assert GridRects(g, n, cols) == [] == GridRects(g, n - 1, cols);
      }
    }
  }

  lemma {:induction false} NoImagesInMarkPass(g: Grid, n: int, cols: int)
    ensures ImageRects(PassCommands(PassTile(Marks, g), n, cols)) == []
    decreases n
  {
    if n > 0 {
      NoImagesInMarkPass(g, n - 1, cols);
      NoImagesInMarkRow(g, n - 1, cols);
      ImageRectsAppend(PassCommands(PassTile(Marks, g), n - 1, cols), RowCommands(PassTile(Marks, g), n - 1, cols));
    }
  }

  /** A command list without drawImage calls shows no photo. */
  lemma {:induction false} NoImages(cs: seq<Command>)
    requires forall i :: 0 <= i < |cs| ==> !cs[i].DrawImage?
    ensures ImageRects(cs) == []
    decreases |cs|
  {
    if |cs| > 0 {
      NoImages(cs[1..]);
    }
  }

  lemma {:induction false} NoImagesInMarkRow(g: Grid, row: int, n: int)
    ensures ImageRects(RowCommands(PassTile(Marks, g), row, n)) == []
    decreases n
  {
    if n > 0 {
      var marks := PassTile(Marks, g)(row, n - 1);
      NoImagesInMarkRow(g, row, n - 1);
      ImageRectsAppend(RowCommands(PassTile(Marks, g), row, n - 1), marks);
      NoImages(marks);
    }
  }

  /** Everything the finished sheet shows as photos: one per grid cell, row by row, at the tile positions. */
  lemma DrawnImagesAreGrid(photo: PhotoSpec, sheet: SheetSize, layout: SheetLayout, dpi: real)
    ensures ImageRects(RenderedSheet(photo, sheet, layout, dpi).commands)
         == GridRects(PixelGrid(photo, dpi), layout.rows, layout.cols)
  {
    var g := PixelGrid(photo, dpi);
    var w, h := MmToPixels(sheet.widthMm as real, dpi), MmToPixels(sheet.heightMm as real, dpi);
    var fill, photos, marks := [FillRect(0, 0, w, h, White)], PassCommands(PassTile(Photos, g), layout.rows, layout.cols),
                               PassCommands(PassTile(Marks, g), layout.rows, layout.cols);
    ImageRectsAppend(fill, photos);
    ImageRectsAppend(fill + photos, marks);
    ImagesOfPhotoPass(g, layout.rows, layout.cols);
    NoImagesInMarkPass(g, layout.rows, layout.cols);
    assert ImageRects(fill) == [] by {
      assert fill[1..] == [];
    }
  }

  /** With a non-negative layout, the sheet holds exactly the number of photos the component announces. */
  lemma DrawsLayoutTotal(photo: PhotoSpec, sheet: SheetSize, dpi: real)
    requires photo.width + GapMm != 0 && photo.height + GapMm != 0
    requires ComponentLayout(photo, sheet).cols >= 0 && ComponentLayout(photo, sheet).rows >= 0
    ensures |ImageRects(RenderedSheet(photo, sheet, ComponentLayout(photo, sheet), dpi).commands)|
         == ComponentLayout(photo, sheet).total
  {
    ImageCount(photo, sheet, ComponentLayout(photo, sheet), dpi);
  }

  lemma ImageCount(photo: PhotoSpec, sheet: SheetSize, layout: SheetLayout, dpi: real)
    requires layout.cols >= 0 && layout.rows >= 0 && layout.total == layout.cols * layout.rows
    ensures |ImageRects(RenderedSheet(photo, sheet, layout, dpi).commands)| == layout.total
  {
    DrawnImagesAreGrid(photo, sheet, layout, dpi);
    GridCount(PixelGrid(photo, dpi), layout.rows, layout.cols, layout.total);
  }

  /** A grid of non-negative dimensions has cols * rows cells. */
  lemma GridCount(g: Grid, rows: int, cols: int, total: int)
    requires cols >= 0 && rows >= 0 && total == cols * rows
    ensures |GridRects(g, rows, cols)| == total
  {
    assert Max0(rows) == rows && Max0(cols) == cols;
  }

  /** A sheet too small for one photo: the layout announces -1 x -1 = 1 photo, and none is drawn. */
  lemma TinySheetAnnouncesOnePhoto()
    ensures var tiny := SheetSize("tiny", "Tiny", 0.25, 0.25, 6, 6);
            var layout := ComponentLayout(PHOTO_SPECS[1], tiny);
            layout == SheetLayout(-1, -1, 1)
            && ImageRects(RenderedSheet(PHOTO_SPECS[1], tiny, layout, ExportDpi).commands) == []
  {
    var tiny := SheetSize("tiny", "Tiny", 0.25, 0.25, 6, 6);
    DrawnImagesAreGrid(PHOTO_SPECS[1], tiny, ComponentLayout(PHOTO_SPECS[1], tiny), ExportDpi);
  }

  /** A sheet too narrow for one photo but tall enough for three announces -1 x 3 = -3 photos. */
  lemma NarrowSheetAnnouncesNegativeTotal()
    ensures ComponentLayout(PHOTO_SPECS[1], SheetSize("narrow", "Narrow", 0.25, 6.0, 6, 152)) == SheetLayout(-1, 3, -3)
  {
  }

  /**
   * The 150 dpi preview and the 300 dpi sheet draw the same grid: as many photos, and the
   * k-th photo of each is the tile of the same row and column.
   */
  lemma PreviewAndExportShareGrid(photo: PhotoSpec, sheet: SheetSize)
    requires photo.width + GapMm != 0 && photo.height + GapMm != 0
    ensures var layout := ComponentLayout(photo, sheet);
            var preview := ImageRects(RenderedSheet(photo, sheet, layout, PreviewDpi).commands);
            var exported := ImageRects(RenderedSheet(photo, sheet, layout, ExportDpi).commands);
            |preview| == |exported| == Max0(layout.rows) * Max0(layout.cols)
            && forall k :: 0 <= k < |preview| ==>
                 preview[k] == TileRect(PixelGrid(photo, PreviewDpi), k / layout.cols, k % layout.cols)
                 && exported[k] == TileRect(PixelGrid(photo, ExportDpi), k / layout.cols, k % layout.cols)
  {
    var layout := ComponentLayout(photo, sheet);
    DrawnImagesAreGrid(photo, sheet, layout, PreviewDpi);
    DrawnImagesAreGrid(photo, sheet, layout, ExportDpi);
  }

  // ---------------------------------------------------------------------------
  // Tile geometry

  /** Two rectangles share no interior point. */
  predicate Disjoint(a: Rect, b: Rect) {
    a.x + a.w <= b.x || b.x + b.w <= a.x || a.y + a.h <= b.y || b.y + b.h <= a.y
  }

  /** At a non-negative resolution every pixel length of the grid is non-negative. */
  lemma PixelGridNonNegative(photo: PhotoSpec, dpi: real)
    requires photo.width >= 0 && photo.height >= 0 && dpi >= 0.0
    ensures var g := PixelGrid(photo, dpi);
            g.margin >= 0 && g.photoW >= 0 && g.photoH >= 0 && g.gap >= 0 && g.markLen >= 0
  {
    MmToPixelsNonNegative(MarginMm as real, dpi);
    MmToPixelsNonNegative(photo.width as real, dpi);
    MmToPixelsNonNegative(photo.height as real, dpi);
    MmToPixelsNonNegative(GapMm as real, dpi);
    MmToPixelsNonNegative(MarkLengthMm, dpi);
  }

  /** The next tile along a row (down a column) starts exactly `gap` pixels past the previous one's edge. */
  lemma AdjacentTilesGap(g: Grid, row: int, col: int)
    ensures TileX(g, col + 1) - (TileX(g, col) + g.photoW) == g.gap
    ensures TileY(g, row + 1) - (TileY(g, row) + g.photoH) == g.gap
  {
  }

  /** Columns further right start further right, by at least one tile and one gap. */
  lemma TileXSpacing(g: Grid, c1: int, c2: int)
    requires c1 < c2 && g.photoW >= 0 && g.gap >= 0
    ensures TileX(g, c1) + g.photoW + g.gap <= TileX(g, c2)
  {
    if g.photoW + g.gap > 0 {
      MulLeftMonotone(1, c2 - c1, g.photoW + g.gap);
    }
    assert TileX(g, c2) - TileX(g, c1) == (c2 - c1) * (g.photoW + g.gap);
  }

  lemma TileYSpacing(g: Grid, r1: int, r2: int)
    requires r1 < r2 && g.photoH >= 0 && g.gap >= 0
    ensures TileY(g, r1) + g.photoH + g.gap <= TileY(g, r2)
  {
    if g.photoH + g.gap > 0 {
      MulLeftMonotone(1, r2 - r1, g.photoH + g.gap);
    }
    assert TileY(g, r2) - TileY(g, r1) == (r2 - r1) * (g.photoH + g.gap);
  }

  /** No two distinct tiles overlap. */
  lemma TilesDisjoint(g: Grid, r1: int, c1: int, r2: int, c2: int)
    requires g.photoW >= 0 && g.photoH >= 0 && g.gap >= 0
    requires r1 != r2 || c1 != c2
    ensures Disjoint(TileRect(g, r1, c1), TileRect(g, r2, c2))
  {
    if c1 < c2 {
      TileXSpacing(g, c1, c2);
    } else if c2 < c1 {
      TileXSpacing(g, c2, c1);
    } else if r1 < r2 {
      TileYSpacing(g, r1, r2);
    } else {
      TileYSpacing(g, r2, r1);
    }
  }

  // ---------------------------------------------------------------------------
  // Crop-mark geometry

  /**
   * Reference shape of one crop mark at tile corner (cx, cy): `sx`, `sy` are -1 or 1 and point away
   * from the tile. A vertical arm `half` outside the corner and a horizontal arm `half` outside it,
   * each `len` long, both starting level with the tile's edge.
   */
  function OutwardL(cx: real, cy: real, sx: real, sy: real, half: real, len: real): Command {
    StrokePath(Segment(Point(cx + sx * half, cy), Point(cx + sx * half, cy + sy * len)),
               Segment(Point(cx, cy + sy * half), Point(cx + sx * len, cy + sy * half)),
               MarkColor, MarkWidth)
  }

  /** The four marks of a tile are outward L shapes at its four corners, in the order drawn. */
  lemma CornerMarksAreOutwardLs(g: Grid, x: int, y: int)
    ensures var half, len := g.gap as real / 2.0, g.markLen as real;
            var left, top, right, bottom := x as real, y as real, (x + g.photoW) as real, (y + g.photoH) as real;
            CornerMarks(g, x, y) == [OutwardL(left, top, -1.0, -1.0, half, len),
                                     OutwardL(right, top, 1.0, -1.0, half, len),
                                     OutwardL(left, bottom, -1.0, 1.0, half, len),
                                     OutwardL(right, bottom, 1.0, 1.0, half, len)]
  {
  }

  /** Each arm of an outward L is axis-parallel, `len` long and `half` away from the corner. */
  lemma OutwardLGeometry(cx: real, cy: real, sx: real, sy: real, half: real, len: real)
    requires sx == 1.0 || sx == -1.0
    requires sy == 1.0 || sy == -1.0
    requires half >= 0.0 && len >= 0.0
    ensures var m := OutwardL(cx, cy, sx, sy, half, len);
            m.first.from.x == m.first.to.x && Abs(m.first.to.y - m.first.from.y) == len
            && Abs(m.first.from.x - cx) == half && m.first.from.y == cy
            && m.second.from.y == m.second.to.y && Abs(m.second.to.x - m.second.from.x) == len
            && Abs(m.second.from.y - cy) == half && m.second.from.x == cx
  {
  }

  /**
   * Neighbouring tiles' marks meet on one cut line in the middle of the gap: the right-hand
   * vertical arms of a tile and the left-hand ones of the tile after it share their x, and the
   * lower horizontal arms of a tile and the upper ones of the tile below share their y.
   */
  lemma SharedCutLines(g: Grid, row: int, col: int)
    ensures var here := CornerMarks(g, TileX(g, col), TileY(g, row));
            var right := CornerMarks(g, TileX(g, col + 1), TileY(g, row));
            var below := CornerMarks(g, TileX(g, col), TileY(g, row + 1));
            var midX := ((TileX(g, col) + g.photoW) as real + TileX(g, col + 1) as real) / 2.0;
            var midY := ((TileY(g, row) + g.photoH) as real + TileY(g, row + 1) as real) / 2.0;
            here[1].first.from.x == right[0].first.from.x == midX
            && here[3].first.from.x == right[2].first.from.x == midX
            && here[2].second.from.y == below[0].second.from.y == midY
            && here[3].second.from.y == below[1].second.from.y == midY
  {
    AdjacentTilesGap(g, row, col);
  }
}
