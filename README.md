# Passport photo maker — a Dafny model of its core

The application lets a user upload or capture a portrait, pan and zoom it under a crop window
shaped like a country's passport photo, cut the chosen region out at the specification's print
resolution, and tile copies of it onto a printable sheet with cutting guides. This project models
that core and proves what it promises:

- `PhotoSpecs` (`wrappers.dfy`, `photo_specs.dfy`): the table of photo specifications and sheet
  sizes, the millimetre-to-pixel conversion (`Math.round` as `floor(x + 0.5)` over exact reals) and
  the sheet layout (how many columns and rows of photos fit between the margins).
- `SheetGenerator` (`sheet_generator.dfy`): sheet drawing. The canvas is a sequence of drawing
  commands (fill, image, border, crop-mark path). Two methods with nested loops append one tile at a
  time, and each is proved equal to a declarative description of the whole sheet. Separate lemmas
  then show that:
  - every grid cell's photo is drawn exactly once, in row-major order;
  - whenever cols and rows are non-negative, the number of photos drawn is the layout's total;
  - the tiles do not overlap;
  - each crop mark is an outward L on the gap's centre line, shared with the neighbouring tile's
    mark.
- `PhotoEditor` (`photo_editor.dfy`): the editor's zoom / pan / drag state as a class, the crop
  window's size, and the crop arithmetic of `generateCroppedImage`. Proved: the source crop maps
  back onto the crop window and keeps the photo's aspect ratio, the clamping `drawImage` receives
  is bounded (where it is bounded), and the output size.
- `IndexPage` (`index_page.dfy`): the three-step upload → edit → export page as a class, plus the
  guards that decide which view is shown. At most one view is visible.
- `PhotoUpload` (`photo_upload.dfy`): the file acceptance test (MIME prefix `image/`, 10 MiB
  inclusive limit, type checked first), the drag flag, the camera stream and its facing mode.

Browser effects are parameters of the model:

- whether an image loads;
- whether a 2D context is available;
- whether DOM refs are attached;
- a `FileReader` result;
- whether the camera was granted and played;
- the rectangles `getBoundingClientRect` reports.

Two facts about the code that the model makes explicit:

- The 4×6 sheet is 102 mm wide and 152 mm tall, so the UK photo tiles 2 columns × 3 rows
  (`PhotoSpecs.LayoutExamples`).
- The clamping in `generateCroppedImage` is partial (`PhotoEditor.LeftOverhangEscapesImage`).

## Model

| member | source | states |
|---|---|---|
| PhotoSpecs.PhotoSpecsWellFormed | src/data/photoSpecs.ts:29-225 | the table has 8 specifications, each with positive size and dpi, head range within the photo, eye line in 0..100 and inch sizes agreeing with the millimetre sizes; ids are distinct |
| PhotoSpecs.SheetSizesWellFormed | src/data/photoSpecs.ts:29-225 | the table has 4 sheet sizes, each positive, with inch and millimetre sizes agreeing; ids are distinct |
| PhotoSpecs.Round | src/data/photoSpecs.ts:248-250 | the rounded value is the unique integer within half a unit of x, ties upward (`RoundUnique`) |
| PhotoSpecs.RoundUnique | src/data/photoSpecs.ts:248-250 | any integer in (x − ½, x + ½] is Round(x) |
| PhotoSpecs.MmToPixels | src/data/photoSpecs.ts:248-250 | the pixel count is within half a pixel of mm/25.4·dpi |
| PhotoSpecs.InchesToPixels | src/data/photoSpecs.ts:253-255 | the pixel count is within half a pixel of inches·dpi |
| PhotoSpecs.MmToPixelsExact | src/data/photoSpecs.ts:248-250 | for integer mm and dpi the conversion is the integer division (10·mm·dpi + 127) div 254 |
| PhotoSpecs.MmToPixelsExamples | src/data/photoSpecs.ts:248-250 | 51 mm → 602 px, 45 mm → 531 px, 35 mm → 413 px, 0 mm → 0 px at 300 dpi |
| PhotoSpecs.MmToPixelsZero | src/data/photoSpecs.ts:248-250 | zero millimetres are zero pixels at any dpi |
| PhotoSpecs.MmToPixelsMonotone | src/data/photoSpecs.ts:248-250 | at a non-negative dpi a longer length never gets fewer pixels |
| PhotoSpecs.MmToPixelsNonNegative | src/data/photoSpecs.ts:248-250 | non-negative lengths and dpi give non-negative pixel counts |
| PhotoSpecs.MmAgreesWithInches | src/data/photoSpecs.ts:248-255 | k inches given in millimetres convert to the same pixel count as k inches |
| PhotoSpecs.FloorDiv | src/data/photoSpecs.ts:237-238 | `Math.floor(n / d)`: the quotient q with q·d ≤ n < q·d + d (mirrored for negative d) |
| PhotoSpecs.CalculateSheetLayout | src/data/photoSpecs.ts:228-245 | total is cols × rows, with the default margin 5 mm and gap 2 mm |
| PhotoSpecs.FloorFormulaIsLargestFit | src/data/photoSpecs.ts:237-238 | n photos with gaps fit in the available length iff n ≤ floor((avail + gap) / (size + gap)) |
| PhotoSpecs.LayoutColsLargestFit | src/data/photoSpecs.ts:234-237 | cols columns fit across the sheet between the margins, and cols + 1 do not |
| PhotoSpecs.LayoutRowsLargestFit | src/data/photoSpecs.ts:235-238 | rows rows fit down the sheet between the margins, and rows + 1 do not |
| PhotoSpecs.LayoutNonNegativeIff | src/data/photoSpecs.ts:234-238 | cols and rows are non-negative iff the available length plus one gap is non-negative |
| PhotoSpecs.LayoutColsMonotone | src/data/photoSpecs.ts:234-237 | a wider sheet never holds fewer columns |
| PhotoSpecs.LayoutExamples | src/data/photoSpecs.ts:228-245 | UK photo on the 4×6 sheet: 2 columns × 3 rows = 6; US photo: 1 × 2 = 2 |
| PhotoSpecs.LayoutTotalSign | src/data/photoSpecs.ts:237-243 | the total is positive iff cols and rows are both positive or both negative; one side too short alone gives a total of at most 0 |
| PhotoSpecs.ListedLayoutsPositive | src/data/photoSpecs.ts:29-245 | every listed photo on every listed sheet gets at least 1 column and 1 row, so a positive total |
| SheetGenerator.TileCommands | src/components/SheetGenerator.tsx:63-122 | one tile contributes 2 commands in the photo pass (image, border) and 4 in the mark pass (one L path per corner) |
| SheetGenerator.PassTileUniform | src/components/SheetGenerator.tsx:63-122 | every tile of a pass draws the same number of commands |
| SheetGenerator.AppendTile | src/components/SheetGenerator.tsx:64-75 | appending a tile's commands extends the row by one column |
| SheetGenerator.AppendMarks | src/components/SheetGenerator.tsx:83-120 | the four corner marks drawn at the tile's x, y are the next tile of the mark pass |
| SheetGenerator.AppendRow | src/components/SheetGenerator.tsx:63-76 | finishing a row's columns extends the pass by one row |
| SheetGenerator.DrawTilePhoto | src/components/SheetGenerator.tsx:65-74 | drawing the image at (margin + col·(w + gap), margin + row·(h + gap)) and its #E0E0E0 1 px border appends exactly that tile |
| SheetGenerator.DrawPhotoPass | src/components/SheetGenerator.tsx:63-76 | the nested loops draw the rows × cols photo pass in row-major order, appended to what was drawn before |
| SheetGenerator.DrawTileMarks | src/components/SheetGenerator.tsx:84-120 | the four L marks with mark length mmToPixels(3, dpi) around a tile are appended |
| SheetGenerator.DrawMarkPass | src/components/SheetGenerator.tsx:79-122 | the nested loops draw the whole mark pass, in #CCCCCC at 0.5 px, after the photos |
| SheetGenerator.GenerateSheet | src/components/SheetGenerator.tsx:33-129 | a sheet is produced iff the image loads and a 2D context exists; it is mmToPixels of the sheet size, white, then the photo pass, then the mark pass |
| SheetGenerator.ComponentLayout | src/components/SheetGenerator.tsx:22-24 | the component's layout is calculateSheetLayout with the 5 mm margin and 2 mm gap, total = cols × rows |
| SheetGenerator.PreviewSheet | src/components/SheetGenerator.tsx:27-31 | the preview is the generated sheet at 150 dpi |
| SheetGenerator.ExportSheet | src/components/SheetGenerator.tsx:131-135 | the download and print sheet is the generated sheet at 300 dpi |
| SheetGenerator.RowLength | src/components/SheetGenerator.tsx:64-75 | a row of n tiles is n times the per-tile command count (none for n ≤ 0) |
| SheetGenerator.PassLength | src/components/SheetGenerator.tsx:63-76 | a pass is rows × cols × per-tile commands long (none when either is ≤ 0) |
| SheetGenerator.RowCommandsAt | src/components/SheetGenerator.tsx:64-75 | command j of column col sits at col·w + j of the row |
| SheetGenerator.PassCommandsAt | src/components/SheetGenerator.tsx:63-76 | command j of tile (row, col) sits at (row·cols + col)·w + j: every tile is drawn, in row-major order |
| SheetGenerator.PassCommandsIndex | src/components/SheetGenerator.tsx:63-76 | every command of a pass belongs to tile (k/w/cols, k/w mod cols) inside the grid: nothing else is drawn |
| SheetGenerator.ImageRectsAppend | src/components/SheetGenerator.tsx:69 | the images of concatenated drawings are the images of each, in order |
| SheetGenerator.ImagesOfRow | src/components/SheetGenerator.tsx:64-75 | a row's photo pass draws the images of columns 0..n−1 of that row |
| SheetGenerator.GridRects | src/components/SheetGenerator.tsx:63-66 | the grid has rows × cols cells when both are positive, none otherwise |
| SheetGenerator.ImagesOfPhotoPass | src/components/SheetGenerator.tsx:63-76 | the photo pass draws one image per grid cell, in row-major order |
| SheetGenerator.RenderedSheet | src/components/SheetGenerator.tsx:40-122 | the sheet is the sheet size in pixels, to the nearest pixel; it is first filled white over the whole canvas, and holds 6 commands per grid cell after that fill |
| SheetGenerator.NoImages | src/components/SheetGenerator.tsx:82-122 | a drawing without image commands contributes no images |
| SheetGenerator.NoImagesInMarkRow | src/components/SheetGenerator.tsx:83-121 | a row of crop marks draws no image |
| SheetGenerator.NoImagesInMarkPass | src/components/SheetGenerator.tsx:82-122 | the crop-mark pass draws no image |
| SheetGenerator.DrawnImagesAreGrid | src/components/SheetGenerator.tsx:52-122 | the images on the sheet are exactly the grid cells, each photo-sized at its tile position |
| SheetGenerator.ImageCount | src/components/SheetGenerator.tsx:22-76 | with non-negative cols and rows the sheet shows exactly layout.total photos |
| SheetGenerator.DrawsLayoutTotal | src/components/SheetGenerator.tsx:22-76 | the photo count the sheet draws is the total the component announces |
| SheetGenerator.TinySheetAnnouncesOnePhoto | src/components/SheetGenerator.tsx:22-76 | on a 6 mm sheet the layout is −1 × −1 with total 1, yet no photo is drawn |
| SheetGenerator.NarrowSheetAnnouncesNegativeTotal | src/components/SheetGenerator.tsx:22 | a 6 mm wide, 152 mm tall sheet announces −1 × 3 = −3 photos |
| SheetGenerator.PreviewAndExportShareGrid | src/components/SheetGenerator.tsx:27-134 | preview and export place the same rows × cols grid of photos, only at different resolutions |
| SheetGenerator.PixelGridNonNegative | src/components/SheetGenerator.tsx:57-88 | photo, margin, gap and mark lengths in pixels are non-negative |
| SheetGenerator.PixelGrid | src/components/SheetGenerator.tsx:57-88 | photo width and height, margin, gap and mark length are each their millimetre length at the dpi, to the nearest pixel |
| SheetGenerator.AdjacentTilesGap | src/components/SheetGenerator.tsx:65-66 | the next tile along a row or down a column starts exactly one gap past the previous tile's edge |
| SheetGenerator.TileXSpacing | src/components/SheetGenerator.tsx:65 | a tile ends at least one gap before the next column's tile begins |
| SheetGenerator.TileYSpacing | src/components/SheetGenerator.tsx:66 | a tile ends at least one gap before the next row's tile begins |
| SheetGenerator.TilesDisjoint | src/components/SheetGenerator.tsx:65-69 | the images of two different grid cells do not overlap |
| SheetGenerator.CornerMarksAreOutwardLs | src/components/SheetGenerator.tsx:90-120 | the four marks are L shapes pointing away from the tile at its four corners, half a gap out, mark length long |
| SheetGenerator.CornerMarks | src/components/SheetGenerator.tsx:90-120 | a tile gets four marks, each a two-arm path stroked in #CCCCCC at 0.5 px |
| SheetGenerator.OutwardLGeometry | src/components/SheetGenerator.tsx:90-96 | each L has one vertical and one horizontal arm of the mark length; each starts level with a tile edge, half a gap outside the corner |
| SheetGenerator.SharedCutLines | src/components/SheetGenerator.tsx:90-120 | neighbouring tiles' marks lie on the same line through the middle of the gap |
| PhotoEditor.Editor.constructor | src/components/PhotoEditor.tsx:20-24 | no image loaded, scale 1, position and drag origin at 0, not dragging |
| PhotoEditor.Editor.OnImageChange | src/components/PhotoEditor.tsx:30-34 | a new image resets scale to 1 and position to the origin and marks the image unloaded |
| PhotoEditor.Editor.HandleImageLoad | src/components/PhotoEditor.tsx:36-51 | the image is marked loaded; with both refs attached the scale becomes 1.2 whichever aspect wins |
| PhotoEditor.Editor.PointerDown | src/components/PhotoEditor.tsx:53-93 | dragging starts and remembers the pointer minus the current position |
| PhotoEditor.Editor.HandleMouseDown | src/components/PhotoEditor.tsx:53-60 | as PointerDown, for the mouse |
| PhotoEditor.Editor.HandleTouchStart | src/components/PhotoEditor.tsx:86-93 | as PointerDown, for the first touch |
| PhotoEditor.Editor.PointerMove | src/components/PhotoEditor.tsx:62-102 | while dragging the position becomes the pointer minus the drag origin; otherwise nothing changes |
| PhotoEditor.Editor.HandleMouseMove | src/components/PhotoEditor.tsx:62-68 | as PointerMove, for the mouse |
| PhotoEditor.Editor.HandleTouchMove | src/components/PhotoEditor.tsx:95-102 | as PointerMove, for the first touch |
| PhotoEditor.Editor.HandleMouseUp | src/components/PhotoEditor.tsx:70-72 | dragging stops; nothing else changes |
| PhotoEditor.Editor.HandleTouchEnd | src/components/PhotoEditor.tsx:104-106 | dragging stops; nothing else changes |
| PhotoEditor.Editor.HandleReset | src/components/PhotoEditor.tsx:108-111 | scale back to 1.2 and position to the origin |
| PhotoEditor.Editor.SetScale | src/components/PhotoEditor.tsx:279-285 | the slider's value in 0.5..3 becomes the scale |
| PhotoEditor.Editor.Drag | src/components/PhotoEditor.tsx:53-72 | a press at p0 followed by moves leaves the photo at its old position displaced by last move − p0 |
| PhotoEditor.DragRule | src/components/PhotoEditor.tsx:56-66 | the position a move sets is the start position shifted by how far the pointer travelled |
| PhotoEditor.DragBackRestores | src/components/PhotoEditor.tsx:56-66 | moving the pointer back to where the drag began restores the start position |
| PhotoEditor.CropAreaStyle | src/components/PhotoEditor.tsx:168-173 | the crop window is 320 px high and has the specification's width:height ratio |
| PhotoEditor.AspectRatio | src/components/PhotoEditor.tsx:27 | the ratio times the specification's height is its width |
| PhotoEditor.ContainerSize | src/components/PhotoEditor.tsx:183-186 | the editor container is 60 px larger than the crop window in each direction |
| PhotoEditor.DisplayedImageHeight | src/components/PhotoEditor.tsx:205 | the photo is displayed 480 px high (1.5 × 320) before zoom |
| PhotoEditor.EyeLineTopPercent | src/components/PhotoEditor.tsx:241 | the eye-line guide's top offset and the specification's distance from the bottom add up to 100 % |
| PhotoEditor.EyeLineInsideCropArea | src/components/PhotoEditor.tsx:241 | for every listed specification the guide lies inside the crop window |
| PhotoEditor.SourceCropMapsBack | src/components/PhotoEditor.tsx:127-133 | scaling the source crop back to screen pixels gives the crop window's rectangle relative to the displayed photo |
| PhotoEditor.SourceCrop | src/components/PhotoEditor.tsx:127-133 | the source crop's offset and size are the crop window's offset from the displayed image and its size, each scaled by natural size over displayed size |
| PhotoEditor.SourceCropKeepsAspect | src/components/PhotoEditor.tsx:127-173 | when the photo is displayed at its own aspect, the source crop has the specification's width:height ratio |
| PhotoEditor.DrawSourceRect | src/components/PhotoEditor.tsx:151-161 | the source origin is never negative; with a crop origin inside the image and a non-negative size, the source region ends inside the image |
| PhotoEditor.LeftOverhangEscapesImage | src/components/PhotoEditor.tsx:153-155 | a crop starting left of the image yields a source region running past the image's right edge |
| PhotoEditor.OutputSize | src/components/PhotoEditor.tsx:136-141 | the output canvas is mmToPixels(width, dpi) × mmToPixels(height, dpi) of the specification |
| PhotoEditor.OutputSizeExamples | src/components/PhotoEditor.tsx:136-141 | the US 51 × 51 mm photo at 300 dpi is 602 × 602 px |
| PhotoEditor.GenerateCroppedImage | src/components/PhotoEditor.tsx:113-165 | a crop is produced iff both refs, the crop area and a 2D context exist; it has the output size, the specification's background and the clamped source region |
| IndexPage.ShownView | src/pages/Index.tsx:100-176 | upload shows iff the step is upload; editor iff step edit and an uploaded image; export iff step export and a cropped image; so at most one view is on screen |
| IndexPage.Wizard.constructor | src/pages/Index.tsx:15-19 | the page starts on upload with no images, the first specification and the first sheet size |
| IndexPage.Wizard.HandleImageSelect | src/pages/Index.tsx:21-24 | the new image is stored and the crop cleared, the step unchanged; on the upload step Continue appears iff the image is non-empty |
| IndexPage.Wizard.HandleClear | src/pages/Index.tsx:26-30 | both images are cleared and the upload view is shown |
| IndexPage.Wizard.HandleCropComplete | src/pages/Index.tsx:32-35 | the crop is stored, the step becomes export, and the export view shows iff the crop is non-empty |
| IndexPage.Wizard.HandleStartEditing | src/pages/Index.tsx:37-39 | only the step changes, to edit; the editor shows iff an image is uploaded |
| IndexPage.Wizard.HandleBackToEdit | src/pages/Index.tsx:41-43 | only the step changes, to edit; the editor shows iff an image is uploaded |
| IndexPage.Wizard.SelectSpec | src/pages/Index.tsx:122 | the chosen specification is stored; nothing else changes |
| IndexPage.Wizard.SelectSheet | src/pages/Index.tsx:224 | the chosen sheet size is stored; nothing else changes |
| IndexPage.Walkthrough | src/pages/Index.tsx:15-176 | upload, continue, crop, edit again and clear show upload, upload, editor, export, editor, upload in turn |
| PhotoUpload.CheckFile | src/components/PhotoUpload.tsx:24-33 | accepted iff the type starts with "image/" and the size is at most 10 MiB; a non-image is refused for its type whatever its size |
| PhotoUpload.CheckFileBoundaries | src/components/PhotoUpload.tsx:25-33 | exactly 10 MiB is accepted, one byte more is too large, a large PDF is refused as a non-image |
| PhotoUpload.Deliveries | src/components/PhotoUpload.tsx:24-45 | an image is passed on iff the file is accepted and the read succeeds, and it is the read's data URL |
| PhotoUpload.Flip | src/components/PhotoUpload.tsx:103 | the toggle always picks the other camera |
| PhotoUpload.FlipTwice | src/components/PhotoUpload.tsx:102-106 | toggling twice restores the facing mode |
| PhotoUpload.ScreenFor | src/components/PhotoUpload.tsx:133-181 | the camera view shows iff capturing; otherwise the preview iff there is a current image, else the drop zone |
| PhotoUpload.Uploader.constructor | src/components/PhotoUpload.tsx:17-22 | not dragging, not capturing, user-facing camera, no stream |
| PhotoUpload.Uploader.HandleFile | src/components/PhotoUpload.tsx:24-45 | the page receives the file's image exactly when Deliveries says so; nothing else changes |
| PhotoUpload.Uploader.HandleDragOver | src/components/PhotoUpload.tsx:47-50 | the drag flag is set |
| PhotoUpload.Uploader.HandleDragLeave | src/components/PhotoUpload.tsx:52-55 | the drag flag is cleared |
| PhotoUpload.Uploader.HandleDrop | src/components/PhotoUpload.tsx:57-65 | the drag flag is cleared and only the first dropped file, if any, goes through the file handler |
| PhotoUpload.Uploader.HandleFileSelect | src/components/PhotoUpload.tsx:67-72 | only the first chosen file, if any, goes through the file handler |
| PhotoUpload.Uploader.StartCamera | src/components/PhotoUpload.tsx:74-100 | capturing iff the camera plays; a stream of the requested mode remains unless access was denied |
| PhotoUpload.Uploader.ToggleCamera | src/components/PhotoUpload.tsx:102-106 | the facing mode flips whatever the outcome, and the camera is reopened in the new mode |
| PhotoUpload.Uploader.StopCamera | src/components/PhotoUpload.tsx:125-131 | no stream and no camera view afterwards, from any state |
| PhotoUpload.Uploader.CapturePhoto | src/components/PhotoUpload.tsx:108-123 | with a video element and a context the frame goes to the page and the camera stops; otherwise nothing changes |
| PhotoUpload.ToggleTwice | src/components/PhotoUpload.tsx:102-106 | two toggles with the camera playing end on the user-facing camera with its stream open |

## Left out

- Browser I/O is left out: `FileReader`, image decoding, `getUserMedia`, video playback, the 100 ms mount delay, Promises, `toast` messages, the download link and the print window. Each outcome that matters is a parameter, and the rest has no effect on the modelled state.
- Pixels on the canvas, and the JPEG encoding by `toDataURL`, are left out. Drawing is a list of commands with their coordinates, styles and line widths.
- DOM measurement is left out: `getBoundingClientRect`, `querySelector` and the CSS transform that places the photo. The crop and image rectangles are inputs.
- IEEE-754 floating point is left out. Arithmetic is over exact reals. Values within rounding error of .5 could round differently in the browser; 45 mm at 300 dpi is 531.496 px, for example.
- React's asynchronous state updates are modelled as sequential assignments. Effects that re-run on dependency changes are modelled as explicit calls: the image-change reset, and the preview that regenerates when its inputs change.
- The presentational components `CountrySelector`, `SheetSizeSelector` and `SpecificationsPanel`, and all markup and styling, are not part of this model.
- The model does not claim that tiles stay inside the canvas in pixels. The layout is decided in millimetres, and each pixel size is rounded separately.
- PhotoSpecs.CalculateSheetLayout: requires non-zero divisors. The browser would produce Infinity or NaN for a photo whose size plus the gap is 0, and no listed specification comes close to that.
- SheetGenerator.ComponentLayout: requires the same non-zero divisors as CalculateSheetLayout, for the same reason.
- PhotoEditor.CropAreaStyle: requires a non-zero specification height, because the aspect ratio divides by it.
- PhotoEditor.SourceCrop: requires a non-zero displayed image size, because the browser's division by zero is not modelled.
- PhotoEditor.GenerateCroppedImage: inherits that requirement. With a zero-sized displayed image the browser's scale ratios become non-finite, `drawImage` draws nothing, and a crop holding only the background fill is still handed to `onCropComplete`; the model does not cover that case.
- PhotoEditor.Editor.SetScale: requires the slider's 0.5–3 range. `setScale` itself does not clamp; the slider component enforces the range.
- PhotoEditor.Editor.HandleImageLoad: takes the aspect comparison as inputs only. Both branches set 1.2, so the comparison has no effect.
- PhotoUpload.Uploader.StartCamera: records the outcome of `getUserMedia` and of `play` as a parameter. Whether the video element is mounted is folded into "plays".

Two observations about the code, recorded in the model rather than corrected:

- A sheet both narrower and shorter than 8 mm gets a layout of −1 × −1. Its announced total is therefore 1, yet no photo is drawn (`SheetGenerator.TinySheetAnnouncesOnePhoto`). A sheet with only one side that short gets a total of at most 0, for example −1 × 3 = −3 (`PhotoSpecs.LayoutTotalSign`, `SheetGenerator.NarrowSheetAnnouncesNegativeTotal`). No listed sheet triggers either case: every listed photo fits at least once on every listed sheet (`PhotoSpecs.ListedLayoutsPositive`).
- A camera stream that opens but fails to play is kept open while the camera view closes (`PhotoUpload.Uploader.StartCamera`).
