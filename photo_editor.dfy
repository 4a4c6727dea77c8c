/**
 * The crop editor (src/components/PhotoEditor.tsx): a pan / zoom / drag state
 * machine over the editor's fields, the on-screen crop window, and the
 * arithmetic generateCroppedImage uses to cut the chosen part out of the
 * photo at the specification's output size.
 *
 * Screen geometry (the rectangles getBoundingClientRect reports, the pointer
 * positions of mouse and touch events) enters as parameters.
 */
module PhotoEditor {
  import opened Wrappers
  import opened PhotoSpecs

  /** A point or displacement on screen, in CSS pixels. */
  datatype Vec = Vec(x: real, y: real)

  const Origin: Vec := Vec(0.0, 0.0)

  function Add(a: Vec, b: Vec): Vec {
    Vec(a.x + b.x, a.y + b.y)
  }

  function Sub(a: Vec, b: Vec): Vec {
    Vec(a.x - b.x, a.y - b.y)
  }

  /** The zoom the editor starts from once an image has loaded, and after Reset. */
  const FitScale: real := 1.2

  /** The zoom slider's range; the slider component enforces it, setScale does not. */
  const MinScale: real := 0.5
  const MaxScale: real := 3.0

  /** The pan / zoom / drag state of one editor. */
  class Editor {
    var imageLoaded: bool
    var scale: real
    var position: Vec
    var isDragging: bool
    var dragStart: Vec

    /** Initial state: nothing loaded, unit zoom, no offset, not dragging. */
    constructor ()
      ensures !imageLoaded && scale == 1.0 && position == Origin
      ensures !isDragging && dragStart == Origin
    {
      imageLoaded := false;
      scale := 1.0;
      position := Origin;
      isDragging := false;
      dragStart := Origin;
    }

    /** A new image source: back to unit zoom, no offset, not yet loaded. */
    method OnImageChange()
      modifies this
      ensures scale == 1.0 && position == Origin && !imageLoaded
      ensures isDragging == old(isDragging) && dragStart == old(dragStart)
    {
      scale := 1.0;
      position := Origin;
      imageLoaded := false;
    }

    /**
     * The image element has loaded. When both elements are mounted the zoom is set to 1.2,
     * whichever way the image's aspect compares with the specification's.
     */
    method HandleImageLoad(refsAttached: bool, imageAspect: real, aspectRatio: real)
      modifies this
      ensures imageLoaded
      ensures scale == if refsAttached then FitScale else old(scale)
      ensures position == old(position) && isDragging == old(isDragging) && dragStart == old(dragStart)
    {
      imageLoaded := true;
      if refsAttached {
        if imageAspect > aspectRatio {
          scale := 1.2;
        } else {
          scale := 1.2;
        }
      }
    }

    /** Pointer pressed at `p` (mouse down, or the first touch of touch start). */
    method PointerDown(p: Vec)
      modifies this
      ensures isDragging && dragStart == Sub(p, old(position))
      ensures position == old(position) && scale == old(scale) && imageLoaded == old(imageLoaded)
    {
      isDragging := true;
      dragStart := Sub(p, position);
    }

    method HandleMouseDown(p: Vec)
      modifies this
      ensures isDragging && dragStart == Sub(p, old(position))
      ensures position == old(position) && scale == old(scale) && imageLoaded == old(imageLoaded)
    {
      PointerDown(p);
    }

    method HandleTouchStart(p: Vec)
      modifies this
      ensures isDragging && dragStart == Sub(p, old(position))
      ensures position == old(position) && scale == old(scale) && imageLoaded == old(imageLoaded)
    {
      PointerDown(p);
    }

    /** Pointer moved to `p`: while dragging, the image follows it; otherwise nothing changes. */
    method PointerMove(p: Vec)
      modifies this
      ensures position == if old(isDragging) then Sub(p, dragStart) else old(position)
      ensures isDragging == old(isDragging) && dragStart == old(dragStart)
      ensures scale == old(scale) && imageLoaded == old(imageLoaded)
    {
      if !isDragging {
        return;
      }
      position := Sub(p, dragStart);
    }

    method HandleMouseMove(p: Vec)
      modifies this
      ensures position == if old(isDragging) then Sub(p, dragStart) else old(position)
      ensures isDragging == old(isDragging) && dragStart == old(dragStart)
      ensures scale == old(scale) && imageLoaded == old(imageLoaded)
    {
      PointerMove(p);
    }

    method HandleTouchMove(p: Vec)
      modifies this
      ensures position == if old(isDragging) then Sub(p, dragStart) else old(position)
      ensures isDragging == old(isDragging) && dragStart == old(dragStart)
      ensures scale == old(scale) && imageLoaded == old(imageLoaded)
    {
      PointerMove(p);
    }

    /** Mouse up and touch end only stop the drag. */
    method HandleMouseUp()
      modifies this
      ensures !isDragging
      ensures position == old(position) && dragStart == old(dragStart)
      ensures scale == old(scale) && imageLoaded == old(imageLoaded)
    {
      isDragging := false;
    }

    method HandleTouchEnd()
      modifies this
      ensures !isDragging
      ensures position == old(position) && dragStart == old(dragStart)
      ensures scale == old(scale) && imageLoaded == old(imageLoaded)
    {
      isDragging := false;
    }

    /** The Reset button: zoom 1.2, no offset. */
    method HandleReset()
      modifies this
      ensures scale == FitScale && position == Origin
      ensures isDragging == old(isDragging) && dragStart == old(dragStart) && imageLoaded == old(imageLoaded)
    {
      scale := 1.2;
      position := Origin;
    }

    /** The zoom slider reports a new value, which is stored as is. */
    method SetScale(value: real)
      requires MinScale <= value <= MaxScale
      modifies this
      ensures scale == value
      ensures position == old(position) && isDragging == old(isDragging)
      ensures dragStart == old(dragStart) && imageLoaded == old(imageLoaded)
    {
      scale := value;
    }

    /**
     * A whole drag: pressed at `p0`, then moved through `moves`. Afterwards the image has been
     * displaced by exactly the pointer's displacement from `p0` to its last position.
     */
    method Drag(p0: Vec, moves: seq<Vec>)
      modifies this
      ensures isDragging && scale == old(scale) && imageLoaded == old(imageLoaded)
      ensures position == if |moves| == 0 then old(position) else DraggedTo(old(position), p0, moves[|moves| - 1])
    {
      HandleMouseDown(p0);
      ghost var start := old(position);
      var i := 0;
      while i < |moves|
        invariant 0 <= i <= |moves|
        invariant isDragging && dragStart == Sub(p0, start)
        invariant scale == old(scale) && imageLoaded == old(imageLoaded)
        invariant position == if i == 0 then start else DraggedTo(start, p0, moves[i - 1])
      {
        HandleMouseMove(moves[i]);
        DragRule(start, p0, moves[i]);
        i := i + 1;
      }
    }
  }

  /** Where the drag rule puts the image: its start position plus the pointer's displacement. */
  function DraggedTo(start: Vec, p0: Vec, p: Vec): Vec {
    Add(start, Sub(p, p0))
  }

  /** Each move sets the position to pointer minus drag start, which is the start position plus the pointer's displacement. */
  lemma DragRule(start: Vec, p0: Vec, p: Vec)
    ensures Sub(p, Sub(p0, start)) == DraggedTo(start, p0, p)
  {
  }

  /** Moving back to where the drag began puts the image back where it was. */
  lemma DragBackRestores(start: Vec, p0: Vec)
    ensures DraggedTo(start, p0, p0) == start
  {
  }

  // ---------------------------------------------------------------------------
  // Display geometry

  /** A width and height in CSS pixels. */
  datatype Size = Size(width: real, height: real)

  const CropMaxHeight: real := 320.0
  const ContainerPadding: real := 60.0
  const ImageHeightFactor: real := 1.5

  /** photoSpec.width / photoSpec.height. */
  function AspectRatio(spec: PhotoSpec): (ratio: real)
    requires spec.height != 0
    ensures ratio * spec.height as real == spec.width as real
  {
    spec.width as real / spec.height as real
  }

  /** getCropAreaStyle: the crop window is 320 px high and has the specification's aspect. */
  function CropAreaStyle(spec: PhotoSpec): (size: Size)
    requires spec.height != 0
    ensures size.height == CropMaxHeight
    ensures size.width * spec.height as real == size.height * spec.width as real
  {
    var height := CropMaxHeight;
    Size(height * AspectRatio(spec), height)
  }

  /** The editor container: 60 px larger than the crop window in each direction. */
  function ContainerSize(spec: PhotoSpec): (size: Size)
    requires spec.height != 0
    ensures size.width == CropAreaStyle(spec).width + ContainerPadding
    ensures size.height == CropAreaStyle(spec).height + ContainerPadding
  {
    var crop := CropAreaStyle(spec);
    Size(crop.width + 60.0, crop.height + 60.0)
  }

  /** The image is shown 1.5 times as high as the crop window, whatever the specification. */
  function DisplayedImageHeight(spec: PhotoSpec): (h: real)
    requires spec.height != 0
    ensures h == 480.0
  {
    CropAreaStyle(spec).height * ImageHeightFactor
  }

  /** The eye-line guide, in percent of the crop window's height from its top. */
  function EyeLineTopPercent(spec: PhotoSpec): (pct: int)
    ensures pct + spec.eyeLineFromBottom == 100
  {
    100 - spec.eyeLineFromBottom
  }

  /** For every specification of the table the guide lies inside the crop window. */
  lemma EyeLineInsideCropArea(i: int)
    requires 0 <= i < |PHOTO_SPECS|
    ensures 0 <= EyeLineTopPercent(PHOTO_SPECS[i]) <= 100
  {
    PhotoSpecsWellFormed();
    assert ValidPhotoSpec(PHOTO_SPECS[i]);
  }

  // ---------------------------------------------------------------------------
  // Cropping

  /** A rectangle: on screen (a bounding client rect) or in the image's own pixels. */
  datatype Rect = Rect(left: real, top: real, width: real, height: real)

  /**
   * The part of the natural image under the crop window: offsets and sizes on screen
   * scaled by naturalWidth / imgRect.width and naturalHeight / imgRect.height.
   */
  function SourceCrop(cropRect: Rect, imgRect: Rect, naturalWidth: real, naturalHeight: real): (c: Rect)
    requires imgRect.width != 0.0 && imgRect.height != 0.0
    ensures c.left * imgRect.width == (cropRect.left - imgRect.left) * naturalWidth
    ensures c.top * imgRect.height == (cropRect.top - imgRect.top) * naturalHeight
    ensures c.width * imgRect.width == cropRect.width * naturalWidth
    ensures c.height * imgRect.height == cropRect.height * naturalHeight
  {
    var scaleX, scaleY := naturalWidth / imgRect.width, naturalHeight / imgRect.height;
    Rect((cropRect.left - imgRect.left) * scaleX, (cropRect.top - imgRect.top) * scaleY,
         cropRect.width * scaleX, cropRect.height * scaleY)
  }

  /** Where a horizontal image coordinate appears on screen. */
  function ScreenX(sx: real, imgRect: Rect, naturalWidth: real): real
    requires naturalWidth != 0.0
  {
    imgRect.left + sx * imgRect.width / naturalWidth
  }

  /** Where a vertical image coordinate appears on screen. */
  function ScreenY(sy: real, imgRect: Rect, naturalHeight: real): real
    requires naturalHeight != 0.0
  {
    imgRect.top + sy * imgRect.height / naturalHeight
  }

  /** Mapping the source crop back to the screen gives the crop window again. */
  lemma SourceCropMapsBack(cropRect: Rect, imgRect: Rect, naturalWidth: real, naturalHeight: real)
    requires imgRect.width != 0.0 && imgRect.height != 0.0
    requires naturalWidth != 0.0 && naturalHeight != 0.0
    ensures var c := SourceCrop(cropRect, imgRect, naturalWidth, naturalHeight);
            ScreenX(c.left, imgRect, naturalWidth) == cropRect.left
            && ScreenY(c.top, imgRect, naturalHeight) == cropRect.top
            && ScreenX(c.left + c.width, imgRect, naturalWidth) == cropRect.left + cropRect.width
            && ScreenY(c.top + c.height, imgRect, naturalHeight) == cropRect.top + cropRect.height
  {
    var kx, ky := naturalWidth / imgRect.width, naturalHeight / imgRect.height;
    ScaleRoundTrip(cropRect.left - imgRect.left, naturalWidth, imgRect.width);
    ScaleRoundTrip(cropRect.top - imgRect.top, naturalHeight, imgRect.height);
    ScaleRoundTrip(cropRect.left - imgRect.left + cropRect.width, naturalWidth, imgRect.width);
    ScaleRoundTrip(cropRect.top - imgRect.top + cropRect.height, naturalHeight, imgRect.height);
    assert (cropRect.left - imgRect.left) * kx + cropRect.width * kx == (cropRect.left - imgRect.left + cropRect.width) * kx;
    assert (cropRect.top - imgRect.top) * ky + cropRect.height * ky == (cropRect.top - imgRect.top + cropRect.height) * ky;
  }

  /** Scaling a screen length into the image and back again gives the length unchanged. */
  lemma ScaleRoundTrip(a: real, natural: real, shown: real)
    requires natural != 0.0 && shown != 0.0
    ensures a * (natural / shown) * shown / natural == a
  {
    assert (natural / shown) * shown == natural;
    assert a * (natural / shown) * shown == a * natural;
  }

  /**
   * When the displayed image keeps the natural image's aspect (both axes scaled alike),
   * the source crop has the crop window's aspect, and so the specification's.
   */
  lemma SourceCropKeepsAspect(spec: PhotoSpec, cropRect: Rect, imgRect: Rect, naturalWidth: real, naturalHeight: real)
    requires spec.height != 0
    requires imgRect.width != 0.0 && imgRect.height != 0.0
    requires naturalWidth / imgRect.width == naturalHeight / imgRect.height
    requires cropRect.width == CropAreaStyle(spec).width && cropRect.height == CropAreaStyle(spec).height
    ensures var c := SourceCrop(cropRect, imgRect, naturalWidth, naturalHeight);
            c.width * spec.height as real == c.height * spec.width as real
  {
    var k := naturalWidth / imgRect.width;
    var size := CropAreaStyle(spec);
    assert size.width * spec.height as real == size.height * spec.width as real;
    assert k * size.width * spec.height as real == k * (size.height * spec.width as real);
  }

  /** Math.max / Math.min on reals. */
  function Max(a: real, b: real): real {
    if a >= b then a else b
  }

  function Min(a: real, b: real): real {
    if a <= b then a else b
  }

  /**
   * The source rectangle handed to drawImage: the origin is clamped at 0, and the size at
   * what is left of the image past the unclamped origin.
   */
  function DrawSourceRect(crop: Rect, naturalWidth: real, naturalHeight: real): (s: Rect)
    ensures s.left >= 0.0 && s.top >= 0.0
    ensures 0.0 <= crop.left <= naturalWidth && crop.width >= 0.0 ==> s.width >= 0.0 && s.left + s.width <= naturalWidth
    ensures 0.0 <= crop.top <= naturalHeight && crop.height >= 0.0 ==> s.height >= 0.0 && s.top + s.height <= naturalHeight
  {
    Rect(Max(0.0, crop.left), Max(0.0, crop.top),
         Min(crop.width, naturalWidth - crop.left), Min(crop.height, naturalHeight - crop.top))
  }

  /** A crop window hanging off the image's left edge: the clamped rectangle reaches past the image. */
  lemma LeftOverhangEscapesImage()
    ensures var s := DrawSourceRect(Rect(-10.0, 0.0, 105.0, 50.0), 100.0, 100.0);
            s.left == 0.0 && s.width == 105.0 && s.left + s.width > 100.0
  {
  }

  /** The output canvas, in pixels: the specification's millimetres at its own dpi, rounded. */
  function OutputSize(spec: PhotoSpec): (size: (int, int))
    ensures size == (MmToPixels(spec.width as real, spec.dpi as real), MmToPixels(spec.height as real, spec.dpi as real))
  {
    var width := Round((spec.width as real / 25.4) * spec.dpi as real);
    var height := Round((spec.height as real / 25.4) * spec.dpi as real);
    assert width == MmToPixels(spec.width as real, spec.dpi as real);
    (width, height)
  }

  /** For instance, the US photo, 51 x 51 mm, comes out 602 x 602 at 300 dpi. */
  lemma OutputSizeExamples()
    ensures OutputSize(PHOTO_SPECS[0]) == (602, 602)
  {
    MmToPixelsExact(51, 300);
  }

  /** What generateCroppedImage draws: the canvas size, its background, and the source rectangle copied onto it. */
  datatype CropOutput = CropOutput(width: int, height: int, background: string, source: Rect)

  /**
   * generateCroppedImage: nothing happens when an element, the crop area or a 2D context is
   * missing; otherwise the canvas has OutputSize, is filled with the specification's
   * background and receives the clamped source crop.
   */
  function GenerateCroppedImage(spec: PhotoSpec, refsAttached: bool, cropArea: Option<Rect>, imgRect: Rect,
                                naturalWidth: real, naturalHeight: real, contextAvailable: bool): (r: Option<CropOutput>)
    requires imgRect.width != 0.0 && imgRect.height != 0.0
    ensures r.Some? <==> refsAttached && cropArea.Some? && contextAvailable
    ensures r.Some? ==> (r.value.width, r.value.height) == OutputSize(spec)
    ensures r.Some? ==> r.value.background == spec.backgroundColor
    ensures r.Some? ==> r.value.source == DrawSourceRect(SourceCrop(cropArea.value, imgRect, naturalWidth, naturalHeight),
                                                         naturalWidth, naturalHeight)
  {
    if !refsAttached then None
    else if cropArea.None? then None
    else
      var crop := SourceCrop(cropArea.value, imgRect, naturalWidth, naturalHeight);
      var (outputWidth, outputHeight) := OutputSize(spec);
      if !contextAvailable then None
      else Some(CropOutput(outputWidth, outputHeight, spec.backgroundColor, DrawSourceRect(crop, naturalWidth, naturalHeight)))
  }
}
