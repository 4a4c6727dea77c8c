/**
 * The upload component (src/components/PhotoUpload.tsx): the acceptance test a chosen or dropped
 * file must pass before it is read, the drag-and-drop flag, and the camera's facing mode and
 * stream. Reading a file and opening the camera are browser calls; their outcomes are parameters.
 */
module PhotoUpload {
  import opened Wrappers

  /** What the component looks at in a file: its MIME type and its size in bytes. */
  datatype FileInfo = FileInfo(mimeType: string, size: nat)

  /** The result of the acceptance test; each refusal has its own message in the component. */
  datatype Verdict = Accepted | NotAnImage | TooLarge

  const ImagePrefix: string := "image/"

  /** 10 MiB. */
  const MaxBytes: nat := 10 * 1024 * 1024

  /** `s` begins with `p`, character by character. */
  predicate StartsWith(s: string, p: string) {
    |p| <= |s| && forall i :: 0 <= i < |p| ==> s[i] == p[i]
  }

  /**
   * The test at the top of the file handler: the type is checked first, then the size,
   * and the size limit is inclusive.
   */
  function CheckFile(f: FileInfo): (v: Verdict)
    ensures v == Accepted <==> StartsWith(f.mimeType, ImagePrefix) && f.size <= MaxBytes
    ensures v == NotAnImage <==> !StartsWith(f.mimeType, ImagePrefix)
    ensures v == TooLarge <==> StartsWith(f.mimeType, ImagePrefix) && f.size > MaxBytes
  {
    if !(ImagePrefix <= f.mimeType) then NotAnImage
    else if f.size > MaxBytes then TooLarge
    else Accepted
  }

  /** The boundary: exactly 10 MiB passes, one byte more does not; a large non-image is refused for its type. */
  lemma CheckFileBoundaries()
    ensures CheckFile(FileInfo("image/png", 10485760)) == Accepted
    ensures CheckFile(FileInfo("image/png", 10485761)) == TooLarge
    ensures CheckFile(FileInfo("application/pdf", 20000000)) == NotAnImage
    ensures CheckFile(FileInfo("image", 1)) == NotAnImage
  {
    assert StartsWith("image/png", ImagePrefix);
    assert "application/pdf"[0] != ImagePrefix[0];
  }

  /**
   * What the file handler passes on to the page: the data URL of an accepted file whose read
   * succeeded (`read` is the reader's outcome, None for its error callback), otherwise nothing.
   */
  function Deliveries(f: FileInfo, read: Option<string>): (out: seq<string>)
    ensures |out| <= 1
    ensures |out| == 1 <==> CheckFile(f) == Accepted && read.Some?
    ensures |out| == 1 ==> out[0] == read.value && f.size <= MaxBytes && StartsWith(f.mimeType, ImagePrefix)
  {
    if CheckFile(f) == Accepted && read.Some? then [read.value] else []
  }

  datatype FacingMode = User | Environment

  /** The toggle's choice of the other camera. */
  function Flip(m: FacingMode): (r: FacingMode)
    ensures r != m
  {
    match m
    case User => Environment
    case Environment => User
  }

  lemma FlipTwice(m: FacingMode)
    ensures Flip(Flip(m)) == m
  {
  }

  /** How an attempt to open the camera ends: refused, opened but not playing, or playing. */
  datatype CameraOutcome = Denied | PlayFailed | Playing

  /** An open camera stream, facing the mode it was requested with. */
  datatype Stream = Stream(mode: FacingMode)

  /** Which of the three layouts the component renders. */
  datatype Screen = CameraScreen | PreviewScreen | DropzoneScreen

  /** The camera view wins while capturing; otherwise a current image is previewed. */
  function ScreenFor(isCapturing: bool, currentImage: string): (s: Screen)
    ensures s == CameraScreen <==> isCapturing
    ensures s == PreviewScreen <==> !isCapturing && currentImage != ""
    ensures s == DropzoneScreen <==> !isCapturing && currentImage == ""
  {
    if isCapturing then CameraScreen
    else if currentImage != "" then PreviewScreen
    else DropzoneScreen
  }

  class Uploader {
    var isDragging: bool
    var isCapturing: bool
    var facingMode: FacingMode
    var stream: Option<Stream>
    /** Every image handed to the page's `onImageSelect`, in order. */
    var delivered: seq<string>

    constructor ()
      ensures !isDragging && !isCapturing && facingMode == User && stream.None? && delivered == []
    {
      isDragging := false;
      isCapturing := false;
      facingMode := User;
      stream := None;
      delivered := [];
    }

    /** Only a file passing the acceptance test, and read successfully, reaches the page. */
    method HandleFile(f: FileInfo, read: Option<string>)
      modifies this
      ensures delivered == old(delivered) + Deliveries(f, read)
      ensures isDragging == old(isDragging) && isCapturing == old(isCapturing)
      ensures facingMode == old(facingMode) && stream == old(stream)
    {
      var verdict := CheckFile(f);
      if verdict != Accepted {
        return;
      }
      if read.Some? {
        delivered := delivered + [read.value];
      }
    }

    method HandleDragOver()
      modifies this
      ensures isDragging
      ensures isCapturing == old(isCapturing) && facingMode == old(facingMode)
      ensures stream == old(stream) && delivered == old(delivered)
    {
      isDragging := true;
    }

    method HandleDragLeave()
      modifies this
      ensures !isDragging
      ensures isCapturing == old(isCapturing) && facingMode == old(facingMode)
      ensures stream == old(stream) && delivered == old(delivered)
    {
      isDragging := false;
    }

    /** A drop clears the drag flag and hands its first file, if there is one, to the file handler. */
    method HandleDrop(files: seq<FileInfo>, read: Option<string>)
      modifies this
      ensures !isDragging
      ensures delivered == old(delivered) + (if |files| == 0 then [] else Deliveries(files[0], read))
      ensures isCapturing == old(isCapturing) && facingMode == old(facingMode) && stream == old(stream)
    {
      isDragging := false;
      if |files| > 0 {
        HandleFile(files[0], read);
      }
    }

    /** The file input: its first file, if any, goes to the file handler. */
    method HandleFileSelect(files: seq<FileInfo>, read: Option<string>)
      modifies this
      ensures delivered == old(delivered) + (if |files| == 0 then [] else Deliveries(files[0], read))
      ensures isDragging == old(isDragging) && isCapturing == old(isCapturing)
      ensures facingMode == old(facingMode) && stream == old(stream)
    {
      if |files| > 0 {
        HandleFile(files[0], read);
      }
    }

    /**
     * Open the camera facing `mode`: any open stream is stopped first and the camera view is
     * raised. A refusal lowers the view again with no stream; a stream that opens but fails to
     * play is kept while the view is lowered.
     */
    method StartCamera(mode: FacingMode, outcome: CameraOutcome)
      modifies this
      ensures isCapturing <==> outcome == Playing
      ensures stream == if outcome == Denied then None else Some(Stream(mode))
      ensures isDragging == old(isDragging) && facingMode == old(facingMode) && delivered == old(delivered)
    {
      if stream.Some? {
        stream := None;
      }
      isCapturing := true;
      if outcome == Denied {
        isCapturing := false;
        return;
      }
      stream := Some(Stream(mode));
      if outcome == PlayFailed {
        isCapturing := false;
      }
    }

    /** Switch to the other camera and reopen it. */
    method ToggleCamera(outcome: CameraOutcome)
      modifies this
      ensures facingMode == Flip(old(facingMode))
      ensures isCapturing <==> outcome == Playing
      ensures stream == if outcome == Denied then None else Some(Stream(Flip(old(facingMode))))
      ensures isDragging == old(isDragging) && delivered == old(delivered)
    {
      var newMode := Flip(facingMode);
      facingMode := newMode;
      StartCamera(newMode, outcome);
    }

    /** Close the camera: whatever the state before, no stream and no camera view after. */
    method StopCamera()
      modifies this
      ensures stream.None? && !isCapturing
      ensures isDragging == old(isDragging) && facingMode == old(facingMode) && delivered == old(delivered)
    {
      if stream.Some? {
        stream := None;
      }
      isCapturing := false;
    }

    /**
     * Take a still: nothing without a mounted video element or a drawing context; otherwise the
     * frame (already encoded as `frame`) goes to the page and the camera is closed.
     */
    method CapturePhoto(videoMounted: bool, contextAvailable: bool, frame: string)
      modifies this
      ensures videoMounted && contextAvailable ==>
        delivered == old(delivered) + [frame] && stream.None? && !isCapturing
      ensures !(videoMounted && contextAvailable) ==>
        delivered == old(delivered) && stream == old(stream) && isCapturing == old(isCapturing)
      ensures isDragging == old(isDragging) && facingMode == old(facingMode)
    {
      if !videoMounted {
        return;
      }
      if contextAvailable {
        delivered := delivered + [frame];
        StopCamera();
      }
    }
  }

  /** Toggling twice with the camera playing both times returns to the original camera. */
  method ToggleTwice() returns (mode: FacingMode, live: Option<Stream>)
    ensures mode == User && live == Some(Stream(User))
  {
    var u := new Uploader();
    u.ToggleCamera(Playing);
    u.ToggleCamera(Playing);
    FlipTwice(User);
    mode := u.facingMode;
    live := u.stream;
  }
}
