/**
 * The page that drives the three-step workflow (src/pages/Index.tsx):
 * upload a photo, position it in the editor, export a sheet. The page keeps
 * the current step, the uploaded and cropped images (data URLs, "" for none)
 * and the chosen photo specification and sheet size; which view is rendered
 * is decided by guards over those fields.
 */
module IndexPage {
  import opened Wrappers
  import opened PhotoSpecs

  datatype Step = Upload | Edit | Export

  /** The three main views of the page. */
  datatype View = UploadView | EditorView | ExportView

  /** Guard of the upload view: the step alone. */
  predicate UploadShown(step: Step) {
    step == Upload
  }

  /** Guard of the editor: the edit step, with an uploaded image to edit. */
  predicate EditorShown(step: Step, uploadedImage: string) {
    step == Edit && uploadedImage != ""
  }

  /** Guard of the export view: the export step, with a cropped image to tile. */
  predicate ExportShown(step: Step, croppedImage: string) {
    step == Export && croppedImage != ""
  }

  /** Inside the upload view: the "Continue to Edit" button appears once an image is uploaded. */
  predicate ContinueShown(step: Step, uploadedImage: string) {
    UploadShown(step) && uploadedImage != ""
  }

  /**
   * The view on screen, if any. Each guard holds exactly when its view is the one shown,
   * so at most one of the three is visible at a time.
   */
  function ShownView(step: Step, uploadedImage: string, croppedImage: string): (v: Option<View>)
    ensures v == Some(UploadView) <==> UploadShown(step)
    ensures v == Some(EditorView) <==> EditorShown(step, uploadedImage)
    ensures v == Some(ExportView) <==> ExportShown(step, croppedImage)
    ensures v.None? <==> !UploadShown(step) && !EditorShown(step, uploadedImage) && !ExportShown(step, croppedImage)
  {
    match step
    case Upload => Some(UploadView)
    case Edit => if uploadedImage != "" then Some(EditorView) else None
    case Export => if croppedImage != "" then Some(ExportView) else None
  }

  /** The page's state and its handlers. */
  class Wizard {
    var currentStep: Step
    var uploadedImage: string
    var croppedImage: string
    var selectedSpec: PhotoSpec
    var selectedSheet: SheetSize

    function View(): Option<View>
      reads this
    {
      ShownView(currentStep, uploadedImage, croppedImage)
    }

    /** Start on the upload step with no images, the first specification and the first sheet size. */
    constructor ()
      ensures currentStep == Upload && uploadedImage == "" && croppedImage == ""
      ensures selectedSpec == PHOTO_SPECS[0] && selectedSheet == SHEET_SIZES[0]
      ensures View() == Some(UploadView) && !ContinueShown(currentStep, uploadedImage)
    {
      currentStep := Upload;
      uploadedImage := "";
      croppedImage := "";
      selectedSpec := PHOTO_SPECS[0];
      selectedSheet := SHEET_SIZES[0];
    }

    /** A new photo: stored, and any earlier crop discarded; the step stays. */
    method HandleImageSelect(imageData: string)
      modifies this
      ensures uploadedImage == imageData && croppedImage == ""
      ensures currentStep == old(currentStep)
      ensures selectedSpec == old(selectedSpec) && selectedSheet == old(selectedSheet)
      ensures currentStep == Upload ==> View() == Some(UploadView)
      ensures ContinueShown(currentStep, uploadedImage) <==> currentStep == Upload && imageData != ""
    {
      uploadedImage := imageData;
      croppedImage := "";
    }

    /** Clear: both images gone, back to the upload step. */
    method HandleClear()
      modifies this
      ensures uploadedImage == "" && croppedImage == "" && currentStep == Upload
      ensures selectedSpec == old(selectedSpec) && selectedSheet == old(selectedSheet)
      ensures View() == Some(UploadView)
    {
      uploadedImage := "";
      croppedImage := "";
      currentStep := Upload;
    }

    /** The editor delivered a crop: kept, and the page moves on to export. */
    method HandleCropComplete(cropped: string)
      modifies this
      ensures croppedImage == cropped && currentStep == Export
      ensures uploadedImage == old(uploadedImage)
      ensures selectedSpec == old(selectedSpec) && selectedSheet == old(selectedSheet)
      ensures View() == if cropped != "" then Some(ExportView) else None
    {
      croppedImage := cropped;
      currentStep := Export;
    }

    /** "Continue to Edit": only the step changes. */
    method HandleStartEditing()
      modifies this
      ensures currentStep == Edit
      ensures uploadedImage == old(uploadedImage) && croppedImage == old(croppedImage)
      ensures selectedSpec == old(selectedSpec) && selectedSheet == old(selectedSheet)
      ensures View() == if uploadedImage != "" then Some(EditorView) else None
    {
      currentStep := Edit;
    }

    /** "Edit again": only the step changes. */
    method HandleBackToEdit()
      modifies this
      ensures currentStep == Edit
      ensures uploadedImage == old(uploadedImage) && croppedImage == old(croppedImage)
      ensures selectedSpec == old(selectedSpec) && selectedSheet == old(selectedSheet)
      ensures View() == if uploadedImage != "" then Some(EditorView) else None
    {
      currentStep := Edit;
    }

    /** The country selector's setter. */
    method SelectSpec(spec: PhotoSpec)
      modifies this
      ensures selectedSpec == spec
      ensures currentStep == old(currentStep) && uploadedImage == old(uploadedImage)
      ensures croppedImage == old(croppedImage) && selectedSheet == old(selectedSheet)
    {
      selectedSpec := spec;
    }

    /** The sheet-size selector's setter. */
    method SelectSheet(sheet: SheetSize)
      modifies this
      ensures selectedSheet == sheet
      ensures currentStep == old(currentStep) && uploadedImage == old(uploadedImage)
      ensures croppedImage == old(croppedImage) && selectedSpec == old(selectedSpec)
    {
      selectedSheet := sheet;
    }
  }

  /**
   * The usual path through the page: upload, continue, crop, edit again, clear. With non-empty
   * images every step shows exactly the view the workflow intends.
   */
  method Walkthrough(image: string, cropped: string) returns (views: seq<Option<View>>)
    requires image != "" && cropped != ""
    ensures views == [Some(UploadView), Some(UploadView), Some(EditorView), Some(ExportView),
                      Some(EditorView), Some(UploadView)]
  {
    var page := new Wizard();
    views := [page.View()];
    page.HandleImageSelect(image);
    views := views + [page.View()];
    page.HandleStartEditing();
    views := views + [page.View()];
    page.HandleCropComplete(cropped);
    views := views + [page.View()];
    page.HandleBackToEdit();
    views := views + [page.View()];
    page.HandleClear();
    views := views + [page.View()];
  }
}
