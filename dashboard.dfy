/**
 * The dashboard page: a slide pager bounded by a fixed slide count, the
 * PowerPoint upload gate and the logout button. The selected `File` and
 * the URL `URL.createObjectURL` makes for it are opaque values here.
 */
module Dashboard {
  import opened Wrappers
  import Auth

  /** `useState(10)`, never updated. */
  const TotalSlides: int := 10

  const PptType: string := "application/vnd.ms-powerpoint"
  const PptxType: string := "application/vnd.openxmlformats-officedocument.presentationml.presentation"

  /** A selected file: its name, its MIME type and an opaque handle on its bytes. */
  datatype PickedFile = PickedFile(name: string, mimeType: string, handle: nat)

  /** The page's three state variables. */
  datatype ViewerState = ViewerState(uploadedFile: Option<PickedFile>, fileUrl: Option<string>, currentSlide: int)

  datatype ViewerAction =
    | Previous
    | Next
    | Upload(file: Option<PickedFile>, url: string)

  datatype UploadOutcome = NoFileSelected | Uploaded | InvalidType

  predicate SlideInRange(slide: int) {
    1 <= slide <= TotalSlides
  }

  /** What every reachable viewer state satisfies. */
  predicate ViewerInvariant(v: ViewerState) {
    SlideInRange(v.currentSlide) && (v.uploadedFile.Some? <==> v.fileUrl.Some?)
  }

  function InitialViewer(): (v: ViewerState)
    ensures ViewerInvariant(v) && v.currentSlide == 1 && v.uploadedFile == None
  {
    ViewerState(None, None, 1)
  }

  predicate IsPresentationType(mimeType: string) {
    mimeType == PptType || mimeType == PptxType
  }

  /** Which branch of `handleFileUpload` a selection takes. */
  function ClassifyUpload(file: Option<PickedFile>): (o: UploadOutcome)
    ensures o == Uploaded <==> file.Some? && file.value.mimeType in {PptType, PptxType}
    ensures o == NoFileSelected <==> file == None
  {
    match file
    case None => NoFileSelected
    case Some(f) => if IsPresentationType(f.mimeType) then Uploaded else InvalidType
  }

  /** One handler run on the viewer state. */
  function Step(v: ViewerState, a: ViewerAction): (w: ViewerState)
    ensures ViewerInvariant(v) ==> ViewerInvariant(w)
    ensures a.Upload? && ClassifyUpload(a.file) == Uploaded ==>
              w == ViewerState(a.file, Some(a.url), 1)
    ensures a.Upload? && ClassifyUpload(a.file) != Uploaded ==> w == v
    ensures !a.Upload? ==> w.uploadedFile == v.uploadedFile && w.fileUrl == v.fileUrl
  {
    match a
    case Previous =>
      if v.currentSlide > 1 then v.(currentSlide := v.currentSlide - 1) else v
    case Next =>
      if v.currentSlide < TotalSlides then v.(currentSlide := v.currentSlide + 1) else v
    case Upload(file, url) =>
      if ClassifyUpload(file) == Uploaded then ViewerState(file, Some(url), 1) else v
  }

  /** Previous and next move by exactly one inside the range and stop at its ends. */
  lemma PagerMoves(v: ViewerState)
    requires SlideInRange(v.currentSlide)
    ensures Step(v, Previous).currentSlide == if v.currentSlide == 1 then 1 else v.currentSlide - 1
    ensures Step(v, Next).currentSlide == if v.currentSlide == TotalSlides then TotalSlides else v.currentSlide + 1
  {
  }

  /** Below the last slide, next then previous comes back to the same slide. */
  lemma NextThenPrevious(v: ViewerState)
    requires 1 <= v.currentSlide < TotalSlides
    ensures Step(Step(v, Next), Previous) == v
  {
  }

  /** The handlers applied in turn. */
  function Run(v: ViewerState, actions: seq<ViewerAction>): ViewerState
    decreases |actions|
  {
    if actions == [] then v else Run(Step(v, actions[0]), actions[1..])
  }

  /** No sequence of clicks and uploads takes the pager out of [1, TotalSlides]. */
  lemma {:induction false} RunKeepsInvariant(v: ViewerState, actions: seq<ViewerAction>)
    requires ViewerInvariant(v)
    ensures ViewerInvariant(Run(v, actions))
    ensures SlideInRange(Run(v, actions).currentSlide)
    decreases |actions|
  {
    if actions != [] {
      RunKeepsInvariant(Step(v, actions[0]), actions[1..]);
    }
  }

  class DashboardPage {
    var uploadedFile: Option<PickedFile>
    var fileUrl: Option<string>
    var currentSlide: int
    const auth: Auth.AuthProvider

    function View(): ViewerState
      reads this
    {
      ViewerState(uploadedFile, fileUrl, currentSlide)
    }

    ghost predicate Valid()
      reads this
    {
      ViewerInvariant(View())
    }

    constructor (auth: Auth.AuthProvider)
      ensures this.auth == auth && View() == InitialViewer() && Valid()
    {
      this.auth := auth;
      uploadedFile := None;
      fileUrl := None;
      currentSlide := 1;
    }

    method HandlePrevious()
      requires Valid()
      modifies this
      ensures Valid() && View() == Step(old(View()), Previous)
    {
      if currentSlide > 1 {
        currentSlide := currentSlide - 1;
      }
    }

    method HandleNext()
      requires Valid()
      modifies this
      ensures Valid() && View() == Step(old(View()), Next)
    {
      if currentSlide < TotalSlides {
        currentSlide := currentSlide + 1;
      }
    }

    method HandleFileUpload(file: Option<PickedFile>, url: string) returns (outcome: UploadOutcome)
      requires Valid()
      modifies this
      ensures Valid() && View() == Step(old(View()), Upload(file, url))
      ensures outcome == ClassifyUpload(file)
    {
      outcome := NoFileSelected;
      if file.Some? {
        if file.value.mimeType == PptType || file.value.mimeType == PptxType {
          uploadedFile := file;
          fileUrl := Some(url);
          currentSlide := 1;
          outcome := Uploaded;
        } else {
          outcome := InvalidType;
        }
      }
    }

    /** Delegates to the session's `logout`; the viewer state is untouched. */
    method HandleLogout()
      requires auth.Valid()
      modifies auth, auth.storage
      ensures auth.Valid() && auth.State() == Auth.LogoutStep(old(auth.State()))
      ensures View() == old(View())
    {
      auth.Logout();
    }
  }
}
