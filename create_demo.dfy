/**
 * The demo editor of the create-demo page: the list of steps, which starts with one step and
 * grows one numbered step at a time, each step's image replaced by an uploaded one, and the
 * demo that the share dialog posts to POST /api/demos.
 */
module CreateDemo {
  import opened Wrappers
  import opened Text
  import opened JsonText
  import opened StepsJson
  import DemoSchema

  datatype Step = Step(id: nat, thumbnail: string, image: string, title: string)

  const StepThumbnailPlaceholder := "/placeholder.svg?height=120&width=200"
  const StepImagePlaceholder := "/placeholder.svg?height=400&width=600"
  const ShareThumbnailPlaceholder := "/placeholder.svg?height=200&width=350"

  /** The step `addNewStep` appends to a list of `count` steps. */
  function FreshStep(count: nat): Step {
    Step(count + 1, StepThumbnailPlaceholder, StepImagePlaceholder, "Step " + NatToString(count + 1))
  }

  /** The `steps` state the page starts with. */
  const InitialSteps: seq<Step> := [FreshStep(0)]

  /** Step i is numbered i + 1 and titled "Step <i + 1>". */
  predicate Numbered(steps: seq<Step>) {
    forall i :: 0 <= i < |steps| ==> steps[i].id == i + 1 && steps[i].title == "Step " + NatToString(i + 1)
  }

  /** `addNewStep`. */
  function AddNewStep(steps: seq<Step>): (r: seq<Step>)
    ensures |r| == |steps| + 1 && r[..|steps|] == steps
    ensures r[|steps|].id == |steps| + 1 && r[|steps|].title == "Step " + NatToString(|steps| + 1)
    ensures r[|steps|].image == StepImagePlaceholder && r[|steps|].thumbnail == StepThumbnailPlaceholder
  {
    steps + [FreshStep(|steps|)]
  }

  /**
   * The step update after an upload: a copy of the list with the step at `index`, if there is
   * one, showing `url` as image and thumbnail.
   */
  function WithImage(steps: seq<Step>, index: nat, url: string): (r: seq<Step>)
    ensures |r| == |steps|
    ensures forall i :: 0 <= i < |steps| && i != index ==> r[i] == steps[i]
    ensures index < |steps| ==> r[index] == steps[index].(image := url, thumbnail := url)
    ensures index >= |steps| ==> r == steps
  {
    if index < |steps| then steps[index := steps[index].(image := url, thumbnail := url)] else steps
  }

  /** The list after `n` calls of `addNewStep`. */
  function AddSteps(steps: seq<Step>, n: nat): seq<Step>
    decreases n
  {
    if n == 0 then steps else AddSteps(AddNewStep(steps), n - 1)
  }

  lemma AddNewStepNumbered(steps: seq<Step>)
    requires Numbered(steps)
    ensures Numbered(AddNewStep(steps))
  {
  }

  /** Starting from the initial step, any number of additions keeps step i numbered i + 1. */
  lemma {:induction false} AddStepsNumbered(steps: seq<Step>, n: nat)
    requires Numbered(steps)
    ensures Numbered(AddSteps(steps, n)) && |AddSteps(steps, n)| == |steps| + n
    decreases n
  {
    if n > 0 {
      AddNewStepNumbered(steps);
      AddStepsNumbered(AddNewStep(steps), n - 1);
    }
  }

  lemma InitialStepsNumbered(n: nat)
    ensures Numbered(AddSteps(InitialSteps, n)) && |AddSteps(InitialSteps, n)| == n + 1
  {
    AddStepsNumbered(InitialSteps, n);
  }

  /** Uploading an image never renumbers or retitles a step. */
  lemma WithImageNumbered(steps: seq<Step>, index: nat, url: string)
    requires Numbered(steps)
    ensures Numbered(WithImage(steps, index, url))
  {
  }

  /** Each step with its image and thumbnail removed. */
  function Summaries(steps: seq<Step>): (r: seq<Summary>)
    ensures |r| == |steps|
    ensures forall i :: 0 <= i < |steps| ==> r[i] == Summary(steps[i].id, steps[i].title)
  {
    if steps == [] then [] else [Summary(steps[0].id, steps[0].title)] + Summaries(steps[1..])
  }

  /** `JSON.stringify(steps.map(...))` with image and thumbnail stripped. */
  function Content(steps: seq<Step>): string {
    EncodeSummaries(Summaries(steps))
  }

  /** `steps[0]?.image || placeholder`. */
  function ShareThumbnail(steps: seq<Step>): string {
    if steps == [] || steps[0].image == "" then ShareThumbnailPlaceholder else steps[0].image
  }

  /** The demo `handleShare` posts. It has no `url` key. */
  function ShareInput(steps: seq<Step>, shareTitle: string, shareDescription: string, isPublic: bool): DemoSchema.DemoInput {
    DemoSchema.DemoInput(shareTitle, shareDescription, "interactive", Content(steps),
                         Some(ShareThumbnail(steps)), None, Some(isPublic))
  }

  /** The content names each step's number and title, in order, and nothing else of it. */
  lemma ContentRecoversSteps(steps: seq<Step>)
    ensures DecodeSummaries(Content(steps)) == Some(Summaries(steps))
  {
    DecodeEncode(Summaries(steps));
  }

  /** Uploading an image does not change the shared content. */
  lemma ContentIgnoresImages(steps: seq<Step>, index: nat, url: string)
    ensures Content(WithImage(steps, index, url)) == Content(steps)
  {
    assert Summaries(WithImage(steps, index, url)) == Summaries(steps);
  }

  /** The shared body passes the backend's schema exactly as built whenever the title is not blank. */
  lemma SharePassesSchema(steps: seq<Step>, shareTitle: string, shareDescription: string, isPublic: bool)
    requires Trim(shareTitle) != ""
    ensures var input := ShareInput(steps, shareTitle, shareDescription, isPublic);
      DemoSchema.Parse(DemoSchema.Encode(input)) == Some(input)
  {
    TrimEmptyIffBlank(shareTitle);
    DemoSchema.ParseEncode(ShareInput(steps, shareTitle, shareDescription, isPublic));
  }

  /** The `isPublic` state after choosing `value` in the privacy select. */
  function PrivacyChoice(value: string): bool {
    value == "public"
  }

  /** The outcome of the POST a handler sends: it went through, or it threw. */
  datatype Posted<T> = Succeeded(value: T) | Threw

  class Editor {
    var steps: seq<Step>
    var selectedStep: nat
    var shareTitle: string
    var shareDescription: string
    var isPublic: bool
    var showShareDialog: bool
    /** `localStorage.getItem("token")`. */
    var storedToken: Option<string>

    ghost predicate Valid()
      reads this
    {
      Numbered(steps)
    }

    constructor (storedToken: Option<string>)
      ensures Valid() && steps == InitialSteps && selectedStep == 0
      ensures shareTitle == "" && shareDescription == "" && !isPublic && !showShareDialog
      ensures this.storedToken == storedToken
    {
      steps, selectedStep := InitialSteps, 0;
      shareTitle, shareDescription, isPublic, showShareDialog := "", "", false, false;
      this.storedToken := storedToken;
    }

    predicate HasToken()
      reads this
    {
      storedToken.Some? && storedToken.value != ""
    }

    method AddStep()
      requires Valid()
      modifies this
      ensures Valid() && steps == AddNewStep(old(steps))
      ensures selectedStep == old(selectedStep) && storedToken == old(storedToken)
      ensures shareTitle == old(shareTitle) && shareDescription == old(shareDescription)
      ensures isPublic == old(isPublic) && showShareDialog == old(showShareDialog)
    {
      AddNewStepNumbered(steps);
      steps := AddNewStep(steps);
    }

    /** Clicking a step in the sidebar. */
    method SelectStep(index: nat)
      modifies this
      ensures selectedStep == index && steps == old(steps) && storedToken == old(storedToken)
      ensures shareTitle == old(shareTitle) && shareDescription == old(shareDescription)
      ensures isPublic == old(isPublic) && showShareDialog == old(showShareDialog)
    {
      selectedStep := index;
    }

    /**
     * `handleImageUpload`: `hasFile` is whether a file was chosen and `upload` the outcome of
     * POST /api/upload-image, whose body carries the image's `url`.
     */
    method HandleImageUpload(hasFile: bool, upload: Posted<string>)
      requires Valid()
      modifies this
      ensures Valid()
      ensures steps ==
        if hasFile && old(HasToken()) && upload.Succeeded? then WithImage(old(steps), old(selectedStep), upload.value)
        else old(steps)
      ensures selectedStep == old(selectedStep) && storedToken == old(storedToken)
      ensures shareTitle == old(shareTitle) && shareDescription == old(shareDescription)
      ensures isPublic == old(isPublic) && showShareDialog == old(showShareDialog)
    {
      if !hasFile || !HasToken() {
        return;
      }
      match upload {
        case Threw =>
        case Succeeded(url) =>
          WithImageNumbered(steps, selectedStep, url);
          steps := WithImage(steps, selectedStep, url);
      }
    }

    method SetPrivacy(value: string)
      modifies this
      ensures isPublic == PrivacyChoice(value)
      ensures steps == old(steps) && selectedStep == old(selectedStep) && storedToken == old(storedToken)
      ensures shareTitle == old(shareTitle) && shareDescription == old(shareDescription)
      ensures showShareDialog == old(showShareDialog)
    {
      isPublic := value == "public";
    }

    /**
     * `handleShare`: the body sent to POST /api/demos, if any, given the `outcome` of that
     * request. Nothing is sent for a blank title or without a token; a request that goes
     * through closes the dialog.
     */
    method HandleShare(outcome: Posted<()>) returns (sent: Option<DemoSchema.Body>)
      modifies this
      ensures sent.Some? <==> Trim(old(shareTitle)) != "" && old(HasToken())
      ensures sent.Some? ==>
        sent.value == DemoSchema.Encode(ShareInput(old(steps), old(shareTitle), old(shareDescription), old(isPublic)))
      ensures showShareDialog == (old(showShareDialog) && !(sent.Some? && outcome.Succeeded?))
      ensures steps == old(steps) && selectedStep == old(selectedStep) && storedToken == old(storedToken)
      ensures shareTitle == old(shareTitle) && shareDescription == old(shareDescription) && isPublic == old(isPublic)
    {
      if Trim(shareTitle) == "" {
        return None;
      }
      var body := DemoSchema.Encode(ShareInput(steps, shareTitle, shareDescription, isPublic));
      if !HasToken() {
        return None;
      }
      sent := Some(body);
      if outcome.Succeeded? {
        showShareDialog := false;
      }
    }
  }
}
