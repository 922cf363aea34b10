/** The tick-identification screen: the detection session (selected image, processing and
    result flags, save flow, confidence, detection count, active result tab), the handlers
    that move it, and the choice of what the screen shows.

    The network round trip is split in two: `ProcessImage` issues the request and
    `FinishProcessing` receives its outcome, either the response text or a failure (a
    non-ok status, a thrown error, a malformed body). Reading the chosen file into a data
    URL is taken as already done: a chosen file arrives as its data URL. */
module Identification {
  import opened Optional
  import opened Text
  import ApiConfig
  import Protocol

  /** A response text containing this marker means "not a tick". */
  const NegativeMarker := "不是"
  /** The confidence shown for a positive response; the service's own score is not used. */
  const PositiveConfidence := 85
  /** The confidence a new session starts with. */
  const InitialConfidence := 82
  /** The only action the result screen selects. */
  const SaveAction := "save"

  /** How the detection request ended. */
  datatype Outcome = Ok(text: string) | Fail

  /** The multipart request `processImage` posts: one field `file` holding the image. */
  datatype Request = Request(url: string, field: string, fileName: string, contentType: string, image: string)

  datatype Session = Session(
    selectedImage: Option<string>,
    isProcessing: bool,
    showDetectionResult: bool,
    currentFlow: Option<string>,
    confidence: int,
    detectionCount: int,
    activeTab: string)

  /** The `useState` defaults: the upload screen, where only choosing a file is possible. */
  function Initial(): (r: Session)
    ensures ViewOf(r) == UploadView
    ensures forall e :: Offered(r, e) <==> e.FileChosen?
    ensures r.confidence == InitialConfidence && r.detectionCount == 0 && r.activeTab == Protocol.DefaultTab
  {
    Session(None, false, false, None, InitialConfidence, 0, Protocol.DefaultTab)
  }

  /** JavaScript truthiness of `selectedImage`: null and the empty string are falsy. */
  predicate HasImage(img: Option<string>)
    ensures HasImage(img) ==> img.Some?
    ensures img == Some("") ==> !HasImage(img)
  {
    img.Some? && img.value != ""
  }

  /** The classification rule: a tick unless the text contains the negative marker. */
  predicate IsTickDetected(text: string)
    ensures IsTickDetected(text) <==> forall i :: !OccursAt(text, NegativeMarker, i)
  {
    IncludesIff(text, NegativeMarker);
    !Includes(text, NegativeMarker)
  }

  /** The file input's handler: a chosen file becomes the selection; no file changes nothing. */
  function AfterFileSelect(s: Session, file: Option<string>): (r: Session)
    ensures file.None? ==> r == s
    ensures file.Some? ==> r.selectedImage == file && r.(selectedImage := s.selectedImage) == s
  {
    if file.Some? then s.(selectedImage := file) else s
  }

  /** `processImage` up to the request: without an image it returns at once; otherwise only
      `isProcessing` changes, and it becomes true. */
  function AfterStart(s: Session): (r: Session)
    ensures !HasImage(s.selectedImage) ==> r == s
    ensures HasImage(s.selectedImage) ==> r.isProcessing && r.(isProcessing := s.isProcessing) == s
  {
    if HasImage(s.selectedImage) then s.(isProcessing := true) else s
  }

  /** The rest of `processImage`: a response is classified, a failure leaves count and
      confidence as they were; every path shows the result and ends processing. */
  function AfterResponse(s: Session, o: Outcome): (r: Session)
    ensures r.showDetectionResult && !r.isProcessing
    ensures o.Ok? && !IsTickDetected(o.text) ==> r.detectionCount == 0 && r.confidence == 0
    ensures o.Ok? && IsTickDetected(o.text) ==> r.detectionCount == 1 && r.confidence == PositiveConfidence
    ensures o.Fail? ==> r.detectionCount == s.detectionCount && r.confidence == s.confidence
    ensures r.selectedImage == s.selectedImage && r.currentFlow == s.currentFlow && r.activeTab == s.activeTab
  {
    var classified :=
      match o
      case Fail => s
      case Ok(text) =>
        if IsTickDetected(text) then s.(detectionCount := 1, confidence := PositiveConfidence)
        else s.(detectionCount := 0, confidence := 0);
    classified.(showDetectionResult := true, isProcessing := false)
  }

  /** `resetSelection`: every field back to its initial value except the active tab. */
  function AfterReset(s: Session): (r: Session)
    ensures r.(activeTab := Protocol.DefaultTab) == Initial()
    ensures r.activeTab == s.activeTab
  {
    Session(None, false, false, None, InitialConfidence, 0, s.activeTab)
  }

  /** `handleActionSelect(action)`: only the flow changes. */
  function AfterActionSelect(s: Session, action: string): (r: Session)
    ensures r.currentFlow == Some(action) && r.(currentFlow := s.currentFlow) == s
  {
    s.(currentFlow := Some(action))
  }

  /** `handleFlowComplete`, and the save flow's back callback: only the flow changes, to none. */
  function AfterFlowComplete(s: Session): (r: Session)
    ensures r.currentFlow == None && r.(currentFlow := s.currentFlow) == s
  {
    s.(currentFlow := None)
  }

  /** A result tab's click handler: only the active tab changes. */
  function AfterTabClick(s: Session, id: string): (r: Session)
    ensures r.activeTab == id && r.(activeTab := s.activeTab) == s
  {
    s.(activeTab := id)
  }

  /** What the screen shows. */
  datatype View =
    | SaveFlowView(confidence: int)
    | AnalysisView(processing: bool)
    | TickResultView(confidence: int, tab: Option<Protocol.TabContent>)
    | NoTicksView
    | UploadView

  /** The render branches, tried in the order the component tries them. */
  function ViewOf(s: Session): (v: View)
    ensures v.SaveFlowView? ==> v.confidence == s.confidence
    ensures v.AnalysisView? ==> v.processing == s.isProcessing
    ensures v.TickResultView? ==> v.confidence == s.confidence && v.tab == Protocol.RenderTabContent(s.activeTab)
    ensures v.SaveFlowView? <==> s.currentFlow == Some(SaveAction)
    ensures v.AnalysisView? <==> s.currentFlow != Some(SaveAction) && HasImage(s.selectedImage) && !s.showDetectionResult
    ensures v.TickResultView? <==> s.currentFlow != Some(SaveAction) && HasImage(s.selectedImage) && s.showDetectionResult && s.detectionCount > 0
    ensures v.NoTicksView? <==> s.currentFlow != Some(SaveAction) && HasImage(s.selectedImage) && s.showDetectionResult && s.detectionCount == 0
    ensures v.UploadView? <==> s.currentFlow != Some(SaveAction) && (!HasImage(s.selectedImage) || (s.showDetectionResult && s.detectionCount < 0))
  {
    if s.currentFlow == Some(SaveAction) then SaveFlowView(s.confidence)
    else if HasImage(s.selectedImage) then
      if !s.showDetectionResult then AnalysisView(s.isProcessing)
      else if s.detectionCount > 0 then TickResultView(s.confidence, Protocol.RenderTabContent(s.activeTab))
      else if s.detectionCount == 0 then NoTicksView
      else UploadView
    else UploadView
  }

  /** The user's actions on the screen, and the arrival of the detection response. */
  datatype Event =
    | FileChosen(file: Option<string>)
    | AnalyseClicked
    | ResponseArrived(outcome: Outcome)
    | ResetClicked
    | SaveShareClicked
    | FlowBackClicked
    | FlowCompleted
    | TabClicked(id: string)

  /** An event can happen in a state: its control is on the screen, or, for the response,
      a request is in flight. */
  predicate Offered(s: Session, e: Event)
    ensures Offered(s, e) && e == AnalyseClicked ==>
              HasImage(s.selectedImage) && !s.isProcessing && !s.showDetectionResult
    ensures Offered(s, e) && (e == SaveShareClicked || e.TabClicked?) ==>
              HasImage(s.selectedImage) && s.showDetectionResult && s.detectionCount > 0
    ensures Offered(s, e) && (e == FlowBackClicked || e == FlowCompleted) ==> s.currentFlow == Some(SaveAction)
    ensures Offered(s, e) && e.TabClicked? ==> e.id in Protocol.TabIds
  {
    var v := ViewOf(s);
    match e
    case FileChosen(_) => v == UploadView
    case AnalyseClicked => v == AnalysisView(false)
    case ResponseArrived(_) => s.isProcessing
    case ResetClicked => v == AnalysisView(false) || v.TickResultView? || v == NoTicksView
    case SaveShareClicked => v.TickResultView?
    case FlowBackClicked => v.SaveFlowView?
    case FlowCompleted => v.SaveFlowView?
    case TabClicked(id) => v.TickResultView? && id in Protocol.TabIds
  }

  /** One event's effect. Each field has its own handlers: only a file choice or a reset
      changes the image, a response or a reset the result counters, the analyse click
      starts processing, the flow buttons and the reset the flow, and a tab click the tab. */
  function Step(s: Session, e: Event): (r: Session)
    ensures r.selectedImage != s.selectedImage ==> e.FileChosen? || e == ResetClicked
    ensures r.detectionCount != s.detectionCount || r.confidence != s.confidence ==>
              e.ResponseArrived? || e == ResetClicked
    ensures r.showDetectionResult != s.showDetectionResult ==> e.ResponseArrived? || e == ResetClicked
    ensures r.isProcessing && !s.isProcessing ==> e == AnalyseClicked
    ensures r.currentFlow != s.currentFlow ==>
              e == SaveShareClicked || e == FlowBackClicked || e == FlowCompleted || e == ResetClicked
    ensures r.activeTab != s.activeTab ==> e.TabClicked?
  {
    match e
    case FileChosen(file) => AfterFileSelect(s, file)
    case AnalyseClicked => AfterStart(s)
    case ResponseArrived(o) => AfterResponse(s, o)
    case ResetClicked => AfterReset(s)
    case SaveShareClicked => AfterActionSelect(s, SaveAction)
    case FlowBackClicked => AfterFlowComplete(s)
    case FlowCompleted => AfterFlowComplete(s)
    case TabClicked(id) => AfterTabClick(s, id)
  }

  /** The value an event passes to `onModalStateChange`, if it calls it. */
  function ModalSignal(e: Event): (r: Option<bool>)
    ensures r != Some(true)
    ensures r.Some? <==> e.ResponseArrived? || e == ResetClicked
  {
    match e
    case ResponseArrived(_) => Some(false)
    case ResetClicked => Some(false)
    case _ => None
  }

  ghost predicate ValidTrace(s: Session, es: seq<Event>)
    decreases |es|
  {
    es == [] || (Offered(s, es[0]) && ValidTrace(Step(s, es[0]), es[1..]))
  }

  function Run(s: Session, es: seq<Event>): Session
    decreases |es|
  {
    if es == [] then s else Run(Step(s, es[0]), es[1..])
  }

  /** The values passed to `onModalStateChange` along a trace, in order. */
  function ModalSignals(es: seq<Event>): (r: seq<bool>)
    ensures forall k :: 0 <= k < |r| ==> !r[k]
    decreases |es|
  {
    if es == [] then []
    else
      var rest := ModalSignals(es[1..]);
      match ModalSignal(es[0])
      case Some(b) => [b] + rest
      case None => rest
  }

  /** The states the screen can reach: count 0 or 1 with its matching confidence, a result
      only for an image, a request only from the analysis view, the save flow only over a
      positive result, and a valid tab. */
  ghost predicate Inv(s: Session)
  {
    && (s.detectionCount == 0 || s.detectionCount == 1)
    && (!s.showDetectionResult ==> s.detectionCount == 0 && s.confidence == InitialConfidence)
    && (s.detectionCount == 1 ==> s.confidence == PositiveConfidence)
    && (s.detectionCount == 0 ==> s.confidence == 0 || s.confidence == InitialConfidence)
    && (s.showDetectionResult ==> HasImage(s.selectedImage))
    && (s.isProcessing ==> HasImage(s.selectedImage) && !s.showDetectionResult && s.currentFlow == None)
    && (s.currentFlow.Some? ==>
          s.currentFlow == Some(SaveAction) && s.showDetectionResult && s.detectionCount == 1 && !s.isProcessing)
    && s.activeTab in Protocol.TabIds
  }

  lemma InitialInv()
    ensures Inv(Initial())
  {
  }

  lemma StepKeepsInv(s: Session, e: Event)
    requires Inv(s) && Offered(s, e)
    ensures Inv(Step(s, e))
  {
  }

  lemma {:induction false} RunKeepsInv(s: Session, es: seq<Event>)
    requires Inv(s) && ValidTrace(s, es)
    ensures Inv(Run(s, es))
    decreases |es|
  {
    if es != [] {
      StepKeepsInv(s, es[0]);
      RunKeepsInv(Step(s, es[0]), es[1..]);
    }
  }

  /** Every state reachable from a new session satisfies the invariant. */
  lemma ReachableInv(es: seq<Event>)
    requires ValidTrace(Initial(), es)
    ensures Inv(Run(Initial(), es))
  {
    RunKeepsInv(Initial(), es);
  }

  /** While a request is in flight the screen shows the spinner and offers nothing: the
      analyse button is gone, so no second request can start; only the response can come. */
  lemma NoSecondRequestInFlight(s: Session)
    requires Inv(s) && s.isProcessing
    ensures ViewOf(s) == AnalysisView(true)
    ensures !Offered(s, AnalyseClicked)
    ensures forall e :: Offered(s, e) ==> e.ResponseArrived?
  {
  }

  /** A failed request shows "No ticks detected": the count stays at the 0 every state
      without a result has. */
  lemma FailureShowsNoTicks(s: Session)
    requires Inv(s) && s.isProcessing
    ensures ViewOf(AfterResponse(s, Fail)) == NoTicksView
    ensures AfterResponse(s, Fail).confidence == InitialConfidence
  {
  }

  /** A response with the negative marker shows "No ticks detected" with confidence 0. */
  lemma NegativeResponseShowsNoTicks(s: Session, text: string)
    requires Inv(s) && s.isProcessing && Includes(text, NegativeMarker)
    ensures ViewOf(AfterResponse(s, Ok(text))) == NoTicksView
    ensures AfterResponse(s, Ok(text)).confidence == 0
  {
  }

  /** A response without the marker shows the tabbed result at confidence 85, on a tab that
      renders content. */
  lemma PositiveResponseShowsTabs(s: Session, text: string)
    requires Inv(s) && s.isProcessing && !Includes(text, NegativeMarker)
    ensures ViewOf(AfterResponse(s, Ok(text))).TickResultView?
    ensures ViewOf(AfterResponse(s, Ok(text))).confidence == PositiveConfidence
    ensures ViewOf(AfterResponse(s, Ok(text))).tab.Some?
  {
    Protocol.RenderTabContentInverse(Protocol.RemovalFlowContent);
  }

  /** Opening the save flow from the result and closing it again restores the session
      exactly, and the save flow is shown the positive confidence. */
  lemma SaveFlowRoundTrip(s: Session)
    requires Inv(s) && ViewOf(s).TickResultView?
    ensures ViewOf(AfterActionSelect(s, SaveAction)) == SaveFlowView(PositiveConfidence)
    ensures AfterFlowComplete(AfterActionSelect(s, SaveAction)) == s
  {
  }

  /** After a reset the upload view is shown, whatever the state was. */
  lemma ResetShowsUpload(s: Session)
    ensures ViewOf(AfterReset(s)) == UploadView
    ensures !AfterReset(s).isProcessing && !AfterReset(s).showDetectionResult
  {
  }

  /** A session reaches the save flow only through a positive result. */
  lemma SaveFlowNeedsTick(s: Session)
    requires Inv(s) && ViewOf(s).SaveFlowView?
    ensures s.detectionCount == 1 && s.confidence == PositiveConfidence
  {
  }

  /** End to end, negative: choose an image, analyse, the service answers with the marker. */
  lemma NegativeScenario(image: string)
    requires image != ""
    ensures var es := [FileChosen(Some(image)), AnalyseClicked, ResponseArrived(Ok("不是,这是叶子"))];
            ValidTrace(Initial(), es)
            && ViewOf(Run(Initial(), es)) == NoTicksView
            && Run(Initial(), es).confidence == 0
            && (forall e :: Offered(Run(Initial(), es), e) <==> e == ResetClicked)
  {
    var s1 := Step(Initial(), FileChosen(Some(image)));
    var s2 := Step(s1, AnalyseClicked);
    var text := "不是,这是叶子";
    assert OccursAt(text, NegativeMarker, 0);
    IncludesOccurrence(text, NegativeMarker, 0);
    var s3 := Step(s2, ResponseArrived(Ok(text)));
    var es := [FileChosen(Some(image)), AnalyseClicked, ResponseArrived(Ok(text))];
    assert es[1..] == [AnalyseClicked, ResponseArrived(Ok(text))];
    assert es[1..][1..] == [ResponseArrived(Ok(text))];
    assert es[1..][1..][1..] == [];
    assert ValidTrace(s2, es[1..][1..]);
    assert ValidTrace(s1, es[1..]);
    assert Run(s2, es[1..][1..]) == s3;
    assert Run(Initial(), es) == s3;
  }

  /** End to end, positive: the answer lacks the marker, so the tabbed result is shown at
      confidence 85 on the removal tab. */
  lemma PositiveScenario(image: string)
    requires image != ""
    ensures var es := [FileChosen(Some(image)), AnalyseClicked, ResponseArrived(Ok("这是麻痹蜱"))];
            ValidTrace(Initial(), es)
            && ViewOf(Run(Initial(), es)) == TickResultView(PositiveConfidence, Some(Protocol.RemovalFlowContent))
  {
    var s1 := Step(Initial(), FileChosen(Some(image)));
    var s2 := Step(s1, AnalyseClicked);
    var text := "这是麻痹蜱";
    ExcludesWithoutFirstChar(text, NegativeMarker);
    var s3 := Step(s2, ResponseArrived(Ok(text)));
    var es := [FileChosen(Some(image)), AnalyseClicked, ResponseArrived(Ok(text))];
    assert es[1..] == [AnalyseClicked, ResponseArrived(Ok(text))];
    assert es[1..][1..] == [ResponseArrived(Ok(text))];
    assert es[1..][1..][1..] == [];
    assert ValidTrace(s2, es[1..][1..]);
    assert ValidTrace(s1, es[1..]);
    assert Run(s2, es[1..][1..]) == s3;
    assert Run(Initial(), es) == s3;
  }

  /** The screen's React state. */
  class IdentificationPage {
    var selectedImage: Option<string>
    var isProcessing: bool
    var showDetectionResult: bool
    var currentFlow: Option<string>
    var confidence: int
    var detectionCount: int
    var activeTab: string

    function State(): Session
      reads this
    {
      Session(selectedImage, isProcessing, showDetectionResult, currentFlow, confidence, detectionCount, activeTab)
    }

    constructor ()
      ensures State() == Initial()
    {
      selectedImage := None;
      isProcessing := false;
      showDetectionResult := false;
      currentFlow := None;
      confidence := InitialConfidence;
      detectionCount := 0;
      activeTab := Protocol.DefaultTab;
    }

    method HandleFileSelect(file: Option<string>)
      modifies this
      ensures State() == AfterFileSelect(old(State()), file)
    {
      if file.Some? {
        selectedImage := file;
      }
    }

    /** The first half of `processImage`: returns the request it posts, or none when there
        is no image. `hostname` is the page's host, which picks the API base. */
    method ProcessImage(hostname: string) returns (request: Option<Request>)
      modifies this
      ensures State() == AfterStart(old(State()))
      ensures request.Some? <==> HasImage(old(selectedImage))
      ensures request.Some? ==>
                request.value == Request(ApiConfig.GetApiUrl(hostname, ApiConfig.DetectTick), "file", "image.jpeg", "image/jpeg", old(selectedImage).value)
    {
      if selectedImage.None? || selectedImage.value == "" {
        return None;
      }
      isProcessing := true;
      request := Some(Request(ApiConfig.GetApiUrl(hostname, ApiConfig.DetectTick), "file", "image.jpeg", "image/jpeg", selectedImage.value));
    }

    /** The second half of `processImage`: the outcome of the request. Returns the value
        passed to `onModalStateChange`. */
    method FinishProcessing(outcome: Outcome) returns (modalOpen: bool)
      modifies this
      ensures State() == AfterResponse(old(State()), outcome)
      ensures !modalOpen
    {
      match outcome {
        case Ok(text) =>
          if !Includes(text, NegativeMarker) {
            detectionCount := 1;
            confidence := PositiveConfidence;
          } else {
            detectionCount := 0;
            confidence := 0;
          }
          showDetectionResult := true;
        case Fail =>
          showDetectionResult := true;
      }
      modalOpen := false;
      isProcessing := false;
    }

    /** Returns the value passed to `onModalStateChange`. */
    method ResetSelection() returns (modalOpen: bool)
      modifies this
      ensures State() == AfterReset(old(State()))
      ensures !modalOpen
    {
      selectedImage := None;
      isProcessing := false;
      showDetectionResult := false;
      currentFlow := None;
      confidence := InitialConfidence;
      detectionCount := 0;
      modalOpen := false;
    }

    method HandleActionSelect(action: string)
      modifies this
      ensures State() == AfterActionSelect(old(State()), action)
    {
      currentFlow := Some(action);
    }

    /** Also the save flow's back callback, which makes the same change. */
    method HandleFlowComplete()
      modifies this
      ensures State() == AfterFlowComplete(old(State()))
    {
      currentFlow := None;
    }

    /** A click on one of the three result tabs. */
    method SetActiveTab(id: string)
      requires id in Protocol.TabIds
      modifies this
      ensures State() == AfterTabClick(old(State()), id)
    {
      activeTab := id;
    }

    function View(): View
      reads this
    {
      ViewOf(State())
    }
  }
}
