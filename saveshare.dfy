/** The two-step save/share sub-flow: step 1 saves the detection (a simulated two-second
    save), step 2 offers export and share. The timer is modelled as an explicit event;
    the date is a parameter; alert, clipboard and the platform share sheet are returned
    as action values. */
module SaveShare {
  import opened Optional
  import opened Text

  const StepCount := 2

  /** The sub-flow's own state. `pendingTimers` counts save timers scheduled but not yet fired. */
  datatype Flow = Flow(currentStep: int, isSaving: bool, saved: bool, pendingTimers: nat)

  /** The `useState` defaults: step 1, not saving, not saved, and no timer scheduled. */
  function Initial(): (r: Flow)
    ensures Inv(r)
    ensures SaveButtonOf(r) == SaveEnabled && ProgressValue(r.currentStep) == 50.0
  {
    Flow(1, false, false, 0)
  }

  /** The user-facing events of the sub-flow, and the save timer firing. */
  datatype Event = SaveClicked | TimerFired | BackClicked | ContinueClicked | ShareClicked | ExportClicked

  /** How the sub-flow hands control back to its host. */
  datatype Exit = ExitBack | ExitComplete

  /** The save button: shown only while not saved, disabled while saving. */
  datatype SaveButton = NoSaveButton | SaveEnabled | SaveDisabled

  function SaveButtonOf(f: Flow): (r: SaveButton)
    ensures r != NoSaveButton <==> f.currentStep == 1 && !f.saved
    ensures r == SaveDisabled <==> f.currentStep == 1 && !f.saved && f.isSaving
  {
    if f.currentStep != 1 || f.saved then NoSaveButton
    else if f.isSaving then SaveDisabled
    else SaveEnabled
  }

  /** An event can happen: its button is rendered and enabled, or for the timer, one is pending. */
  predicate Offered(f: Flow, e: Event)
    ensures Offered(f, e) && e == SaveClicked ==> SaveButtonOf(Saving(f)) == SaveDisabled
    ensures Offered(f, e) && e in {ContinueClicked, ShareClicked, ExportClicked} ==> SaveButtonOf(f) == NoSaveButton
  {
    match e
    case SaveClicked => SaveButtonOf(f) == SaveEnabled
    case TimerFired => f.pendingTimers > 0
    case BackClicked => true
    case ContinueClicked => f.currentStep == 2
    case ShareClicked => f.currentStep == 2
    case ExportClicked => f.currentStep == 2
  }

  /** `handleSave`: mark saving and schedule the timer. */
  function Saving(f: Flow): (r: Flow)
    ensures r.currentStep == f.currentStep && r.saved == f.saved
    ensures r.isSaving && r.pendingTimers == f.pendingTimers + 1
  {
    f.(isSaving := true, pendingTimers := f.pendingTimers + 1)
  }

  /** The timer callback: saving done, saved, step 2. */
  function TimerDone(f: Flow): (r: Flow)
    requires f.pendingTimers > 0
    ensures r.currentStep == StepCount && r.saved && !r.isSaving
    ensures r.pendingTimers == f.pendingTimers - 1
    ensures SaveButtonOf(r) == NoSaveButton
  {
    Flow(2, false, true, f.pendingTimers - 1)
  }

  /** The sub-flow state after an event; Back, Continue, Share and Export leave it unchanged. */
  function Step(f: Flow, e: Event): (r: Flow)
    requires e == TimerFired ==> f.pendingTimers > 0
    ensures e !in {SaveClicked, TimerFired} ==> r == f
  {
    match e
    case SaveClicked => Saving(f)
    case TimerFired => TimerDone(f)
    case _ => f
  }

  /** The callback an event invokes on the host, if any. */
  function ExitOf(e: Event): (r: Option<Exit>)
    ensures r == Some(ExitBack) <==> e == BackClicked
    ensures r == Some(ExitComplete) <==> e == ContinueClicked
  {
    match e
    case BackClicked => Some(ExitBack)
    case ContinueClicked => Some(ExitComplete)
    case _ => None
  }

  /** The states the sub-flow can be in: unsaved on step 1 or saved on step 2; a timer is
      pending exactly while saving, so at most one is ever pending. */
  ghost predicate Inv(f: Flow)
  {
    && ((f.currentStep == 1 && !f.saved) || (f.currentStep == 2 && f.saved))
    && f.pendingTimers <= 1
    && (f.pendingTimers == 1 <==> f.isSaving)
    && (f.isSaving ==> f.currentStep == 1)
  }

  /** Every event in the trace can happen at the point where it occurs. */
  ghost predicate ValidTrace(f: Flow, es: seq<Event>)
    decreases |es|
  {
    es == [] || (Offered(f, es[0]) && ValidTrace(Step(f, es[0]), es[1..]))
  }

  ghost function Run(f: Flow, es: seq<Event>): Flow
    requires ValidTrace(f, es)
    decreases |es|
  {
    if es == [] then f else Run(Step(f, es[0]), es[1..])
  }

  /** One offered event keeps the invariant. */
  lemma StepKeepsInv(f: Flow, e: Event)
    requires Inv(f) && Offered(f, e)
    ensures Inv(Step(f, e))
  {
  }

  /** Every state reached from the initial one satisfies the invariant. */
  lemma {:induction false} RunKeepsInv(f: Flow, es: seq<Event>)
    requires Inv(f) && ValidTrace(f, es)
    ensures Inv(Run(f, es))
    decreases |es|
  {
    if es != [] {
      StepKeepsInv(f, es[0]);
      RunKeepsInv(Step(f, es[0]), es[1..]);
    }
  }

  /** Along any trace from the start, at most one save timer is pending, and Continue is
      offered only once the detection is saved. */
  lemma ReachableFlows(es: seq<Event>)
    requires ValidTrace(Initial(), es)
    ensures Run(Initial(), es).pendingTimers <= 1
    ensures Offered(Run(Initial(), es), ContinueClicked) ==> Run(Initial(), es).saved
  {
    RunKeepsInv(Initial(), es);
  }

  /** The two ways out of the sub-flow: Back is always on screen, Continue exactly once the
      detection is saved, and neither changes the sub-flow's own state. */
  lemma ExitsOffered(f: Flow, e: Event)
    requires Inv(f) && ExitOf(e).Some?
    ensures e == BackClicked ==> Offered(f, e)
    ensures e == ContinueClicked ==> (Offered(f, e) <==> f.saved)
    ensures Step(f, e) == f
  {
  }

  /** Save, then the timer: the flow ends saved, on step 2, with no timer pending. */
  lemma SaveThenTimer()
    ensures Offered(Initial(), SaveClicked)
    ensures Offered(Step(Initial(), SaveClicked), TimerFired)
    ensures Step(Step(Initial(), SaveClicked), TimerFired) == Flow(2, false, true, 0)
    ensures !Offered(Step(Initial(), SaveClicked), SaveClicked)
  {
  }

  /** `(currentStep / 2) * 100`: half-way on step 1, full on step 2, and growing with the step. */
  function ProgressValue(currentStep: int): (r: real)
    ensures currentStep == 1 ==> r == 50.0
    ensures currentStep == 2 ==> r == 100.0
  {
    (currentStep as real / 2.0) * 100.0
  }

  lemma ProgressMonotone(a: int, b: int)
    requires a <= b
    ensures ProgressValue(a) <= ProgressValue(b)
  {
  }

  /** The steps rendered: `currentStep === 1 && renderStep1()`, `currentStep === 2 && renderStep2()`. */
  function RenderedSteps(currentStep: int): (r: set<int>)
    ensures 1 <= currentStep <= StepCount ==> r == {currentStep}
    ensures !(1 <= currentStep <= StepCount) ==> r == {}
  {
    (if currentStep == 1 then {1} else {}) + (if currentStep == 2 then {2} else {})
  }

  /** The progress label `Step {currentStep} of 2`. */
  function StepLabel(currentStep: nat): (r: string)
    ensures |r| > 10 && r[..5] == "Step " && r[|r| - 5..] == " of 2"
    ensures forall k :: 5 <= k < |r| - 5 ==> IsDigit(r[k])
    ensures ParseDigits(r[5..|r| - 5]) == currentStep
  {
    ParseNatToString(currentStep);
    var r := "Step " + NatToString(currentStep) + " of 2";
    assert r[5..|r| - 5] == NatToString(currentStep);
    r
  }

  /** A string of digits followed by text that starts with a non-digit is split uniquely. */
  lemma DigitPrefixUnique(a: string, x: string, b: string, y: string)
    requires forall k :: 0 <= k < |a| ==> IsDigit(a[k])
    requires forall k :: 0 <= k < |b| ==> IsDigit(b[k])
    requires |x| > 0 && |y| > 0 && !IsDigit(x[0]) && !IsDigit(y[0])
    requires a + x == b + y
    ensures a == b && x == y
  {
    assert a == (a + x)[..|a|];
    assert b == (b + y)[..|b|];
  }

  /** The label names the step: different steps give different labels. */
  lemma StepLabelInjective(s1: nat, s2: nat)
    requires StepLabel(s1) == StepLabel(s2)
    ensures s1 == s2
  {
    var p := "Step ";
    var n1, n2 := NatToString(s1), NatToString(s2);
    assert StepLabel(s1) == p + (n1 + " of 2");
    assert StepLabel(s2) == p + (n2 + " of 2");
    assert n1 + " of 2" == StepLabel(s1)[|p|..];
    assert n2 + " of 2" == StepLabel(s2)[|p|..];
    DigitPrefixUnique(n1, " of 2", n2, " of 2");
    NatToStringInjective(s1, s2);
  }

  const ShareTitle := "Tick Detection Result"
  const AppSignature := ". Detected using TickSafe Victoria app."
  const ClipboardNotice := "Detection details copied to clipboard!"
  const ExportNotice := "PDF export functionality would be implemented here. The report would include the image, bounding box, confidence level, timestamp, and recommendations."

  /** The text handed to the platform share sheet. */
  function NativeShareText(confidence: nat, date: string): (r: string)
    ensures |r| > |date| + 19 && r[..19] == "Tick detected with " && r[|r| - |date|..] == date
    ensures var m := |NatToString(confidence)|;
      19 + m <= |r| && (forall k :: 19 <= k < 19 + m ==> IsDigit(r[k]))
      && ParseDigits(r[19..19 + m]) == confidence && r[19 + m..] == "% confidence on " + date
  {
    ParseNatToString(confidence);
    var n := NatToString(confidence);
    SplitAround("Tick detected with ", n, "% confidence on ", date);
    "Tick detected with " + (n + ("% confidence on " + date))
  }

  /** The text copied to the clipboard when there is no share sheet. */
  function FallbackShareText(confidence: nat, date: string): (r: string)
    ensures |r| > |AppSignature| + 19 && r[..19] == "Tick detected with "
    ensures r[|r| - |AppSignature|..] == AppSignature
    ensures var m := |NatToString(confidence)|;
      19 + m <= |r| && (forall k :: 19 <= k < 19 + m ==> IsDigit(r[k]))
      && ParseDigits(r[19..19 + m]) == confidence
      && r[19 + m..] == "% confidence on " + date + AppSignature
  {
    ParseNatToString(confidence);
    var n := NatToString(confidence);
    var mid := "% confidence on " + date;
    SplitAround("Tick detected with ", n, mid, AppSignature);
    "Tick detected with " + (n + (mid + AppSignature))
  }

  /** The parts of a text built as prefix, number, middle and suffix, recovered by slicing. */
  lemma SplitAround(p: string, n: string, mid: string, suffix: string)
    ensures var r := p + (n + (mid + suffix));
      r[..|p|] == p && r[|p|..|p| + |n|] == n && r[|p| + |n|..] == mid + suffix
      && r[|r| - |suffix|..] == suffix
  {
    var r := p + (n + (mid + suffix));
    assert r[|p|..] == n + (mid + suffix);
    assert r[|p| + |n|..] == mid + suffix;
  }

  /** The clipboard text is the share-sheet text followed by the app signature. */
  lemma FallbackExtendsNative(confidence: nat, date: string)
    ensures FallbackShareText(confidence, date) == NativeShareText(confidence, date) + AppSignature
  {
  }

  /** The clipboard text states the confidence: on one date, different confidences give
      different texts. */
  lemma FallbackShareTextInjective(c1: nat, c2: nat, date: string)
    requires FallbackShareText(c1, date) == FallbackShareText(c2, date)
    ensures c1 == c2
  {
    var rest := "% confidence on " + date + AppSignature;
    FallbackAsParts(c1, date);
    FallbackAsParts(c2, date);
    DigitsBetweenUnique("Tick detected with ", NatToString(c1), NatToString(c2), rest);
    NatToStringInjective(c1, c2);
  }

  /** The clipboard text as prefix, number and the rest, grouped to the right. */
  lemma FallbackAsParts(c: nat, date: string)
    ensures FallbackShareText(c, date) == "Tick detected with " + (NatToString(c) + ("% confidence on " + date + AppSignature))
  {
  }

  /** Digits between a fixed prefix and a fixed rest that starts with a non-digit are
      determined by the whole text. */
  lemma DigitsBetweenUnique(p: string, n1: string, n2: string, rest: string)
    requires forall k :: 0 <= k < |n1| ==> IsDigit(n1[k])
    requires forall k :: 0 <= k < |n2| ==> IsDigit(n2[k])
    requires |rest| > 0 && !IsDigit(rest[0])
    requires p + (n1 + rest) == p + (n2 + rest)
    ensures n1 == n2
  {
    assert n1 + rest == (p + (n1 + rest))[|p|..];
    assert n2 + rest == (p + (n2 + rest))[|p|..];
    DigitPrefixUnique(n1, rest, n2, rest);
  }

  /** What `handleShare` and `handleExportPDF` do, as values. */
  datatype Action =
    | NativeShare(title: string, text: string, url: string)
    | CopyToClipboard(text: string, notice: string)
    | Notice(message: string)

  /** `handleShare`: the share sheet if the platform has one, else clipboard plus notice. */
  function ShareAction(canShare: bool, confidence: nat, date: string, url: string): (r: Action)
    ensures canShare ==> r.NativeShare? && r.title == ShareTitle && r.url == url
    ensures !canShare ==> r.CopyToClipboard? && r.notice == ClipboardNotice
    ensures r.NativeShare? || r.CopyToClipboard?
    ensures canShare ==> r.text == NativeShareText(confidence, date)
    ensures !canShare ==> r.text == NativeShareText(confidence, date) + AppSignature
  {
    FallbackExtendsNative(confidence, date);
    if canShare then NativeShare(ShareTitle, NativeShareText(confidence, date), url)
    else CopyToClipboard(FallbackShareText(confidence, date), ClipboardNotice)
  }

  /** The component's state, with the scheduled timers as a ghost count. */
  class SaveShareFlow {
    const confidence: nat
    var currentStep: int
    var isSaving: bool
    var saved: bool
    ghost var pendingTimers: nat

    ghost function State(): Flow
      reads this
    {
      Flow(currentStep, isSaving, saved, pendingTimers)
    }

    constructor (confidence: nat)
      ensures this.confidence == confidence && State() == Initial()
    {
      this.confidence := confidence;
      currentStep, isSaving, saved := 1, false, false;
      pendingTimers := 0;
    }

    method HandleSave()
      modifies this
      ensures State() == Saving(old(State()))
    {
      isSaving := true;
      pendingTimers := pendingTimers + 1;
    }

    /** The timer callback; it runs only after `HandleSave` scheduled it. */
    method SaveTimerFired()
      requires pendingTimers > 0
      modifies this
      ensures State() == TimerDone(old(State()))
    {
      isSaving := false;
      saved := true;
      currentStep := 2;
      pendingTimers := pendingTimers - 1;
    }

    method HandleShare(canShare: bool, date: string, url: string) returns (a: Action)
      ensures a == ShareAction(canShare, confidence, date, url)
    {
      a := ShareAction(canShare, confidence, date, url);
    }

    method HandleExportPdf() returns (a: Action)
      ensures a == Notice(ExportNotice)
    {
      a := Notice(ExportNotice);
    }

    function Progress(): (r: real)
      reads this
      ensures r == ProgressValue(currentStep)
    {
      ProgressValue(currentStep)
    }
  }
}
