/** The controller state of App.tsx as a transition system. Each handler runs in two parts: the
    synchronous part up to the awaited service call (`Begin`), and the part after the call
    returns (`Finish`). A user action whose call comes back with a given reply is `Step`. The
    visible/disabled rules of the buttons are `Enabled`. */
module App {
  import opened Base
  import opened Text
  import opened Types

  /** The seven pieces of React state. */
  datatype AppState = AppState(
    status: Status,
    graphData: GraphData,
    sourceText: string,
    errorMessage: Option<string>,
    verificationResult: Option<VerificationResult>,
    showVerification: bool,
    isConfirmingReverify: bool)

  /** The state on first render. */
  const Init := AppState(Idle, EmptyGraph, "", None, None, false, false)

  /** A service call with its arguments. */
  datatype Call =
    | GenerateCall(text: string, focus: string)
    | VerifyCall(sourceText: string, graph: GraphData)
    | OptimizeCall(sourceText: string, current: GraphData, suggestions: string)

  /** What a service call comes back with; `Err` carries the error's message. */
  datatype Reply = GraphReply(graph: Result<GraphData, string>) | ReportReply(report: Result<VerificationResult, string>)

  /** The user's actions: submitting the input form, the header's verify button, the three
      buttons of the confirm dialog, the panel's close and optimize buttons, and the error
      overlay's close button. */
  datatype Action =
    | Submit(text: string, focus: string)
    | ClickVerify
    | ConfirmReverify
    | ShowExistingReport
    | CancelReverify
    | ClosePanel
    | ClickOptimize
    | DismissError

  /** JavaScript `s || fallback` on strings: an empty string is falsy, so the fallback takes
      its place. */
  function OrElse(s: string, fallback: string): (r: string)
    ensures fallback != [] ==> r != []
    ensures s != [] ==> r == s
    ensures s == [] ==> r == fallback
  {
    if s == [] then fallback else s
  }

  /** The focus the form sends when its focus field is empty. */
  const DefaultFocus := "通用"

  /** The message shown when a failed generation's error has an empty message. */
  const GenerateFailed := "生成图谱失败。"

  /** The input form is busy while a graph is being generated or optimised. */
  predicate IsProcessing(st: AppState) {
    st.status == Processing || st.status == Optimizing
  }

  /** Whether the action's control is shown and not disabled. The form also needs non-blank
      text; the dialog's buttons exist only while it is open; the panel, with its close and
      optimize buttons, only while it is shown and holds a report; the overlay's button only in
      the error status. Overlays that cover a control without disabling it (the error overlay,
      the confirm dialog) are not considered. */
  predicate Enabled(st: AppState, a: Action) {
    match a
    case Submit(text, _) => !IsProcessing(st) && Trim(text, IsJsWhitespace) != []
    case ClickVerify =>
      |st.graphData.nodes| > 0 && st.status != Verifying && st.status != Optimizing
    case ConfirmReverify => st.isConfirmingReverify
    case ShowExistingReport => st.isConfirmingReverify
    case CancelReverify => st.isConfirmingReverify
    case ClosePanel => st.showVerification && st.verificationResult.Some?
    case ClickOptimize => st.showVerification && st.verificationResult.Some? && st.status != Optimizing
    case DismissError => st.status == Error
  }

  /** A state and the service call the handler is awaiting, if any. */
  datatype Begun = Begun(state: AppState, call: Option<Call>)

  /** `executeVerify` up to its call: nothing without source text or nodes. */
  function BeginVerify(st: AppState): (b: Begun)
    ensures st.sourceText == [] || |st.graphData.nodes| == 0 <==> b == Begun(st, None)
    ensures b.call.Some? ==> (b.call.value == VerifyCall(st.sourceText, st.graphData)
      && b.state.status == Verifying && !b.state.isConfirmingReverify && !b.state.showVerification)
  {
    if st.sourceText == [] || |st.graphData.nodes| == 0 then Begun(st, None)
    else
      Begun(st.(status := Verifying, isConfirmingReverify := false, showVerification := false),
            Some(VerifyCall(st.sourceText, st.graphData)))
  }

  /** The synchronous part of each handler. */
  function Begin(st: AppState, a: Action): (b: Begun)
    ensures b.call.Some? ==> b.state.status in {Processing, Verifying, Optimizing}
    ensures b.call.None? ==> b.state.status == (if a == DismissError then Idle else st.status)
  {
    match a
    case Submit(text, focus) =>
      Begun(st.(sourceText := text, status := Processing, errorMessage := None,
                verificationResult := None, showVerification := false),
            Some(GenerateCall(text, OrElse(focus, DefaultFocus))))
    case ClickVerify =>
      if st.verificationResult.Some? then Begun(st.(isConfirmingReverify := true), None)
      else BeginVerify(st)
    case ConfirmReverify => BeginVerify(st)
    case ShowExistingReport => Begun(st.(showVerification := true, isConfirmingReverify := false), None)
    case CancelReverify => Begun(st.(isConfirmingReverify := false), None)
    case ClosePanel => Begun(st.(showVerification := false), None)
    case ClickOptimize =>
      if st.sourceText == [] || st.verificationResult.None? || st.status == Optimizing then Begun(st, None)
      else
        Begun(st.(status := Optimizing),
              Some(OptimizeCall(st.sourceText, st.graphData, st.verificationResult.value.suggestions)))
    case DismissError => Begun(st.(status := Idle, errorMessage := None), None)
  }

  /** The reply has the shape the call produces. */
  predicate Answers(c: Call, r: Reply) {
    if c.VerifyCall? then r.ReportReply? else r.GraphReply?
  }

  /** The part of each handler after its call returns, applied to the state at that time. */
  function Finish(st: AppState, c: Call, r: Reply): (next: AppState)
    requires Answers(c, r)
    ensures next.status in {Success, Error}
    ensures next.status == Error <==> (r.GraphReply? && r.graph.Err?) || (r.ReportReply? && r.report.Err?)
    ensures next.status == Error ==> (next.errorMessage.Some? && next.graphData == st.graphData
      && next.verificationResult == st.verificationResult)
  {
    match c
    case GenerateCall(_, _) =>
      (match r.graph
       case Ok(g) => st.(graphData := g, status := Success)
       case Err(m) => st.(status := Error, errorMessage := Some(OrElse(m, GenerateFailed))))
    case VerifyCall(_, _) =>
      (match r.report
       case Ok(v) => st.(verificationResult := Some(v), showVerification := true, status := Success)
       case Err(m) => st.(status := Error, errorMessage := Some("验证失败: " + m)))
    case OptimizeCall(_, _, _) =>
      (match r.graph
       case Ok(g) => st.(graphData := g, verificationResult := None, showVerification := false, status := Success)
       case Err(m) => st.(status := Error, errorMessage := Some("优化失败: " + m)))
  }

  /** The reply fits whatever call the action may issue. */
  predicate Fits(a: Action, r: Reply) {
    match a
    case Submit(_, _) => r.GraphReply?
    case ClickOptimize => r.GraphReply?
    case ClickVerify => r.ReportReply?
    case ConfirmReverify => r.ReportReply?
    case _ => true
  }

  /** The action run to completion, its call (if any) answered by `r`. */
  function Step(st: AppState, a: Action, r: Reply): (next: AppState)
    requires Fits(a, r)
    ensures next.status in {Idle, Success, Error} || next.status == st.status
    ensures Begin(st, a).call.Some? ==> next.status in {Success, Error}
  {
    var b := Begin(st, a);
    if b.call.Some? then
      assert Answers(b.call.value, r);
      Finish(b.state, b.call.value, r)
    else b.state
  }

  // ---------------------------------------------------------------------------------------
  // Properties of the handlers.

  /** Generate records the text and clears the error and the report before the call; success
      installs the graph, failure keeps the old graph and shows the message. */
  lemma GenerateOutcome(st: AppState, text: string, focus: string, r: Result<GraphData, string>)
    ensures Begin(st, Submit(text, focus)).call == Some(GenerateCall(text, OrElse(focus, DefaultFocus)))
    ensures var next := Step(st, Submit(text, focus), GraphReply(r));
      && next.sourceText == text && next.verificationResult.None? && !next.showVerification
      && next.isConfirmingReverify == st.isConfirmingReverify
      && (r.Ok? ==> next.graphData == r.value && next.status == Success && next.errorMessage.None?)
      && (r.Err? ==> next.graphData == st.graphData && next.status == Error
                     && next.errorMessage == Some(OrElse(r.error, GenerateFailed)))
  {
  }

  /** With a report already present, the verify button only opens the dialog. */
  lemma VerifyWithReportAsks(st: AppState)
    requires st.verificationResult.Some?
    ensures Begin(st, ClickVerify) == Begun(st.(isConfirmingReverify := true), None)
  {
  }

  /** Verifying without source text or without nodes does nothing at all. */
  lemma VerifyGuard(st: AppState, r: Result<VerificationResult, string>)
    requires st.sourceText == [] || |st.graphData.nodes| == 0
    ensures Step(st, ConfirmReverify, ReportReply(r)) == st
    ensures st.verificationResult.None? ==> Step(st, ClickVerify, ReportReply(r)) == st
  {
  }

  /** A verification that runs stores the report and opens the panel on success; on failure it
      ends in the error status with the message prefixed, and the graph and the previous report
      stay. Either way the dialog is closed. */
  lemma VerifyOutcome(st: AppState, a: Action, r: Result<VerificationResult, string>)
    requires a == ConfirmReverify || (a == ClickVerify && st.verificationResult.None?)
    requires st.sourceText != [] && |st.graphData.nodes| > 0
    ensures Begin(st, a).call == Some(VerifyCall(st.sourceText, st.graphData))
    ensures var next := Step(st, a, ReportReply(r));
      && next.graphData == st.graphData && next.sourceText == st.sourceText && !next.isConfirmingReverify
      && (r.Ok? ==> next.verificationResult == Some(r.value) && next.showVerification
                    && next.status == Success && next.errorMessage == st.errorMessage)
      && (r.Err? ==> next.verificationResult == st.verificationResult && !next.showVerification
                     && next.status == Error && next.errorMessage == Some("验证失败: " + r.error))
  {
  }

  /** Optimising does nothing without source text, without a report, or while optimising. */
  lemma OptimizeGuard(st: AppState, r: Result<GraphData, string>)
    requires st.sourceText == [] || st.verificationResult.None? || st.status == Optimizing
    ensures Step(st, ClickOptimize, GraphReply(r)) == st
  {
  }

  /** An optimisation that runs sends the report's suggestions; success installs the new graph
      and drops the report and the panel, failure keeps graph and report. */
  lemma OptimizeOutcome(st: AppState, r: Result<GraphData, string>)
    requires st.sourceText != [] && st.verificationResult.Some? && st.status != Optimizing
    ensures Begin(st, ClickOptimize).call
      == Some(OptimizeCall(st.sourceText, st.graphData, st.verificationResult.value.suggestions))
    ensures var next := Step(st, ClickOptimize, GraphReply(r));
      && next.sourceText == st.sourceText && next.isConfirmingReverify == st.isConfirmingReverify
      && (r.Ok? ==> next.graphData == r.value && next.verificationResult.None? && !next.showVerification
                    && next.status == Success && next.errorMessage == st.errorMessage)
      && (r.Err? ==> next.graphData == st.graphData && next.verificationResult == st.verificationResult
                     && next.showVerification == st.showVerification
                     && next.status == Error && next.errorMessage == Some("优化失败: " + r.error))
  {
  }

  /** The actions without a call change only what they name. */
  lemma LocalActions(st: AppState, r: Reply)
    ensures Step(st, ShowExistingReport, r) == st.(showVerification := true, isConfirmingReverify := false)
    ensures Step(st, CancelReverify, r) == st.(isConfirmingReverify := false)
    ensures Step(st, ClosePanel, r) == st.(showVerification := false)
    ensures Step(st, DismissError, r) == st.(status := Idle, errorMessage := None)
  {
  }

  // ---------------------------------------------------------------------------------------
  // Invariants.

  /** The states a run of whole actions can reach: a settled status, a message exactly in the
      error status's company (never when idle, always when failed), and a report only for a
      non-empty text and graph. */
  ghost predicate Inv(st: AppState) {
    && st.status in {Idle, Success, Error}
    && (st.status == Error ==> st.errorMessage.Some?)
    && (st.status == Idle ==> st.errorMessage.None?)
    && (st.verificationResult.Some? ==> st.sourceText != [] && |st.graphData.nodes| > 0)
  }

  lemma InitInv()
    ensures Inv(Init)
  {
  }

  /** Every whole action keeps the invariant. */
  lemma StepInv(st: AppState, a: Action, r: Reply)
    requires Inv(st) && Fits(a, r)
    ensures Inv(Step(st, a, r))
  {
    var b := Begin(st, a);
    if b.call.Some? {
      assert b.state.verificationResult.Some? ==> b.state.sourceText != [] && |b.state.graphData.nodes| > 0;
    }
  }

  /** Right after a handler issues its call, its own control is disabled or hidden. Other
      handlers can make it available again before the call returns
      (`GenerateTwiceInFlight`, `VerifyTwiceInFlight`). */
  lemma InFlightBlocksRepeat(st: AppState, a: Action)
    requires Begin(st, a).call.Some?
    ensures !Enabled(Begin(st, a).state, a)
  {
  }

  /** While a graph is being generated the verify button stays enabled when the old graph has
      nodes, and pressing it sends the new text with the old graph. */
  lemma VerifyDuringGenerate(st: AppState, text: string, focus: string)
    requires |st.graphData.nodes| > 0 && st.verificationResult.None? && !st.isConfirmingReverify && text != []
    ensures var busy := Begin(st, Submit(text, focus)).state;
      && busy.status == Processing
      && Enabled(busy, ClickVerify)
      && Begin(busy, ClickVerify).call == Some(VerifyCall(text, st.graphData))
  {
  }

  /** Pressing verify over a report opens the confirm dialog, and the form still accepts a
      submission. A generation submitted then clears the report but leaves the dialog open: the
      dialog offers a report that no longer exists, and its "show" button opens a panel that is
      not drawn. */
  lemma StaleConfirmDialog(st: AppState, text: string, focus: string, v: VerificationResult, g: GraphData, r: Reply)
    requires st.verificationResult.Some? && !IsProcessing(st) && Trim(text, IsJsWhitespace) != []
    ensures var s1 := Step(st, ClickVerify, ReportReply(Ok(v)));
      var s2 := Step(s1, Submit(text, focus), GraphReply(Ok(g)));
      var s3 := Step(s2, ShowExistingReport, r);
      && s1.isConfirmingReverify && Enabled(s1, Submit(text, focus))
      && s2.isConfirmingReverify && s2.verificationResult.None? && Enabled(s2, ShowExistingReport)
      && s3.showVerification && !Enabled(s3, ClosePanel)
  {
    VerifyWithReportAsks(st);
  }

  /** A generation can be issued while another is outstanding: verifying during the first
      generation leaves the processing status, which re-enables the form. */
  lemma GenerateTwiceInFlight(st: AppState, text: string, focus: string, text2: string, focus2: string)
    requires |st.graphData.nodes| > 0 && st.verificationResult.None? && !IsProcessing(st) && !st.isConfirmingReverify
    requires Trim(text, IsJsWhitespace) != [] && Trim(text2, IsJsWhitespace) != []
    ensures var s1 := Begin(st, Submit(text, focus));
      var s2 := Begin(s1.state, ClickVerify);
      var s3 := Begin(s2.state, Submit(text2, focus2));
      && s1.call == Some(GenerateCall(text, OrElse(focus, DefaultFocus)))
      && Enabled(s1.state, ClickVerify) && s2.call.Some? && s2.call.value.VerifyCall?
      && Enabled(s2.state, Submit(text2, focus2))
      && s3.call == Some(GenerateCall(text2, OrElse(focus2, DefaultFocus)))
  {
    assert text != [] by { assert !AllWhitespace(text, IsJsWhitespace); }
    var s1 := st.(sourceText := text, status := Processing, errorMessage := None,
                  verificationResult := None, showVerification := false);
    assert Begin(st, Submit(text, focus)) == Begun(s1, Some(GenerateCall(text, OrElse(focus, DefaultFocus))));
    var s2 := s1.(status := Verifying, isConfirmingReverify := false, showVerification := false);
    assert Begin(s1, ClickVerify) == Begun(s2, Some(VerifyCall(text, st.graphData)));
    assert Enabled(s2, Submit(text2, focus2));
  }

  /** A verification can be issued while another is outstanding: a generation submitted during
      the first clears the report, so the verify button issues a call again. */
  lemma VerifyTwiceInFlight(st: AppState, text: string, focus: string)
    requires |st.graphData.nodes| > 0 && st.verificationResult.None? && st.sourceText != [] && !st.isConfirmingReverify
    requires Trim(text, IsJsWhitespace) != []
    ensures var s1 := Begin(st, ClickVerify);
      var s2 := Begin(s1.state, Submit(text, focus));
      var s3 := Begin(s2.state, ClickVerify);
      && s1.call == Some(VerifyCall(st.sourceText, st.graphData))
      && Enabled(s1.state, Submit(text, focus)) && s2.call.Some? && s2.call.value.GenerateCall?
      && Enabled(s2.state, ClickVerify)
      && s3.call == Some(VerifyCall(text, st.graphData))
  {
  }
}
