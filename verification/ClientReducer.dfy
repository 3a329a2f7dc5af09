/** The client's fail-closed reducer: how keys and engine events change what is displayed. */
module ClientReducer {
  import opened Wrappers
  import opened ScanProtocol

  datatype Screen = ScanScreen | PlanScreen

  datatype PendingControl = PendingControl(requestId: nat, kind: ControlKind)

  datatype RequestPhase =
    | AwaitingStateConfirmation
    | AwaitingPlanReadyState
    | AwaitingPlanProjection
    | AwaitingInvalidation
    | AwaitingResumeState
    | AwaitingResumeProgress
    | AwaitingCancelledState
    | AwaitingCancelledTerminal
    | Steady

  datatype ActiveRequest = ActiveRequest(requestId: nat, kind: ControlKind, phase: RequestPhase)

  /** The reasons for which the reducer declares the protocol broken, one per failing branch. */
  datatype ProtocolError =
    | RequestIdsExhausted
    | EventSequenceExhausted
    | CoalescedSequenceOverflow
    | GapOnNonProgress
    | SequenceMismatch
    | AckUnknownRequest
    | AckDifferentControl
    | AckUnknownState
    | AckUnspecifiedState
    | AckImpossibleTransition
    | RejectionOfUnknownRequest
    | RejectionOfDifferentControl
    | RejectionCodeUnknown
    | RejectionCodeUnspecified
    | RejectionStateUnknown
    | RejectionStateUnspecified
    | RejectionStateDiffers
    | ZeroOrigin
    | NoAcknowledgedOrigin
    | OriginMismatch
    | ChangedStateUnknown
    | ChangedStateUnspecified
    | ChangeInvalidForPhase
    | EventInvalidForPhase
    | UnknownPlanInvalidated
    | InvalidationMismatch
    | EmptyEvent

  datatype Failure =
    | Protocol(error: ProtocolError)
    | EngineFault(code: Wording, detail: Wording)
    | DriverFault(cause: Wording)

  datatype TerminalState =
    | TerminalCancelled(reason: Wording)
    | TerminalFinished(summary: Wording)
    | TerminalFailed(failure: Failure)

  /** The fields of the displayed state, as a value. */
  datatype App = App(
    screen: Screen,
    scanState: ScanState,
    progress: Option<Progress>,
    plan: Option<Plan>,
    pending: seq<PendingControl>,
    active: Option<ActiveRequest>,
    helpVisible: bool,
    cancelRequested: bool,
    terminal: Option<TerminalState>,
    driverExited: bool,
    lastEventSequence: nat,
    nextRequestId: nat)

  const DEFAULT := App(ScanScreen, Idle, None, None, [PendingControl(1, StartScan)],
                       None, false, false, None, false, 0, 2)

  datatype Key = Question | Slash | Quit | Space | PlanKey | ResumeKey | OtherKey

  datatype KeyEventKind = Press | Repeat | Release

  /** An engine event, with the number of progress events dropped in its favour. */
  datatype Delivery = Delivery(event: EngineEvent, skipped: nat)

  function Exact(event: EngineEvent): Delivery {
    Delivery(event, 0)
  }

  datatype ExitResult = ExitedOk | ExitedErr(detail: Wording)

  datatype UiEvent =
    | KeyEvent(key: Key, kind: KeyEventKind)
    | Resize
    | Engine(delivery: Delivery)
    | DriverExited(result: ExitResult)

  datatype ControlCommand = ControlCommand(requestId: nat, kind: ControlKind)

  datatype Effect = SendControl(command: ControlCommand) | StopDriver

  // ------------------------------------------------------------ pending controls

  predicate HasPending(pending: seq<PendingControl>, kind: ControlKind) {
    exists i :: 0 <= i < |pending| && pending[i].kind == kind
  }

  /** The position of the first pending control with this identifier, or the length. */
  function PendingIndex(pending: seq<PendingControl>, requestId: nat): (i: nat)
    ensures i <= |pending|
    ensures i < |pending| ==> pending[i].requestId == requestId
    ensures forall j :: 0 <= j < i ==> pending[j].requestId != requestId
  {
    if pending == [] || pending[0].requestId == requestId then 0
    else 1 + PendingIndex(pending[1..], requestId)
  }

  function TakePending(pending: seq<PendingControl>, requestId: nat): seq<PendingControl> {
    var i := PendingIndex(pending, requestId);
    if i < |pending| then pending[..i] + pending[i + 1..] else pending
  }

  // ------------------------------------------------------------------- reduction

  function Fail(app: App, error: ProtocolError): (App, seq<Effect>) {
    (app.(scanState := Failed, terminal := Some(TerminalFailed(Protocol(error)))), [StopDriver])
  }

  function Reduce(app: App, event: UiEvent): (App, seq<Effect>) {
    match event
    case KeyEvent(key, kind) => ReduceKey(app, key, kind)
    case Resize => (app, [])
    case Engine(delivery) =>
      if app.terminal.None? then ReduceEngineEvent(app, delivery) else (app, [])
    case DriverExited(result) => (ReduceDriverExit(app, result), [])
  }

  function ReduceDriverExit(app: App, result: ExitResult): App {
    var exited := app.(driverExited := true);
    if result.ExitedErr? then
      exited.(scanState := Failed, terminal := Some(TerminalFailed(DriverFault(result.detail))))
    else if app.terminal.None? then
      exited.(scanState := Failed, terminal := Some(TerminalFailed(DriverFault(OtherWording("early exit")))))
    else exited
  }

  /** The control a key asks for in this state, if any. */
  function Requested(app: App, key: Key): Option<ControlKind> {
    match key
    case Quit => Some(CancelScan)
    case Space =>
      if app.screen == ScanScreen && app.scanState == Running then Some(PauseScan)
      else if app.screen == ScanScreen && app.scanState == Paused then Some(ResumeScan)
      else None
    case PlanKey =>
      if app.screen == ScanScreen && (app.scanState == Running || app.scanState == Paused)
      then Some(PauseAndBuildProvisionalPlan) else None
    case ResumeKey =>
      if app.screen == PlanScreen || app.scanState == Paused then Some(ResumeScan) else None
    case _ => None
  }

  function ReduceKey(app: App, key: Key, kind: KeyEventKind): (App, seq<Effect>) {
    if kind != Press || app.terminal.Some? then (app, [])
    else if key == Question || (key == Slash && app.screen == ScanScreen) then
      (app.(helpVisible := !app.helpVisible), [])
    else
      var wanted := Requested(app, key);
      if wanted.Some? then RequestOnce(app, wanted.value) else (app, [])
  }

  predicate Suppressed(app: App, kind: ControlKind) {
    HasPending(app.pending, kind) || (kind == CancelScan && app.cancelRequested)
  }

  /** The state with one more control waiting for its acknowledgement. */
  function Asked(app: App, kind: ControlKind): App {
    app.(nextRequestId := app.nextRequestId + 1,
         pending := app.pending + [PendingControl(app.nextRequestId, kind)],
         cancelRequested := app.cancelRequested || kind == CancelScan)
  }

  function RequestOnce(app: App, kind: ControlKind): (App, seq<Effect>) {
    if Suppressed(app, kind) then (app, [])
    else if app.nextRequestId >= U64_MAX then Fail(app, RequestIdsExhausted)
    else (Asked(app, kind), [SendControl(ControlCommand(app.nextRequestId, kind))])
  }

  /** The ways in which a delivery's number can be wrong. */
  function SequenceError(last: nat, d: Delivery): Option<ProtocolError> {
    if last + 1 > U64_MAX then Some(EventSequenceExhausted)
    else if last + 1 + d.skipped > U64_MAX then Some(CoalescedSequenceOverflow)
    else if d.skipped > 0 && !d.event.IsProgress() then Some(GapOnNonProgress)
    else if d.event.eventSequence != last + 1 + d.skipped then Some(SequenceMismatch)
    else None
  }

  function ReduceEngineEvent(app: App, d: Delivery): (App, seq<Effect>) {
    var error := SequenceError(app.lastEventSequence, d);
    if error.Some? then Fail(app, error.value)
    else ReduceBody(app.(lastEventSequence := d.event.eventSequence), d.event.requestId, d.event.body)
  }

  function ReduceBody(app: App, requestId: nat, body: Option<EventBody>): (App, seq<Effect>) {
    if body.None? then Fail(app, EmptyEvent)
    else
      var b := body.value;
      if b.ControlAccepted? then ReduceAccepted(app, requestId, b.acceptedControl, b.resultingState)
      else if b.ControlRejected? then ReduceRejected(app, requestId, b.rejectedControl, b.code, b.currentState)
      else ReduceFact(app, requestId, b)
  }

  /** An event that is not an acknowledgement must name the request that is under way. */
  function ReduceFact(app: App, requestId: nat, fact: EventBody): (App, seq<Effect>) {
    if requestId == 0 then Fail(app, ZeroOrigin)
    else if app.active.None? then Fail(app, NoAcknowledgedOrigin)
    else if app.active.value.requestId != requestId then Fail(app, OriginMismatch)
    else ReduceOriginEvent(app, app.active.value, fact)
  }

  predicate AcceptedTransitionIsValid(control: ControlKind, current: ScanState, resulting: ScanState) {
    match control
    case StartScan => current == Idle && resulting == Running
    case PauseScan => current == Running && resulting == Paused
    case ResumeScan => (current == Paused || current == ProvisionalPlanReady) && resulting == Running
    case PauseAndBuildProvisionalPlan =>
      (current == Running || current == Paused) && resulting == BuildingProvisionalPlan
    case CancelScan =>
      && (current == Running || current == Paused || current == BuildingProvisionalPlan
          || current == ProvisionalPlanReady)
      && resulting == Cancelling
    case KindUnspecified => false
  }

  function FirstPhase(kind: ControlKind, plan: Option<Plan>): RequestPhase {
    if kind == ResumeScan then (if plan.Some? then AwaitingInvalidation else AwaitingResumeState)
    else AwaitingStateConfirmation
  }

  /** What is wrong with the acknowledgement of a waiting control of this kind, if anything. */
  function AckError(kind: ControlKind, current: ScanState, control: int, resulting: int): (e: Option<ProtocolError>)
    ensures e.None? ==> DecodeState(resulting).Some?
  {
    var next := DecodeState(resulting);
    if kind.Code() != control then Some(AckDifferentControl)
    else if next.None? then Some(AckUnknownState)
    else if next.value == StateUnspecified then Some(AckUnspecifiedState)
    else if !AcceptedTransitionIsValid(kind, current, next.value) then Some(AckImpossibleTransition)
    else None
  }

  function ReduceAccepted(app: App, requestId: nat, control: int, resulting: int): (App, seq<Effect>) {
    var i := PendingIndex(app.pending, requestId);
    if i == |app.pending| then Fail(app, AckUnknownRequest)
    else
      var kind := app.pending[i].kind;
      var error := AckError(kind, app.scanState, control, resulting);
      if error.Some? then Fail(app, error.value)
      else (app.(pending := TakePending(app.pending, requestId),
                 active := Some(ActiveRequest(requestId, kind, FirstPhase(kind, app.plan))),
                 scanState := DecodeState(resulting).value), [])
  }

  function RejectionError(kind: ControlKind, shown: ScanState, control: int, code: int, current: int)
    : Option<ProtocolError>
  {
    if kind.Code() != control then Some(RejectionOfDifferentControl)
    else if DecodeRejectCode(code).None? then Some(RejectionCodeUnknown)
    else if DecodeRejectCode(code).value == RejectUnspecified then Some(RejectionCodeUnspecified)
    else if DecodeState(current).None? then Some(RejectionStateUnknown)
    else if DecodeState(current).value == StateUnspecified then Some(RejectionStateUnspecified)
    else if DecodeState(current).value != shown then Some(RejectionStateDiffers)
    else None
  }

  function ReduceRejected(app: App, requestId: nat, control: int, code: int, current: int): (App, seq<Effect>) {
    var i := PendingIndex(app.pending, requestId);
    if i == |app.pending| then Fail(app, RejectionOfUnknownRequest)
    else
      var kind := app.pending[i].kind;
      var error := RejectionError(kind, app.scanState, control, code, current);
      if error.Some? then Fail(app, error.value)
      else (app.(pending := TakePending(app.pending, requestId),
                 cancelRequested := app.cancelRequested && kind != CancelScan), [])
  }

  /** The phase that follows an announced state, for the changes the lifecycle allows. */
  function PhaseAfter(kind: ControlKind, phase: RequestPhase, from: ScanState, to: ScanState): Option<RequestPhase> {
    match (kind, phase, from, to)
    case (StartScan, AwaitingStateConfirmation, Running, Running) => Some(Steady)
    case (PauseScan, AwaitingStateConfirmation, Paused, Paused) => Some(Steady)
    case (PauseAndBuildProvisionalPlan, AwaitingStateConfirmation,
          BuildingProvisionalPlan, BuildingProvisionalPlan) => Some(AwaitingPlanReadyState)
    case (PauseAndBuildProvisionalPlan, AwaitingPlanReadyState,
          BuildingProvisionalPlan, ProvisionalPlanReady) => Some(AwaitingPlanProjection)
    case (ResumeScan, AwaitingResumeState, Running, Running) => Some(AwaitingResumeProgress)
    case (CancelScan, AwaitingStateConfirmation, Cancelling, Cancelling) => Some(AwaitingCancelledState)
    case (CancelScan, AwaitingCancelledState, Cancelling, Cancelled) => Some(AwaitingCancelledTerminal)
    case _ => None
  }

  predicate ProgressAllowed(state: ScanState, origin: ActiveRequest) {
    && state == Running
    && ((origin.kind == StartScan && origin.phase == Steady)
        || (origin.kind == ResumeScan && (origin.phase == AwaitingResumeProgress || origin.phase == Steady)))
  }

  /** What an event about the active request amounts to. */
  datatype Verdict =
    | Breaks(error: ProtocolError)
    | Moves(state: ScanState, phase: RequestPhase)
    | Reports(progress: Progress)
    | Projects(plan: Plan)
    | Invalidates
    | Ends(finalState: ScanState, terminal: TerminalState)

  /** The verdict depends on the displayed scan state, the plan held and the phase alone. */
  function Judge(shown: ScanState, plan: Option<Plan>, origin: ActiveRequest, fact: EventBody): Verdict {
    match fact
    case ScanStateChanged(code, _) =>
      var next := DecodeState(code);
      if next.None? then Breaks(ChangedStateUnknown)
      else if next.value == StateUnspecified then Breaks(ChangedStateUnspecified)
      else
        var phase := PhaseAfter(origin.kind, origin.phase, shown, next.value);
        if phase.None? then Breaks(ChangeInvalidForPhase) else Moves(next.value, phase.value)
    case ScanProgress(progress) =>
      if ProgressAllowed(shown, origin) then Reports(progress) else Breaks(EventInvalidForPhase)
    case PlanReady(ready) =>
      if origin.kind == PauseAndBuildProvisionalPlan && origin.phase == AwaitingPlanProjection
         && shown == ProvisionalPlanReady && plan.None? && ready.planId != ""
      then Projects(ready) else Breaks(EventInvalidForPhase)
    case PlanInvalidated(previous) =>
      if plan.None? then Breaks(UnknownPlanInvalidated)
      else if origin.kind == ResumeScan && origin.phase == AwaitingInvalidation && previous == plan.value.planId
      then Invalidates else Breaks(InvalidationMismatch)
    case ScanCancelled(reason) =>
      if origin.kind == CancelScan && origin.phase == AwaitingCancelledTerminal && shown == Cancelled
      then Ends(shown, TerminalCancelled(reason)) else Breaks(EventInvalidForPhase)
    case ScanFinished(summary) =>
      if (origin.kind == StartScan || origin.kind == ResumeScan) && origin.phase == Steady && shown == Running
      then Ends(Finished, TerminalFinished(summary)) else Breaks(EventInvalidForPhase)
    case EngineFailed(code, detail) => Ends(Failed, TerminalFailed(EngineFault(code, detail)))
    case ControlAccepted(_, _) => Breaks(EventInvalidForPhase)
    case ControlRejected(_, _, _, _) => Breaks(EventInvalidForPhase)
  }

  function InPhase(app: App, origin: ActiveRequest, phase: RequestPhase): App {
    app.(active := Some(ActiveRequest(origin.requestId, origin.kind, phase)))
  }

  function Apply(app: App, origin: ActiveRequest, verdict: Verdict): (App, seq<Effect>) {
    match verdict
    case Breaks(error) => Fail(app, error)
    case Moves(state, phase) => (InPhase(app, origin, phase).(scanState := state), [])
    case Reports(progress) => (InPhase(app, origin, Steady).(progress := Some(progress)), [])
    case Projects(plan) =>
      (InPhase(app, origin, Steady).(plan := Some(plan), screen := PlanScreen, helpVisible := false), [])
    case Invalidates =>
      (InPhase(app, origin, AwaitingResumeState).(plan := None, screen := ScanScreen, helpVisible := false), [])
    case Ends(state, terminal) => (app.(scanState := state, terminal := Some(terminal)), [])
  }

  function ReduceOriginEvent(app: App, origin: ActiveRequest, fact: EventBody): (App, seq<Effect>) {
    Apply(app, origin, Judge(app.scanState, app.plan, origin, fact))
  }

  // ------------------------------------------------------------------------ runs

  /** The state after a list of events. */
  function ReduceAll(app: App, events: seq<UiEvent>): App
    decreases |events|
  {
    if events == [] then app else ReduceAll(Reduce(app, events[0]).0, events[1..])
  }

  /** The effects a list of events causes, in order. */
  function EffectsOf(app: App, events: seq<UiEvent>): seq<Effect>
    decreases |events|
  {
    if events == [] then []
    else
      var (next, effects) := Reduce(app, events[0]);
      effects + EffectsOf(next, events[1..])
  }

  lemma {:induction false} ReduceAllConcat(app: App, a: seq<UiEvent>, b: seq<UiEvent>)
    ensures ReduceAll(app, a + b) == ReduceAll(ReduceAll(app, a), b)
    decreases |a|
  {
    if a == [] {
      assert a + b == b;
    } else {
      assert (a + b)[0] == a[0] && (a + b)[1..] == a[1..] + b;
      ReduceAllConcat(Reduce(app, a[0]).0, a[1..], b);
    }
  }

  predicate HasFailed(app: App) {
    app.terminal.Some? && app.terminal.value.TerminalFailed?
  }

  /** Failure is final: no later event leaves it. */
  lemma {:induction false} FailureIsFinal(app: App, events: seq<UiEvent>)
    requires HasFailed(app)
    ensures HasFailed(ReduceAll(app, events))
    decreases |events|
  {
    if events != [] {
      FailureIsFinal(Reduce(app, events[0]).0, events[1..]);
    }
  }
}
