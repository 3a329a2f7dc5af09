/** The messages of scan-control-v1 as the two ends see them.

    Enumeration fields travel as raw integers: the client decodes them itself and
    fails closed on an unknown value, so a hostile peer may put any integer there. */
module ScanProtocol {
  import opened Wrappers

  const U64_MAX: nat := 0xFFFF_FFFF_FFFF_FFFF

  datatype ScanState =
    | StateUnspecified
    | Idle
    | Running
    | Paused
    | BuildingProvisionalPlan
    | ProvisionalPlanReady
    | Cancelling
    | Cancelled
    | Finished
    | Failed
  {
    function Code(): int {
      match this
      case StateUnspecified => 0
      case Idle => 1
      case Running => 2
      case Paused => 3
      case BuildingProvisionalPlan => 4
      case ProvisionalPlanReady => 5
      case Cancelling => 6
      case Cancelled => 7
      case Finished => 8
      case Failed => 9
    }
  }

  function DecodeState(code: int): (r: Option<ScanState>)
    ensures r.Some? ==> r.value.Code() == code
    ensures r.None? <==> !(0 <= code <= 9)
  {
    match code
    case 0 => Some(StateUnspecified)
    case 1 => Some(Idle)
    case 2 => Some(Running)
    case 3 => Some(Paused)
    case 4 => Some(BuildingProvisionalPlan)
    case 5 => Some(ProvisionalPlanReady)
    case 6 => Some(Cancelling)
    case 7 => Some(Cancelled)
    case 8 => Some(Finished)
    case 9 => Some(Failed)
    case _ => None
  }

  datatype ControlKind =
    | KindUnspecified
    | StartScan
    | PauseScan
    | ResumeScan
    | PauseAndBuildProvisionalPlan
    | CancelScan
  {
    function Code(): int {
      match this
      case KindUnspecified => 0
      case StartScan => 1
      case PauseScan => 2
      case ResumeScan => 3
      case PauseAndBuildProvisionalPlan => 4
      case CancelScan => 5
    }
  }

  datatype RejectCode =
    | RejectUnspecified
    | InvalidState
    | DuplicateRequestId
    | MalformedRequest
  {
    function Code(): int {
      match this
      case RejectUnspecified => 0
      case InvalidState => 1
      case DuplicateRequestId => 2
      case MalformedRequest => 3
    }
  }

  function DecodeRejectCode(code: int): (r: Option<RejectCode>)
    ensures r.Some? ==> r.value.Code() == code
    ensures r.None? <==> !(0 <= code <= 3)
  {
    match code
    case 0 => Some(RejectUnspecified)
    case 1 => Some(InvalidState)
    case 2 => Some(DuplicateRequestId)
    case 3 => Some(MalformedRequest)
    case _ => None
  }

  /** The wording of a message. It is shown and never inspected, so each text the engine
      composes is one constructor here. */
  datatype Wording =
    | ScanStarted
    | PauseAcknowledged
    | ResumeAcknowledged
    | PlanRequested
    | PlanIsReady
    | CancelAcknowledged
    | ScanIsCancelled
    | CancelledByUser
    | ZeroRequestId
    | StaleRequestId
    | AlreadyStarted
    | ControlNotValidInState
    | ControlNotValidInRequest
    | EnvelopeSequenceDiffers
    | OtherWording(text: string)

  /** Facts the engine reports about the scan; the client only displays them. */
  datatype Progress = Progress(profile: string, counters: seq<nat>, currentRoot: string)

  datatype Plan = Plan(planId: string, actionCount: nat, immediateReclaimBytes: nat, conditionalReclaimBytes: nat)

  datatype EventBody =
    | ControlAccepted(acceptedControl: int, resultingState: int)
    | ControlRejected(rejectedControl: int, code: int, rejection: Wording, currentState: int)
    | ScanStateChanged(state: int, reason: Wording)
    | ScanProgress(progress: Progress)
    | PlanReady(plan: Plan)
    | PlanInvalidated(previousPlanId: string)
    | ScanCancelled(cancelReason: Wording)
    | ScanFinished(summary: Wording)
    | EngineFailed(failureCode: Wording, failureDetail: Wording)

  datatype EngineEvent = EngineEvent(eventSequence: nat, requestId: nat, body: Option<EventBody>)
  {
    predicate IsProgress() {
      body.Some? && body.value.ScanProgress?
    }

    /** The driver stops reading after one of these. */
    predicate IsTerminal() {
      body.Some? && (body.value.ScanCancelled? || body.value.ScanFinished? || body.value.EngineFailed?)
    }
  }

  datatype Request =
    | StartScanRequest(requestId: nat, profile: string)
    | ScanControlRequest(requestId: nat, control: int)

  datatype Envelope = Envelope(sequence: nat, request: Request)

  lemma ConcatAssociates<T>(a: seq<T>, b: seq<T>, c: seq<T>)
    ensures (a + b) + c == a + (b + c)
  {
  }
}
