/** The displayed state in the form the application owns it: fields that the reducer updates
    in place. Every method is proved against the function of the same name. */
module AppStateObject {
  import opened Wrappers
  import opened ScanProtocol
  import opened ClientReducer

  /** The displayed state as the application owns it. */
  class AppState {
    var screen: Screen
    var scanState: ScanState
    var progress: Option<Progress>
    var provisionalPlan: Option<Plan>
    var pendingControls: seq<PendingControl>
    var activeRequest: Option<ActiveRequest>
    var helpVisible: bool
    var cancelRequested: bool
    var terminal: Option<TerminalState>
    var driverExited: bool
    var lastEventSequence: nat
    var nextRequestId: nat

    function Value(): App
      reads this
    {
      App(screen, scanState, progress, provisionalPlan, pendingControls, activeRequest, helpVisible,
          cancelRequested, terminal, driverExited, lastEventSequence, nextRequestId)
    }

    constructor Default()
      ensures Value() == DEFAULT
    {
      screen, scanState, progress, provisionalPlan := ScanScreen, Idle, None, None;
      pendingControls := [PendingControl(1, StartScan)];
      activeRequest, helpVisible, cancelRequested := None, false, false;
      terminal, driverExited := None, false;
      lastEventSequence, nextRequestId := 0, 2;
    }

    /** `None` when the identifiers are used up; then nothing changes. */
    method TryNextControl(kind: ControlKind) returns (command: Option<ControlCommand>)
      modifies this`nextRequestId, this`pendingControls
      ensures old(nextRequestId) >= U64_MAX ==> command.None? && Value() == old(Value())
      ensures old(nextRequestId) < U64_MAX ==>
        && command == Some(ControlCommand(old(nextRequestId), kind))
        && Value() == old(Value()).(nextRequestId := old(nextRequestId) + 1,
                                    pending := old(pendingControls) + [PendingControl(old(nextRequestId), kind)])
    {
      if nextRequestId >= U64_MAX {
        return None;
      }
      var requestId := nextRequestId;
      nextRequestId := requestId + 1;
      pendingControls := pendingControls + [PendingControl(requestId, kind)];
      return Some(ControlCommand(requestId, kind));
    }

    method HasPending(kind: ControlKind) returns (found: bool)
      ensures found == ClientReducer.HasPending(pendingControls, kind)
    {
      var i := 0;
      while i < |pendingControls|
        invariant 0 <= i <= |pendingControls|
        invariant forall j :: 0 <= j < i ==> pendingControls[j].kind != kind
      {
        if pendingControls[i].kind == kind {
          return true;
        }
        i := i + 1;
      }
      return false;
    }

    /** The first pending control with this identifier, left in place. */
    method FindPending(requestId: nat) returns (index: nat)
      ensures index == PendingIndex(pendingControls, requestId)
    {
      index := 0;
      while index < |pendingControls| && pendingControls[index].requestId != requestId
        invariant 0 <= index <= |pendingControls|
        invariant forall j :: 0 <= j < index ==> pendingControls[j].requestId != requestId
      {
        index := index + 1;
      }
    }

    method TakePending(requestId: nat) returns (taken: Option<PendingControl>)
      modifies this`pendingControls
      ensures pendingControls == ClientReducer.TakePending(old(pendingControls), requestId)
      ensures taken.Some? <==>
        exists i :: 0 <= i < |old(pendingControls)| && old(pendingControls)[i].requestId == requestId
      ensures taken.Some? ==> taken.value.requestId == requestId && |pendingControls| + 1 == |old(pendingControls)|
    {
      var index := FindPending(requestId);
      if index == |pendingControls| {
        return None;
      }
      taken := Some(pendingControls[index]);
      pendingControls := pendingControls[..index] + pendingControls[index + 1..];
    }

    method ProtocolFailure(error: ProtocolError) returns (effects: seq<Effect>)
      modifies this`scanState, this`terminal
      ensures (Value(), effects) == Fail(old(Value()), error)
    {
      scanState := Failed;
      terminal := Some(TerminalFailed(Protocol(error)));
      effects := [StopDriver];
    }

    method Reduce(event: UiEvent) returns (effects: seq<Effect>)
      modifies this
      ensures (Value(), effects) == ClientReducer.Reduce(old(Value()), event)
    {
      effects := [];
      match event {
        case KeyEvent(key, kind) =>
          effects := ReduceKey(key, kind);
        case Resize =>
        case Engine(delivery) =>
          if terminal.None? {
            effects := ReduceEngineEvent(delivery);
          }
        case DriverExited(result) =>
          driverExited := true;
          if result.ExitedErr? {
            scanState := Failed;
            terminal := Some(TerminalFailed(DriverFault(result.detail)));
          } else if terminal.None? {
            scanState := Failed;
            terminal := Some(TerminalFailed(DriverFault(OtherWording("early exit"))));
          }
      }
    }

    method ReduceKey(key: Key, kind: KeyEventKind) returns (effects: seq<Effect>)
      modifies this
      ensures (Value(), effects) == ClientReducer.ReduceKey(old(Value()), key, kind)
    {
      effects := [];
      if kind != Press || terminal.Some? {
        return;
      }
      match key {
        case Question =>
          helpVisible := !helpVisible;
        case Slash =>
          if screen == ScanScreen {
            helpVisible := !helpVisible;
          }
        case Quit =>
          effects := RequestOnce(CancelScan);
        case Space =>
          if screen == ScanScreen {
            if scanState == Running {
              effects := RequestOnce(PauseScan);
            } else if scanState == Paused {
              effects := RequestOnce(ResumeScan);
            }
          }
        case PlanKey =>
          if screen == ScanScreen && (scanState == Running || scanState == Paused) {
            effects := RequestOnce(PauseAndBuildProvisionalPlan);
          }
        case ResumeKey =>
          if screen == PlanScreen || scanState == Paused {
            effects := RequestOnce(ResumeScan);
          }
        case OtherKey =>
      }
    }

    method RequestOnce(kind: ControlKind) returns (effects: seq<Effect>)
      modifies this
      ensures (Value(), effects) == ClientReducer.RequestOnce(old(Value()), kind)
    {
      var waiting := HasPending(kind);
      if waiting || (kind == CancelScan && cancelRequested) {
        return [];
      }
      var command := TryNextControl(kind);
      if command.None? {
        effects := ProtocolFailure(RequestIdsExhausted);
        return;
      }
      if kind == CancelScan {
        cancelRequested := true;
      }
      effects := [SendControl(command.value)];
    }

    method ReduceEngineEvent(delivery: Delivery) returns (effects: seq<Effect>)
      modifies this
      ensures (Value(), effects) == ClientReducer.ReduceEngineEvent(old(Value()), delivery)
    {
      var error := SequenceError(lastEventSequence, delivery);
      if error.Some? {
        effects := ProtocolFailure(error.value);
        return;
      }
      lastEventSequence := delivery.event.eventSequence;
      var requestId := delivery.event.requestId;
      if delivery.event.body.None? {
        effects := ProtocolFailure(EmptyEvent);
        return;
      }
      var body := delivery.event.body.value;
      if body.ControlAccepted? {
        effects := Acknowledge(requestId, body.acceptedControl, body.resultingState);
      } else if body.ControlRejected? {
        effects := Refuse(requestId, body.rejectedControl, body.code, body.currentState);
      } else if requestId == 0 {
        effects := ProtocolFailure(ZeroOrigin);
      } else if activeRequest.None? {
        effects := ProtocolFailure(NoAcknowledgedOrigin);
      } else if activeRequest.value.requestId != requestId {
        effects := ProtocolFailure(OriginMismatch);
      } else {
        effects := ReduceOriginEvent(activeRequest.value, body);
      }
    }

    method Acknowledge(requestId: nat, control: int, resulting: int) returns (effects: seq<Effect>)
      modifies this
      ensures (Value(), effects) == ReduceAccepted(old(Value()), requestId, control, resulting)
    {
      var index := FindPending(requestId);
      if index == |pendingControls| {
        effects := ProtocolFailure(AckUnknownRequest);
        return;
      }
      var kind := pendingControls[index].kind;
      if kind.Code() != control {
        effects := ProtocolFailure(AckDifferentControl);
        return;
      }
      var next := DecodeState(resulting);
      if next.None? {
        effects := ProtocolFailure(AckUnknownState);
        return;
      }
      if next.value == StateUnspecified {
        effects := ProtocolFailure(AckUnspecifiedState);
        return;
      }
      if !AcceptedTransitionIsValid(kind, scanState, next.value) {
        effects := ProtocolFailure(AckImpossibleTransition);
        return;
      }
      var phase := FirstPhase(kind, provisionalPlan);
      var _ := TakePending(requestId);
      activeRequest := Some(ActiveRequest(requestId, kind, phase));
      scanState := next.value;
      effects := [];
    }

    method Refuse(requestId: nat, control: int, code: int, current: int) returns (effects: seq<Effect>)
      modifies this
      ensures (Value(), effects) == ReduceRejected(old(Value()), requestId, control, code, current)
    {
      var index := FindPending(requestId);
      if index == |pendingControls| {
        effects := ProtocolFailure(RejectionOfUnknownRequest);
        return;
      }
      var kind := pendingControls[index].kind;
      if kind.Code() != control {
        effects := ProtocolFailure(RejectionOfDifferentControl);
        return;
      }
      var decoded := DecodeRejectCode(code);
      if decoded.None? {
        effects := ProtocolFailure(RejectionCodeUnknown);
        return;
      }
      if decoded.value == RejectUnspecified {
        effects := ProtocolFailure(RejectionCodeUnspecified);
        return;
      }
      var state := DecodeState(current);
      if state.None? {
        effects := ProtocolFailure(RejectionStateUnknown);
        return;
      }
      if state.value == StateUnspecified {
        effects := ProtocolFailure(RejectionStateUnspecified);
        return;
      }
      if state.value != scanState {
        effects := ProtocolFailure(RejectionStateDiffers);
        return;
      }
      var _ := TakePending(requestId);
      if kind == CancelScan {
        cancelRequested := false;
      }
      effects := [];
    }

    method ReduceOriginEvent(origin: ActiveRequest, fact: EventBody) returns (effects: seq<Effect>)
      modifies this
      ensures (Value(), effects) == ClientReducer.ReduceOriginEvent(old(Value()), origin, fact)
    {
      hide DecodeState;
      hide PhaseAfter;
      match fact {
        case ScanStateChanged(_, _) => effects := ReduceStateChange(origin, fact);
        case ScanProgress(_) => effects := ReduceProgress(origin, fact);
        case PlanReady(_) => effects := ReducePlanReady(origin, fact);
        case PlanInvalidated(_) => effects := ReducePlanInvalidated(origin, fact);
        case ScanCancelled(_) => effects := ReduceEnding(origin, fact);
        case ScanFinished(_) => effects := ReduceEnding(origin, fact);
        case EngineFailed(_, _) => effects := ReduceEnding(origin, fact);
        case ControlAccepted(_, _) =>
          effects := ProtocolFailure(EventInvalidForPhase);
        case ControlRejected(_, _, _, _) =>
          effects := ProtocolFailure(EventInvalidForPhase);
      }
    }

    method ReduceProgress(origin: ActiveRequest, fact: EventBody) returns (effects: seq<Effect>)
      requires fact.ScanProgress?
      modifies this
      ensures (Value(), effects) == ClientReducer.ReduceOriginEvent(old(Value()), origin, fact)
    {
      effects := [];
      if !ProgressAllowed(scanState, origin) {
        effects := ProtocolFailure(EventInvalidForPhase);
        return;
      }
      progress := Some(fact.progress);
      SetActivePhase(origin, Steady);
    }

    method ReducePlanReady(origin: ActiveRequest, fact: EventBody) returns (effects: seq<Effect>)
      requires fact.PlanReady?
      modifies this
      ensures (Value(), effects) == ClientReducer.ReduceOriginEvent(old(Value()), origin, fact)
    {
      effects := [];
      if origin.kind != PauseAndBuildProvisionalPlan || origin.phase != AwaitingPlanProjection
         || scanState != ProvisionalPlanReady || provisionalPlan.Some? || fact.plan.planId == "" {
        effects := ProtocolFailure(EventInvalidForPhase);
        return;
      }
      provisionalPlan, screen, helpVisible := Some(fact.plan), PlanScreen, false;
      SetActivePhase(origin, Steady);
    }

    method ReducePlanInvalidated(origin: ActiveRequest, fact: EventBody) returns (effects: seq<Effect>)
      requires fact.PlanInvalidated?
      modifies this
      ensures (Value(), effects) == ClientReducer.ReduceOriginEvent(old(Value()), origin, fact)
    {
      effects := [];
      if provisionalPlan.None? {
        effects := ProtocolFailure(UnknownPlanInvalidated);
        return;
      }
      if origin.kind != ResumeScan || origin.phase != AwaitingInvalidation
         || fact.previousPlanId != provisionalPlan.value.planId {
        effects := ProtocolFailure(InvalidationMismatch);
        return;
      }
      provisionalPlan, screen, helpVisible := None, ScanScreen, false;
      SetActivePhase(origin, AwaitingResumeState);
    }

    method ReduceEnding(origin: ActiveRequest, fact: EventBody) returns (effects: seq<Effect>)
      requires fact.ScanCancelled? || fact.ScanFinished? || fact.EngineFailed?
      modifies this
      ensures (Value(), effects) == ClientReducer.ReduceOriginEvent(old(Value()), origin, fact)
    {
      effects := [];
      match fact {
        case ScanCancelled(reason) =>
          if origin.kind != CancelScan || origin.phase != AwaitingCancelledTerminal || scanState != Cancelled {
            effects := ProtocolFailure(EventInvalidForPhase);
            return;
          }
          terminal := Some(TerminalCancelled(reason));
        case ScanFinished(summary) =>
          if !(origin.kind == StartScan || origin.kind == ResumeScan) || origin.phase != Steady
             || scanState != Running {
            effects := ProtocolFailure(EventInvalidForPhase);
            return;
          }
          scanState, terminal := Finished, Some(TerminalFinished(summary));
        case EngineFailed(code, detail) =>
          scanState, terminal := Failed, Some(TerminalFailed(EngineFault(code, detail)));
      }
    }

    method ReduceStateChange(origin: ActiveRequest, fact: EventBody) returns (effects: seq<Effect>)
      requires fact.ScanStateChanged?
      modifies this
      ensures (Value(), effects) == ClientReducer.ReduceOriginEvent(old(Value()), origin, fact)
    {
      effects := [];
      var next := DecodeState(fact.state);
      if next.None? {
        effects := ProtocolFailure(ChangedStateUnknown);
        return;
      }
      if next.value == StateUnspecified {
        effects := ProtocolFailure(ChangedStateUnspecified);
        return;
      }
      var phase := PhaseAfter(origin.kind, origin.phase, scanState, next.value);
      if phase.None? {
        effects := ProtocolFailure(ChangeInvalidForPhase);
        return;
      }
      scanState := next.value;
      SetActivePhase(origin, phase.value);
    }

    method SetActivePhase(origin: ActiveRequest, phase: RequestPhase)
      modifies this`activeRequest
      ensures Value() == InPhase(old(Value()), origin, phase)
    {
      activeRequest := Some(ActiveRequest(origin.requestId, origin.kind, phase));
    }
  }
}
