/** Which deliveries the display accepts, as tables over codes, and that it stops for every other. */
module FailClosed {
  import opened Wrappers
  import opened ScanProtocol
  import opened ClientReducer

  // Codes of controls: 1 start, 2 pause, 3 resume, 4 build a plan, 5 cancel. Codes of states: 1 idle, 2 running,
  // 3 paused, 4 building a plan, 5 plan ready, 6 cancelling, 7 cancelled, 8 finished, 9 failed.

  /** The next number, or a later one when progress was dropped in favour of progress. */
  ghost predicate InSequence(app: App, d: Delivery) {
    && d.event.eventSequence == app.lastEventSequence + 1 + d.skipped <= 0xFFFF_FFFF_FFFF_FFFF
    && (d.skipped > 0 ==> d.event.body.Some? && d.event.body.value.ScanProgress?)
  }

  /** The control that waits under this identifier; the first, should there be several. */
  ghost predicate Waits(app: App, requestId: nat, control: int) {
    exists i :: 0 <= i < |app.pending| && app.pending[i].requestId == requestId && app.pending[i].kind.Code() == control
      && forall j :: 0 <= j < i ==> app.pending[j].requestId != requestId
  }

  ghost predicate AckFits(control: int, shown: int, resulting: int) {
    || (control == 1 && shown == 1 && resulting == 2)
    || (control == 2 && shown == 2 && resulting == 3)
    || (control == 3 && shown in {3, 5} && resulting == 2)
    || (control == 4 && shown in {2, 3} && resulting == 4)
    || (control == 5 && shown in {2, 3, 4, 5} && resulting == 6)
  }

  ghost predicate ChangeFits(control: int, phase: RequestPhase, shown: int, announced: int) {
    || (control == 1 && phase == AwaitingStateConfirmation && shown == 2 && announced == 2)
    || (control == 2 && phase == AwaitingStateConfirmation && shown == 3 && announced == 3)
    || (control == 3 && phase == AwaitingResumeState && shown == 2 && announced == 2)
    || (control == 4 && phase == AwaitingStateConfirmation && shown == 4 && announced == 4)
    || (control == 4 && phase == AwaitingPlanReadyState && shown == 4 && announced == 5)
    || (control == 5 && phase == AwaitingStateConfirmation && shown == 6 && announced == 6)
    || (control == 5 && phase == AwaitingCancelledState && shown == 6 && announced == 7)
  }

  /** Whether a fact is due: by the control it belongs to, the phase that is in, the state shown and the plan held. */
  ghost predicate FactFits(control: int, phase: RequestPhase, shown: int, plan: Option<Plan>, fact: EventBody) {
    match fact
    case ScanStateChanged(announced, _) => ChangeFits(control, phase, shown, announced)
    case ScanProgress(_) =>
      shown == 2 && ((control == 1 && phase == Steady) || (control == 3 && phase in {AwaitingResumeProgress, Steady}))
    case PlanReady(p) => control == 4 && phase == AwaitingPlanProjection && shown == 5 && plan == None && p.planId != ""
    case PlanInvalidated(previous) =>
      control == 3 && phase == AwaitingInvalidation && plan.Some? && plan.value.planId == previous
    case ScanCancelled(_) => control == 5 && phase == AwaitingCancelledTerminal && shown == 7
    case ScanFinished(_) => control in {1, 3} && phase == Steady && shown == 2
    case EngineFailed(_, _) => true
    case _ => false
  }

  ghost predicate BodyFits(app: App, id: nat, body: EventBody) {
    match body
    case ControlAccepted(control, resulting) =>
      Waits(app, id, control) && AckFits(control, app.scanState.Code(), resulting)
    case ControlRejected(control, code, _, current) =>
      Waits(app, id, control) && code in {1, 2, 3} && 1 <= current == app.scanState.Code()
    case _ =>
      && id > 0 && app.active.Some? && app.active.value.requestId == id
      && FactFits(app.active.value.kind.Code(), app.active.value.phase, app.scanState.Code(), app.plan, body)
  }

  // ---------------------------------------------------------------- what is shown then

  ghost predicate Taken(before: seq<PendingControl>, requestId: nat, after: seq<PendingControl>) {
    exists i :: 0 <= i < |before| && before[i].requestId == requestId && after == before[..i] + before[i + 1..]
      && forall j :: 0 <= j < i ==> before[j].requestId != requestId
  }

  ghost predicate IsFirstPhase(control: int, plan: Option<Plan>, phase: RequestPhase) {
    && (control != 3 ==> phase == AwaitingStateConfirmation)
    && (control == 3 && plan.Some? ==> phase == AwaitingInvalidation)
    && (control == 3 && plan.None? ==> phase == AwaitingResumeState)
  }

  ghost predicate IsPhaseAfter(control: int, announced: int, phase: RequestPhase) {
    && (control in {1, 2} ==> phase == Steady)
    && (control == 3 ==> phase == AwaitingResumeProgress)
    && (control == 4 ==> phase == if announced == 4 then AwaitingPlanReadyState else AwaitingPlanProjection)
    && (control == 5 ==> phase == if announced == 6 then AwaitingCancelledState else AwaitingCancelledTerminal)
  }

  ghost predicate Enters(app: App, phase: RequestPhase, after: App)
    requires app.active.Some?
  {
    after.active == Some(app.active.value.(phase := phase))
  }

  /** The display after a body that fits. What is not named stays. */
  ghost predicate Shown(app: App, id: nat, body: EventBody, after: App)
    requires BodyFits(app, id, body)
  {
    match body
    case ControlAccepted(control, resulting) =>
      && after == app.(pending := after.pending, active := after.active, scanState := after.scanState)
      && Taken(app.pending, id, after.pending) && after.scanState.Code() == resulting
      && after.active.Some? && after.active.value.requestId == id && after.active.value.kind.Code() == control
      && IsFirstPhase(control, app.plan, after.active.value.phase)
    case ControlRejected(control, _, _, _) =>
      && after == app.(pending := after.pending, cancelRequested := app.cancelRequested && control != 5)
      && Taken(app.pending, id, after.pending)
    case ScanStateChanged(announced, _) =>
      && after == app.(active := after.active, scanState := after.scanState) && after.scanState.Code() == announced
      && after.active.Some? && Enters(app, after.active.value.phase, after)
      && IsPhaseAfter(app.active.value.kind.Code(), announced, after.active.value.phase)
    case ScanProgress(p) => after == app.(active := after.active, progress := Some(p)) && Enters(app, Steady, after)
    case PlanReady(p) =>
      && after == app.(active := after.active, plan := Some(p), screen := PlanScreen, helpVisible := false)
      && Enters(app, Steady, after)
    case PlanInvalidated(_) =>
      && after == app.(active := after.active, plan := None, screen := ScanScreen, helpVisible := false)
      && Enters(app, AwaitingResumeState, after)
    case ScanCancelled(reason) => after == app.(terminal := Some(TerminalCancelled(reason)))
    case ScanFinished(summary) => after == app.(scanState := Finished, terminal := Some(TerminalFinished(summary)))
    case EngineFailed(code, detail) =>
      after == app.(scanState := Failed, terminal := Some(TerminalFailed(EngineFault(code, detail))))
  }

  /** The run ends in a protocol error, and the driver is told to stop. What was displayed stays. */
  ghost predicate Refused(app: App, r: (App, seq<Effect>)) {
    && r.1 == [StopDriver] && r.0 == app.(scanState := Failed, terminal := r.0.terminal)
    && r.0.terminal.Some? && r.0.terminal.value.TerminalFailed? && r.0.terminal.value.failure.Protocol?
  }

  ghost predicate Judged(app: App, id: nat, body: EventBody, r: (App, seq<Effect>)) {
    if BodyFits(app, id, body) then Shown(app, id, body, r.0) && r.1 == [] else Refused(app, r)
  }

  // ------------------------------------------------------------------------- proofs

  lemma CodesIdentify(a: ScanState, b: ScanState)
    ensures a.Code() == b.Code() ==> a == b
    ensures DecodeState(a.Code()) == Some(a)
  {
  }

  lemma WaitingIsFirst(app: App, id: nat, control: int)
    ensures Waits(app, id, control) <==>
      PendingIndex(app.pending, id) < |app.pending|
      && app.pending[PendingIndex(app.pending, id)].kind.Code() == control
    ensures Waits(app, id, control) ==> Taken(app.pending, id, TakePending(app.pending, id))
  {
    hide PendingIndex;
  }

  lemma AcceptedByTheTables(app: App, id: nat, control: int, resulting: int)
    ensures Judged(app, id, ControlAccepted(control, resulting), ReduceAccepted(app, id, control, resulting))
  {
    hide PendingIndex;
    hide Waits;
    hide TakePending;
    hide Taken;
    WaitingIsFirst(app, id, control);
  }

  lemma RejectedByTheTables(app: App, id: nat, control: int, code: int, text: Wording, current: int)
    ensures Judged(app, id, ControlRejected(control, code, text, current),
                   ReduceRejected(app, id, control, code, current))
  {
    hide PendingIndex;
    hide Waits;
    hide TakePending;
    hide Taken;
    WaitingIsFirst(app, id, control);
    if DecodeState(current).Some? {
      CodesIdentify(DecodeState(current).value, app.scanState);
    }
    CodesIdentify(app.scanState, app.scanState);
  }

  lemma ChangesFit(origin: ActiveRequest, shown: ScanState, announced: ScanState)
    ensures announced != StateUnspecified ==>
      (PhaseAfter(origin.kind, origin.phase, shown, announced).Some? <==>
         ChangeFits(origin.kind.Code(), origin.phase, shown.Code(), announced.Code()))
    ensures PhaseAfter(origin.kind, origin.phase, shown, announced).Some? ==>
      IsPhaseAfter(origin.kind.Code(), announced.Code(),
                   PhaseAfter(origin.kind, origin.phase, shown, announced).value)
  {
  }

  lemma UnknownStateNeverFits(control: int, phase: RequestPhase, shown: int, announced: int)
    requires DecodeState(announced).None? || DecodeState(announced).value == StateUnspecified
    ensures !ChangeFits(control, phase, shown, announced)
  {
  }

  lemma ChangeByTheTables(app: App, id: nat, announced: int, text: Wording)
    ensures Judged(app, id, ScanStateChanged(announced, text), ReduceFact(app, id, ScanStateChanged(announced, text)))
  {
    hide PhaseAfter;
    hide IsPhaseAfter;
    hide ChangeFits;
    hide DecodeState;
    if app.active.Some? {
      var origin := app.active.value;
      if DecodeState(announced).Some? && DecodeState(announced).value != StateUnspecified {
        ChangesFit(origin, app.scanState, DecodeState(announced).value);
      } else {
        UnknownStateNeverFits(origin.kind.Code(), origin.phase, app.scanState.Code(), announced);
      }
    }
  }

  lemma ReportByTheTables(app: App, id: nat, fact: EventBody)
    requires fact.ScanProgress? || fact.PlanReady? || fact.PlanInvalidated?
    ensures Judged(app, id, fact, ReduceFact(app, id, fact))
  {
    hide PhaseAfter;
    hide DecodeState;
    hide ChangeFits;
    hide Taken;
    hide Waits;
  }

  lemma EndByTheTables(app: App, id: nat, fact: EventBody)
    requires fact.ScanCancelled? || fact.ScanFinished? || fact.EngineFailed?
    ensures Judged(app, id, fact, ReduceFact(app, id, fact))
  {
    hide PhaseAfter;
    hide DecodeState;
    hide ChangeFits;
    hide Taken;
    hide Waits;
  }

  lemma FactByTheTables(app: App, id: nat, fact: EventBody)
    requires !fact.ControlAccepted? && !fact.ControlRejected?
    ensures Judged(app, id, fact, ReduceFact(app, id, fact))
  {
    hide *;
    match fact
    case ScanStateChanged(announced, text) => ChangeByTheTables(app, id, announced, text);
    case ScanProgress(_) => ReportByTheTables(app, id, fact);
    case PlanReady(_) => ReportByTheTables(app, id, fact);
    case PlanInvalidated(_) => ReportByTheTables(app, id, fact);
    case ScanCancelled(_) => EndByTheTables(app, id, fact);
    case ScanFinished(_) => EndByTheTables(app, id, fact);
    case EngineFailed(_, _) => EndByTheTables(app, id, fact);
    case _ =>
  }

  lemma BodyByTheTables(app: App, id: nat, body: EventBody)
    ensures Judged(app, id, body, ReduceBody(app, id, Some(body)))
  {
    hide Judged;
    hide ReduceAccepted;
    hide ReduceRejected;
    hide ReduceFact;
    match body
    case ControlAccepted(control, resulting) => AcceptedByTheTables(app, id, control, resulting);
    case ControlRejected(control, code, text, current) => RejectedByTheTables(app, id, control, code, text, current);
    case _ => FactByTheTables(app, id, body);
  }

  // -------------------------------------------------------------------- main results

  /** A delivery in sequence that the tables have is shown as they say. Every other one ends the run: the driver
      is told to stop, and of what was displayed only the state and the number of the last event may differ. */
  lemma OnlyFittingDeliveriesPass(app: App, d: Delivery)
    requires app.terminal.None?
    ensures var r := Reduce(app, Engine(d));
      var counted := app.(lastEventSequence := d.event.eventSequence);
      if !InSequence(app, d) then Refused(app, r)
      else if d.event.body.None? then Refused(counted, r)
      else Judged(counted, d.event.requestId, d.event.body.value, r)
  {
    hide ReduceBody;
    hide Judged;
    if d.event.body.Some? {
      BodyByTheTables(app.(lastEventSequence := d.event.eventSequence), d.event.requestId, d.event.body.value);
    } else {
      NothingIsRefused(app.(lastEventSequence := d.event.eventSequence), d.event.requestId);
    }
  }

  lemma NothingIsRefused(app: App, id: nat)
    ensures Refused(app, ReduceBody(app, id, None))
  {
  }
}
