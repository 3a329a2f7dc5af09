/** Each batch the engine can answer with, reduced by a client that agrees with the engine. */
module EngineReplies {
  import opened Wrappers
  import opened ScanProtocol
  import opened ScanEngine
  import opened ClientReducer
  import opened ControlLoop

  function Fact(sequence: nat, requestId: nat, body: EventBody): UiEvent {
    Engine(Exact(EngineEvent(sequence, requestId, Some(body))))
  }

  // ------------------------------------------------------------------ single events

  lemma AckStep(app: App, c: ControlCommand, rest: seq<ControlCommand>, to: ScanState)
    requires app.terminal.None? && app.pending == Waiting([c] + rest)
    requires AcceptedTransitionIsValid(c.kind, app.scanState, to) && to != StateUnspecified
    requires app.lastEventSequence < U64_MAX
    ensures Reduce(app, Fact(app.lastEventSequence + 1, c.requestId, ControlAccepted(c.kind.Code(), to.Code()))) ==
      (app.(lastEventSequence := app.lastEventSequence + 1, pending := Waiting(rest), scanState := to,
            active := Some(ActiveRequest(c.requestId, c.kind, FirstPhase(c.kind, app.plan)))), [])
  {
    FirstIsTaken(c, rest);
    assert DecodeState(to.Code()) == Some(to);
    hide AcceptedTransitionIsValid;
    hide TakePending;
  }

  lemma FirstIsTaken(c: ControlCommand, rest: seq<ControlCommand>)
    ensures PendingIndex(Waiting([c] + rest), c.requestId) == 0
    ensures TakePending(Waiting([c] + rest), c.requestId) == Waiting(rest)
  {
    assert Waiting([c] + rest)[0] == PendingControl(c.requestId, c.kind);
  }

  lemma RejectStep(app: App, c: ControlCommand, rest: seq<ControlCommand>, detail: Wording)
    requires app.terminal.None? && app.pending == Waiting([c] + rest)
    requires app.scanState != StateUnspecified && app.lastEventSequence < U64_MAX
    ensures Reduce(app, Fact(app.lastEventSequence + 1, c.requestId,
                             ControlRejected(c.kind.Code(), InvalidState.Code(), detail, app.scanState.Code()))) ==
      (app.(lastEventSequence := app.lastEventSequence + 1, pending := Waiting(rest),
            cancelRequested := app.cancelRequested && c.kind != CancelScan), [])
  {
    FirstIsTaken(c, rest);
    assert DecodeState(app.scanState.Code()) == Some(app.scanState);
    hide TakePending;
  }

  /** The phases of a control, one change of state after the other. */
  lemma Phases()
    ensures PhaseAfter(StartScan, AwaitingStateConfirmation, Running, Running) == Some(Steady)
    ensures PhaseAfter(PauseScan, AwaitingStateConfirmation, Paused, Paused) == Some(Steady)
    ensures PhaseAfter(PauseAndBuildProvisionalPlan, AwaitingStateConfirmation,
                       BuildingProvisionalPlan, BuildingProvisionalPlan) == Some(AwaitingPlanReadyState)
    ensures PhaseAfter(PauseAndBuildProvisionalPlan, AwaitingPlanReadyState,
                       BuildingProvisionalPlan, ProvisionalPlanReady) == Some(AwaitingPlanProjection)
    ensures PhaseAfter(ResumeScan, AwaitingResumeState, Running, Running) == Some(AwaitingResumeProgress)
    ensures PhaseAfter(CancelScan, AwaitingStateConfirmation, Cancelling, Cancelling) == Some(AwaitingCancelledState)
    ensures PhaseAfter(CancelScan, AwaitingCancelledState, Cancelling, Cancelled) == Some(AwaitingCancelledTerminal)
  {
  }

  lemma ChangeStep(app: App, requestId: nat, to: ScanState, phase: RequestPhase, reason: Wording)
    requires app.terminal.None? && app.active.Some? && app.active.value.requestId == requestId != 0
    requires PhaseAfter(app.active.value.kind, app.active.value.phase, app.scanState, to) == Some(phase)
    requires to != StateUnspecified && app.lastEventSequence < U64_MAX
    ensures Reduce(app, Fact(app.lastEventSequence + 1, requestId, ScanStateChanged(to.Code(), reason))) ==
      (app.(lastEventSequence := app.lastEventSequence + 1, scanState := to,
            active := Some(app.active.value.(phase := phase))), [])
  {
    assert DecodeState(to.Code()) == Some(to);
    hide PhaseAfter;
    hide DecodeState;
  }

  lemma ProgressStep(app: App, requestId: nat, progress: Progress)
    requires app.terminal.None? && app.active.Some? && app.active.value.requestId == requestId != 0
    requires ProgressAllowed(app.scanState, app.active.value) && app.lastEventSequence < U64_MAX
    ensures Reduce(app, Fact(app.lastEventSequence + 1, requestId, ScanProgress(progress))) ==
      (app.(lastEventSequence := app.lastEventSequence + 1, progress := Some(progress),
            active := Some(app.active.value.(phase := Steady))), [])
  {
  }

  lemma PlanStep(app: App, requestId: nat, plan: Plan)
    requires app.terminal.None? && app.plan.None? && plan.planId != "" && app.scanState == ProvisionalPlanReady
    requires app.active == Some(ActiveRequest(requestId, PauseAndBuildProvisionalPlan, AwaitingPlanProjection))
    requires requestId != 0 && app.lastEventSequence < U64_MAX
    ensures Reduce(app, Fact(app.lastEventSequence + 1, requestId, PlanReady(plan))) ==
      (app.(lastEventSequence := app.lastEventSequence + 1, plan := Some(plan), screen := PlanScreen,
            helpVisible := false, active := Some(app.active.value.(phase := Steady))), [])
  {
  }

  lemma InvalidationStep(app: App, requestId: nat, planId: string)
    requires app.terminal.None? && app.plan.Some? && app.plan.value.planId == planId
    requires app.active == Some(ActiveRequest(requestId, ResumeScan, AwaitingInvalidation))
    requires requestId != 0 && app.lastEventSequence < U64_MAX
    ensures Reduce(app, Fact(app.lastEventSequence + 1, requestId, PlanInvalidated(planId))) ==
      (app.(lastEventSequence := app.lastEventSequence + 1, plan := None, screen := ScanScreen, helpVisible := false,
            active := Some(app.active.value.(phase := AwaitingResumeState))), [])
  {
  }

  lemma CancelledStep(app: App, requestId: nat, reason: Wording)
    requires app.terminal.None? && app.scanState == Cancelled
    requires app.active == Some(ActiveRequest(requestId, CancelScan, AwaitingCancelledTerminal))
    requires requestId != 0 && app.lastEventSequence < U64_MAX
    ensures Reduce(app, Fact(app.lastEventSequence + 1, requestId, ScanCancelled(reason))) ==
      (app.(lastEventSequence := app.lastEventSequence + 1, terminal := Some(TerminalCancelled(reason))), [])
  {
  }

  // ------------------------------------------------------------------------ batches

  lemma ReduceThen(app: App, first: UiEvent, rest: seq<UiEvent>)
    ensures ReduceAll(app, [first] + rest) == ReduceAll(Reduce(app, first).0, rest)
  {
    assert ([first] + rest)[1..] == rest;
  }

  /** A client in agreement, the request the engine takes next, and room to number the reply. */
  predicate Ready(app: App, s: Session, c: ControlCommand, rest: seq<ControlCommand>) {
    && Settled(s)
    && Agree(app, s, [c] + rest)
    && s.requestIdHighWaterMark < c.requestId
    && s.eventSequence + |Answer(s, EnvelopeOf(c)).bodies| <= U64_MAX
  }

  function Batch(s: Session, c: ControlCommand): seq<UiEvent> {
    Raw(Handle(s, EnvelopeOf(c)).1)
  }

  function Next(s: Session, c: ControlCommand): Session {
    Handle(s, EnvelopeOf(c)).0
  }

  lemma HasPendingHead(p: PendingControl, rest: seq<PendingControl>, kind: ControlKind)
    ensures HasPending([p] + rest, kind) <==> p.kind == kind || HasPending(rest, kind)
  {
    if HasPending([p] + rest, kind) {
      var i :| 0 <= i < |[p] + rest| && ([p] + rest)[i].kind == kind;
      assert i > 0 ==> rest[i - 1].kind == kind;
    }
    if HasPending(rest, kind) {
      var i :| 0 <= i < |rest| && rest[i].kind == kind;
      assert ([p] + rest)[i + 1].kind == kind;
    }
    assert ([p] + rest)[0] == p;
  }

  lemma RestHasPending(c: ControlCommand, rest: seq<ControlCommand>)
    requires c.kind != CancelScan
    ensures HasPending(Waiting(rest), CancelScan) <==> HasPending(Waiting([c] + rest), CancelScan)
  {
    hide HasPending;
    var p := PendingControl(c.requestId, c.kind);
    assert Waiting([c] + rest) == [p] + Waiting(rest);
    HasPendingHead(p, Waiting(rest), CancelScan);
  }

  /** The requests behind the first one keep fitting any state the first one leads to. */
  lemma RestFits(c: ControlCommand, rest: seq<ControlCommand>, from: ScanState, to: ScanState)
    requires KindsFit([c] + rest, from) && to != Idle
    ensures KindsFit(rest, to)
  {
    var all := [c] + rest;
    assert forall i :: 0 <= i < |rest| ==> rest[i] == all[i + 1];
  }

  lemma StartBatch(app: App, s: Session, c: ControlCommand, rest: seq<ControlCommand>)
    requires Ready(app, s, c, rest) && c.kind == StartScan
    ensures Agree(ReduceAll(app, Batch(s, c)), Next(s, c), rest)
  {
    hide Reduce;
    hide PhaseAfter;
    Phases();
    hide HasPending;
    assert ([c] + rest)[0] == c;
    var q, id := s.eventSequence, c.requestId;
    var e1 := Fact(q + 1, id, ControlAccepted(StartScan.Code(), Running.Code()));
    var e2 := Fact(q + 2, id, ScanStateChanged(Running.Code(), ScanStarted));
    var e3 := Fact(q + 3, id, ScanProgress(FixtureProgress("standard")));
    assert Batch(s, c) == [e1] + ([e2] + ([e3] + []));
    hide Batch;
    AckStep(app, c, rest, Running);
    var a1 := Reduce(app, e1).0;
    ChangeStep(a1, id, Running, Steady, ScanStarted);
    var a2 := Reduce(a1, e2).0;
    ProgressStep(a2, id, FixtureProgress("standard"));
    var a3 := Reduce(a2, e3).0;
    ReduceThen(app, e1, [e2] + ([e3] + []));
    ReduceThen(a1, e2, [e3] + []);
    ReduceThen(a2, e3, []);
    RestFits(c, rest, s.state, Running);
    RestHasPending(c, rest);
    hide KindsFit;
  }

  lemma PauseBatch(app: App, s: Session, c: ControlCommand, rest: seq<ControlCommand>)
    requires Ready(app, s, c, rest) && c.kind == PauseScan && s.state == Running
    ensures Agree(ReduceAll(app, Batch(s, c)), Next(s, c), rest)
  {
    hide Reduce;
    hide PhaseAfter;
    Phases();
    hide HasPending;
    var q, id := s.eventSequence, c.requestId;
    var e1 := Fact(q + 1, id, ControlAccepted(PauseScan.Code(), Paused.Code()));
    var e2 := Fact(q + 2, id, ScanStateChanged(Paused.Code(), PauseAcknowledged));
    assert Batch(s, c) == [e1] + ([e2] + []);
    hide Batch;
    AckStep(app, c, rest, Paused);
    var a1 := Reduce(app, e1).0;
    ChangeStep(a1, id, Paused, Steady, PauseAcknowledged);
    var a2 := Reduce(a1, e2).0;
    ReduceThen(app, e1, [e2] + []);
    ReduceThen(a1, e2, []);
    RestFits(c, rest, s.state, Paused);
    RestHasPending(c, rest);
    hide KindsFit;
  }

  lemma ThreeSteps(app: App, e1: UiEvent, e2: UiEvent, e3: UiEvent)
    ensures ReduceAll(app, [e1, e2, e3]) == Reduce(Reduce(Reduce(app, e1).0, e2).0, e3).0
  {
    hide Reduce;
    var a1 := Reduce(app, e1).0;
    var a2 := Reduce(a1, e2).0;
    ReduceThen(app, e1, [e2, e3]);
    ReduceThen(a1, e2, [e3]);
    ReduceThen(a2, e3, []);
    assert [e1] + [e2, e3] == [e1, e2, e3] && [e2] + [e3] == [e2, e3] && [e3] + [] == [e3];
  }

  lemma FourSteps(app: App, e1: UiEvent, e2: UiEvent, e3: UiEvent, e4: UiEvent)
    ensures ReduceAll(app, [e1, e2, e3, e4]) ==
      Reduce(Reduce(Reduce(Reduce(app, e1).0, e2).0, e3).0, e4).0
  {
    hide Reduce;
    var a1 := Reduce(app, e1).0;
    var a2 := Reduce(a1, e2).0;
    var a3 := Reduce(a2, e3).0;
    ReduceThen(app, e1, [e2, e3, e4]);
    ReduceThen(a1, e2, [e3, e4]);
    ReduceThen(a2, e3, [e4]);
    ReduceThen(a3, e4, []);
    assert [e1] + [e2, e3, e4] == [e1, e2, e3, e4] && [e2] + [e3, e4] == [e2, e3, e4];
    assert [e3] + [e4] == [e3, e4] && [e4] + [] == [e4];
  }

  function ResumeEvents(q: nat, id: nat, p: Progress): seq<UiEvent> {
    [Fact(q + 1, id, ControlAccepted(ResumeScan.Code(), Running.Code())),
     Fact(q + 2, id, ScanStateChanged(Running.Code(), ResumeAcknowledged)),
     Fact(q + 3, id, ScanProgress(p))]
  }

  lemma ResumeReply(s: Session, c: ControlCommand)
    requires s.requestIdHighWaterMark < c.requestId && c.kind == ResumeScan
    requires s.state == Paused && s.provisionalPlanId.None?
    ensures Batch(s, c) == ResumeEvents(s.eventSequence, c.requestId, FixtureProgress(s.profile))
    ensures |Answer(s, EnvelopeOf(c)).bodies| == 3
    ensures Next(s, c) ==
      s.(eventSequence := s.eventSequence + 3, requestIdHighWaterMark := c.requestId, state := Running)
  {
  }

  lemma ResumeSteps(app: App, c: ControlCommand, rest: seq<ControlCommand>, p: Progress)
    requires app.terminal.None? && app.plan.None? && app.pending == Waiting([c] + rest) && c.requestId != 0
    requires c.kind == ResumeScan && app.scanState == Paused && app.lastEventSequence + 3 <= U64_MAX
    ensures ReduceAll(app, ResumeEvents(app.lastEventSequence, c.requestId, p)) ==
      app.(lastEventSequence := app.lastEventSequence + 3, pending := Waiting(rest), scanState := Running,
           progress := Some(p), active := Some(ActiveRequest(c.requestId, c.kind, Steady)))
  {
    hide Reduce;
    hide PhaseAfter;
    Phases();
    var id, events := c.requestId, ResumeEvents(app.lastEventSequence, c.requestId, p);
    AckStep(app, c, rest, Running);
    var a1 := Reduce(app, events[0]).0;
    ChangeStep(a1, id, Running, AwaitingResumeProgress, ResumeAcknowledged);
    var a2 := Reduce(a1, events[1]).0;
    ProgressStep(a2, id, p);
    ThreeSteps(app, events[0], events[1], events[2]);
  }

  /** Resuming from a pause: no plan is held, so none is invalidated. */
  lemma ResumeBatch(app: App, s: Session, c: ControlCommand, rest: seq<ControlCommand>)
    requires Ready(app, s, c, rest) && c.kind == ResumeScan && s.state == Paused
    ensures Agree(ReduceAll(app, Batch(s, c)), Next(s, c), rest)
  {
    hide Reduce;
    hide ReduceAll;
    hide Batch;
    ResumeReply(s, c);
    hide Next;
    hide Answer;
    ResumeSteps(app, c, rest, FixtureProgress(s.profile));
    RestFits(c, rest, s.state, Running);
    RestHasPending(c, rest);
    hide KindsFit;
    hide HasPending;
  }

  function DropPlanEvents(q: nat, id: nat, planId: string, p: Progress): seq<UiEvent> {
    [Fact(q + 1, id, ControlAccepted(ResumeScan.Code(), Running.Code())),
     Fact(q + 2, id, PlanInvalidated(planId)),
     Fact(q + 3, id, ScanStateChanged(Running.Code(), ResumeAcknowledged)),
     Fact(q + 4, id, ScanProgress(p))]
  }

  lemma DropPlanReply(s: Session, c: ControlCommand)
    requires s.requestIdHighWaterMark < c.requestId && c.kind == ResumeScan
    requires s.state == ProvisionalPlanReady && s.provisionalPlanId.Some?
    ensures Batch(s, c) ==
      DropPlanEvents(s.eventSequence, c.requestId, s.provisionalPlanId.value, FixtureProgress(s.profile))
    ensures |Answer(s, EnvelopeOf(c)).bodies| == 4
    ensures Next(s, c) == s.(eventSequence := s.eventSequence + 4, requestIdHighWaterMark := c.requestId,
                             state := Running, provisionalPlanId := None)
  {
  }

  lemma DropPlanSteps(app: App, c: ControlCommand, rest: seq<ControlCommand>, p: Progress)
    requires app.terminal.None? && app.plan.Some? && app.pending == Waiting([c] + rest) && c.requestId != 0
    requires c.kind == ResumeScan && app.scanState == ProvisionalPlanReady && app.lastEventSequence + 4 <= U64_MAX
    ensures ReduceAll(app, DropPlanEvents(app.lastEventSequence, c.requestId, app.plan.value.planId, p)) ==
      app.(lastEventSequence := app.lastEventSequence + 4, pending := Waiting(rest), scanState := Running,
           plan := None, screen := ScanScreen, helpVisible := false, progress := Some(p),
           active := Some(ActiveRequest(c.requestId, c.kind, Steady)))
  {
    hide Reduce;
    hide PhaseAfter;
    Phases();
    var id, planId := c.requestId, app.plan.value.planId;
    var events := DropPlanEvents(app.lastEventSequence, id, planId, p);
    AckStep(app, c, rest, Running);
    var a1 := Reduce(app, events[0]).0;
    InvalidationStep(a1, id, planId);
    var a2 := Reduce(a1, events[1]).0;
    ChangeStep(a2, id, Running, AwaitingResumeProgress, ResumeAcknowledged);
    var a3 := Reduce(a2, events[2]).0;
    ProgressStep(a3, id, p);
    FourSteps(app, events[0], events[1], events[2], events[3]);
  }

  /** Resuming from a ready plan: the invalidation names the plan the client shows. */
  lemma DropPlanBatch(app: App, s: Session, c: ControlCommand, rest: seq<ControlCommand>)
    requires Ready(app, s, c, rest) && c.kind == ResumeScan && s.state == ProvisionalPlanReady
    ensures Agree(ReduceAll(app, Batch(s, c)), Next(s, c), rest)
  {
    hide Reduce;
    hide ReduceAll;
    hide Batch;
    DropPlanReply(s, c);
    hide Next;
    hide Answer;
    DropPlanSteps(app, c, rest, FixtureProgress(s.profile));
    RestFits(c, rest, s.state, Running);
    RestHasPending(c, rest);
    hide KindsFit;
    hide HasPending;
  }

  function PlanEvents(q: nat, id: nat): seq<UiEvent> {
    [Fact(q + 1, id, ControlAccepted(PauseAndBuildProvisionalPlan.Code(), BuildingProvisionalPlan.Code())),
     Fact(q + 2, id, ScanStateChanged(BuildingProvisionalPlan.Code(), PlanRequested)),
     Fact(q + 3, id, ScanStateChanged(ProvisionalPlanReady.Code(), PlanIsReady)),
     Fact(q + 4, id, PlanReady(PLAN))]
  }

  lemma PlanReply(s: Session, c: ControlCommand)
    requires s.requestIdHighWaterMark < c.requestId && c.kind == PauseAndBuildProvisionalPlan
    requires s.state == Running || s.state == Paused
    ensures Batch(s, c) == PlanEvents(s.eventSequence, c.requestId)
    ensures |Answer(s, EnvelopeOf(c)).bodies| == 4
    ensures Next(s, c) == s.(eventSequence := s.eventSequence + 4, requestIdHighWaterMark := c.requestId,
                             state := ProvisionalPlanReady, provisionalPlanId := Some(PLAN.planId))
  {
  }

  lemma PlanSteps(app: App, c: ControlCommand, rest: seq<ControlCommand>)
    requires app.terminal.None? && app.plan.None? && app.pending == Waiting([c] + rest) && c.requestId != 0
    requires c.kind == PauseAndBuildProvisionalPlan && (app.scanState == Running || app.scanState == Paused)
    requires app.lastEventSequence + 4 <= U64_MAX
    ensures ReduceAll(app, PlanEvents(app.lastEventSequence, c.requestId)) ==
      app.(lastEventSequence := app.lastEventSequence + 4, pending := Waiting(rest), scanState := ProvisionalPlanReady,
           plan := Some(PLAN), screen := PlanScreen, helpVisible := false,
           active := Some(ActiveRequest(c.requestId, c.kind, Steady)))
  {
    hide Reduce;
    hide PhaseAfter;
    Phases();
    var id, events := c.requestId, PlanEvents(app.lastEventSequence, c.requestId);
    AckStep(app, c, rest, BuildingProvisionalPlan);
    var a1 := Reduce(app, events[0]).0;
    ChangeStep(a1, id, BuildingProvisionalPlan, AwaitingPlanReadyState, PlanRequested);
    var a2 := Reduce(a1, events[1]).0;
    ChangeStep(a2, id, ProvisionalPlanReady, AwaitingPlanProjection, PlanIsReady);
    var a3 := Reduce(a2, events[2]).0;
    PlanStep(a3, id, PLAN);
    FourSteps(app, events[0], events[1], events[2], events[3]);
  }

  lemma PlanBatch(app: App, s: Session, c: ControlCommand, rest: seq<ControlCommand>)
    requires Ready(app, s, c, rest) && c.kind == PauseAndBuildProvisionalPlan
    requires s.state == Running || s.state == Paused
    ensures Agree(ReduceAll(app, Batch(s, c)), Next(s, c), rest)
  {
    hide Reduce;
    hide ReduceAll;
    hide Batch;
    PlanReply(s, c);
    hide Next;
    hide Answer;
    PlanSteps(app, c, rest);
    RestFits(c, rest, s.state, ProvisionalPlanReady);
    RestHasPending(c, rest);
    hide KindsFit;
    hide HasPending;
  }

  function CancelEvents(q: nat, id: nat): seq<UiEvent> {
    [Fact(q + 1, id, ControlAccepted(CancelScan.Code(), Cancelling.Code())),
     Fact(q + 2, id, ScanStateChanged(Cancelling.Code(), CancelAcknowledged)),
     Fact(q + 3, id, ScanStateChanged(Cancelled.Code(), ScanIsCancelled)),
     Fact(q + 4, id, ScanCancelled(CancelledByUser))]
  }

  lemma CancelReply(s: Session, c: ControlCommand)
    requires s.requestIdHighWaterMark < c.requestId && c.kind == CancelScan
    requires s.state == Running || s.state == Paused || s.state == ProvisionalPlanReady
    ensures Batch(s, c) == CancelEvents(s.eventSequence, c.requestId)
    ensures |Answer(s, EnvelopeOf(c)).bodies| == 4
  {
  }

  lemma CancelSteps(app: App, c: ControlCommand, rest: seq<ControlCommand>)
    requires app.terminal.None? && app.pending == Waiting([c] + rest) && c.requestId != 0 && c.kind == CancelScan
    requires app.scanState == Running || app.scanState == Paused || app.scanState == ProvisionalPlanReady
    requires app.lastEventSequence + 4 <= U64_MAX
    ensures ReduceAll(app, CancelEvents(app.lastEventSequence, c.requestId)).terminal ==
      Some(TerminalCancelled(CancelledByUser))
  {
    hide Reduce;
    hide PhaseAfter;
    Phases();
    var id, events := c.requestId, CancelEvents(app.lastEventSequence, c.requestId);
    AckStep(app, c, rest, Cancelling);
    var a1 := Reduce(app, events[0]).0;
    ChangeStep(a1, id, Cancelling, AwaitingCancelledState, CancelAcknowledged);
    var a2 := Reduce(a1, events[1]).0;
    ChangeStep(a2, id, Cancelled, AwaitingCancelledTerminal, ScanIsCancelled);
    var a3 := Reduce(a2, events[2]).0;
    CancelledStep(a3, id, CancelledByUser);
    FourSteps(app, events[0], events[1], events[2], events[3]);
  }

  lemma CancelBatch(app: App, s: Session, c: ControlCommand, rest: seq<ControlCommand>)
    requires Ready(app, s, c, rest) && c.kind == CancelScan
    requires s.state == Running || s.state == Paused || s.state == ProvisionalPlanReady
    ensures ReduceAll(app, Batch(s, c)).terminal == Some(TerminalCancelled(CancelledByUser))
  {
    hide Reduce;
    hide ReduceAll;
    hide Batch;
    CancelReply(s, c);
    hide Answer;
    CancelSteps(app, c, rest);
  }

  /** Everything else is refused for the state the client will be showing by then. */
  lemma RefusalBatch(app: App, s: Session, c: ControlCommand, rest: seq<ControlCommand>)
    requires Ready(app, s, c, rest) && c.kind != StartScan && c.kind != CancelScan
    requires c.kind == PauseScan ==> s.state != Running
    requires c.kind == ResumeScan ==> s.state == Running
    requires c.kind == PauseAndBuildProvisionalPlan ==> s.state == ProvisionalPlanReady
    ensures Agree(ReduceAll(app, Batch(s, c)), Next(s, c), rest)
    ensures Answer(s, EnvelopeOf(c)).bodies ==
      [ControlRejected(c.kind.Code(), InvalidState.Code(), ControlNotValidInState, s.state.Code())]
  {
    hide Reduce;
    hide HasPending;
    assert ([c] + rest)[0] == c;
    var q, id := s.eventSequence, c.requestId;
    var e1 := Fact(q + 1, id,
      ControlRejected(c.kind.Code(), InvalidState.Code(), ControlNotValidInState, s.state.Code()));
    assert Batch(s, c) == [e1] + [];
    RejectStep(app, c, rest, ControlNotValidInState);
    ReduceThen(app, e1, []);
    RestFits(c, rest, s.state, s.state);
    RestHasPending(c, rest);
    hide KindsFit;
  }

  /** Whatever the engine answers next, a client in agreement accepts the whole batch and is in
      agreement again, or the batch is the cancellation and the client shows exactly that. */
  lemma BatchIsAccepted(app: App, s: Session, c: ControlCommand, rest: seq<ControlCommand>)
    requires Ready(app, s, c, rest)
    ensures var after := ReduceAll(app, Batch(s, c));
      if ExitsAfter(Next(s, c), EnvelopeOf(c)) then after.terminal == Some(TerminalCancelled(CancelledByUser))
      else Agree(after, Next(s, c), rest)
  {
    hide Reduce;
    hide ReduceAll;
    hide Batch;
    assert ([c] + rest)[0] == c;
    match c.kind
    case StartScan => StartBatch(app, s, c, rest);
    case PauseScan =>
      if s.state == Running { PauseBatch(app, s, c, rest); } else { RefusalBatch(app, s, c, rest); }
    case ResumeScan =>
      if s.state == Paused { ResumeBatch(app, s, c, rest); }
      else if s.state == ProvisionalPlanReady { DropPlanBatch(app, s, c, rest); }
      else { RefusalBatch(app, s, c, rest); }
    case PauseAndBuildProvisionalPlan =>
      if s.state == ProvisionalPlanReady { RefusalBatch(app, s, c, rest); } else { PlanBatch(app, s, c, rest); }
    case CancelScan => CancelBatch(app, s, c, rest);
    case KindUnspecified =>
  }
}
