/** What the reducer keeps whatever the engine sends: no assumption is made on the events. */
module ReducerInvariants {
  import opened Wrappers
  import opened ScanProtocol
  import opened ClientReducer

  /** Identifiers of waiting controls: non-zero, strictly increasing, below the next one. */
  predicate IdsOrdered(pending: seq<PendingControl>, next: nat) {
    && (forall i :: 0 <= i < |pending| ==> 0 < pending[i].requestId < next)
    && (forall i, j :: 0 <= i < j < |pending| ==> pending[i].requestId < pending[j].requestId)
  }

  predicate OnePerKind(pending: seq<PendingControl>) {
    forall i, j :: 0 <= i < j < |pending| ==> pending[i].kind != pending[j].kind
  }

  predicate Cancelling?(active: Option<ActiveRequest>) {
    active.Some? && active.value.kind == CancelScan
  }

  /** The displayed scan state is the one the phase of the active request stands for. */
  predicate PhaseFits(active: Option<ActiveRequest>, scanState: ScanState) {
    match active
    case None => scanState == Idle
    case Some(a) =>
      match a.kind
      case StartScan => (a.phase == AwaitingStateConfirmation || a.phase == Steady) && scanState == Running
      case PauseScan => (a.phase == AwaitingStateConfirmation || a.phase == Steady) && scanState == Paused
      case ResumeScan =>
        && scanState == Running
        && (a.phase == AwaitingInvalidation || a.phase == AwaitingResumeState
            || a.phase == AwaitingResumeProgress || a.phase == Steady)
      case PauseAndBuildProvisionalPlan =>
        || ((a.phase == AwaitingStateConfirmation || a.phase == AwaitingPlanReadyState)
            && scanState == BuildingProvisionalPlan)
        || ((a.phase == AwaitingPlanProjection || a.phase == Steady)
            && scanState == ProvisionalPlanReady)
      case CancelScan =>
        || ((a.phase == AwaitingStateConfirmation || a.phase == AwaitingCancelledState)
            && scanState == ScanState.Cancelling)
        || (a.phase == AwaitingCancelledTerminal && scanState == Cancelled)
      case KindUnspecified => false
  }

  predicate Sound(app: App) {
    && (app.screen == PlanScreen <==> app.plan.Some?)
    && IdsOrdered(app.pending, app.nextRequestId)
    && OnePerKind(app.pending)
    && (app.cancelRequested <==> HasPending(app.pending, CancelScan) || Cancelling?(app.active))
    && !(HasPending(app.pending, CancelScan) && Cancelling?(app.active))
    && (app.terminal.None? ==> PhaseFits(app.active, app.scanState))
    && 0 < app.nextRequestId <= U64_MAX
    && app.lastEventSequence <= U64_MAX
  }

  function Without(pending: seq<PendingControl>, i: nat): (rest: seq<PendingControl>)
    requires i < |pending|
    ensures |rest| == |pending| - 1
    ensures forall j :: 0 <= j < i ==> rest[j] == pending[j]
    ensures forall j :: i <= j < |rest| ==> rest[j] == pending[j + 1]
  {
    pending[..i] + pending[i + 1..]
  }

  lemma WithoutKeepsOrder(pending: seq<PendingControl>, i: nat, next: nat)
    requires i < |pending| && IdsOrdered(pending, next) && OnePerKind(pending)
    ensures IdsOrdered(Without(pending, i), next) && OnePerKind(Without(pending, i))
  {
  }

  /** Taking one control out removes its kind and no other. */
  lemma WithoutRemovesOneKind(pending: seq<PendingControl>, i: nat, kind: ControlKind)
    requires i < |pending| && OnePerKind(pending)
    ensures HasPending(Without(pending, i), kind) <==> HasPending(pending, kind) && kind != pending[i].kind
  {
    var rest := Without(pending, i);
    if HasPending(rest, kind) {
      var j :| 0 <= j < |rest| && rest[j].kind == kind;
      assert pending[if j < i then j else j + 1].kind == kind;
    }
    if HasPending(pending, kind) && kind != pending[i].kind {
      var j :| 0 <= j < |pending| && pending[j].kind == kind;
      assert rest[if j < i then j else j - 1].kind == kind;
    }
  }

  lemma AskingKeepsSound(app: App, kind: ControlKind)
    requires Sound(app) && !Suppressed(app, kind) && app.nextRequestId < U64_MAX
    ensures Sound(Asked(app, kind))
  {
    var asked := Asked(app, kind);
    assert asked.pending[|app.pending|].kind == kind;
    assert forall k :: HasPending(asked.pending, k) <==> HasPending(app.pending, k) || k == kind by {
      forall k ensures HasPending(asked.pending, k) <==> HasPending(app.pending, k) || k == kind {
        if HasPending(app.pending, k) {
          var j :| 0 <= j < |app.pending| && app.pending[j].kind == k;
          assert asked.pending[j].kind == k;
        }
      }
    }
  }

  /** What acknowledging or rejecting the control at position `i` does to the waiting list. */
  lemma SettlingOne(app: App, i: nat)
    requires Sound(app) && i < |app.pending|
    ensures var rest := Without(app.pending, i);
      && IdsOrdered(rest, app.nextRequestId) && OnePerKind(rest)
      && (HasPending(rest, CancelScan) <==> HasPending(app.pending, CancelScan) && app.pending[i].kind != CancelScan)
      && (app.pending[i].kind == CancelScan ==> HasPending(app.pending, CancelScan))
  {
    WithoutKeepsOrder(app.pending, i, app.nextRequestId);
    WithoutRemovesOneKind(app.pending, i, CancelScan);
  }

  lemma FailKeepsSound(app: App, error: ProtocolError)
    requires Sound(app)
    ensures Sound(Fail(app, error).0)
  {
  }

  function Acked(app: App, i: nat, next: ScanState): App
    requires i < |app.pending|
  {
    var p := app.pending[i];
    app.(pending := Without(app.pending, i),
         active := Some(ActiveRequest(p.requestId, p.kind, FirstPhase(p.kind, app.plan))),
         scanState := next)
  }

  lemma AckedIsSound(app: App, i: nat, next: ScanState)
    requires Sound(app) && app.terminal.None? && i < |app.pending|
    requires AcceptedTransitionIsValid(app.pending[i].kind, app.scanState, next)
    ensures Sound(Acked(app, i, next))
  {
    SettlingOne(app, i);
    AckTransition(app, app.pending[i].kind, next);
    hide AcceptedTransitionIsValid;
    hide IdsOrdered;
    hide OnePerKind;
  }

  lemma AckKeepsSound(app: App, id: nat, control: int, resulting: int)
    requires Sound(app) && app.terminal.None?
    ensures Sound(ReduceAccepted(app, id, control, resulting).0)
  {
    hide Sound;
    var i := PendingIndex(app.pending, id);
    var (after, effects) := ReduceAccepted(app, id, control, resulting);
    if effects == [] {
      AckedIsSound(app, i, DecodeState(resulting).value);
      assert after == Acked(app, i, DecodeState(resulting).value);
    } else {
      var error :| Fail(app, error) == (after, effects);
      FailKeepsSound(app, error);
    }
  }

  /** An acknowledged transition starts a phase that fits, and never follows a cancel. */
  lemma AckTransition(app: App, kind: ControlKind, next: ScanState)
    requires PhaseFits(app.active, app.scanState) && AcceptedTransitionIsValid(kind, app.scanState, next)
    ensures PhaseFits(Some(ActiveRequest(0, kind, FirstPhase(kind, app.plan))), next)
    ensures !Cancelling?(app.active)
  {
  }

  function Refused(app: App, i: nat): App
    requires i < |app.pending|
  {
    app.(pending := Without(app.pending, i),
         cancelRequested := app.cancelRequested && app.pending[i].kind != CancelScan)
  }

  lemma RefusedIsSound(app: App, i: nat)
    requires Sound(app) && app.terminal.None? && i < |app.pending|
    ensures Sound(Refused(app, i))
  {
    SettlingOne(app, i);
    hide IdsOrdered;
    hide OnePerKind;
  }

  lemma RejectionKeepsSound(app: App, id: nat, control: int, code: int, current: int)
    requires Sound(app) && app.terminal.None?
    ensures Sound(ReduceRejected(app, id, control, code, current).0)
  {
    hide Sound;
    var i := PendingIndex(app.pending, id);
    var (after, effects) := ReduceRejected(app, id, control, code, current);
    if effects == [] {
      RefusedIsSound(app, i);
      assert after == Refused(app, i);
    } else {
      var error :| Fail(app, error) == (after, effects);
      FailKeepsSound(app, error);
    }
  }

  /** All that an event about an acknowledged request may change. */
  predicate FactShape(app: App, after: App) {
    && after.pending == app.pending && after.nextRequestId == app.nextRequestId
    && after.lastEventSequence == app.lastEventSequence && after.cancelRequested == app.cancelRequested
    && Cancelling?(after.active) == Cancelling?(app.active)
    && (app.screen == PlanScreen <==> app.plan.Some?)
    && (after.screen == PlanScreen <==> after.plan.Some?)
    && (after.terminal.None? ==> PhaseFits(after.active, after.scanState))
  }

  lemma VerdictHasShape(app: App, a: ActiveRequest, v: Verdict)
    requires (app.screen == PlanScreen <==> app.plan.Some?) && app.terminal.None? && app.active == Some(a)
    requires v.Moves? ==> PhaseFits(Some(a.(phase := v.phase)), v.state)
    requires v.Reports? || v.Projects? ==> PhaseFits(Some(a.(phase := Steady)), app.scanState)
    requires v.Invalidates? ==> PhaseFits(Some(a.(phase := AwaitingResumeState)), app.scanState)
    ensures FactShape(app, Apply(app, a, v).0)
  {
    hide PhaseFits;
  }

  lemma FactHasShape(app: App, fact: EventBody)
    requires (app.screen == PlanScreen <==> app.plan.Some?) && app.terminal.None? && app.active.Some?
    requires PhaseFits(app.active, app.scanState)
    ensures FactShape(app, ReduceOriginEvent(app, app.active.value, fact).0)
  {
    hide Judge;
    hide Apply;
    hide PhaseFits;
    hide FactShape;
    var a := app.active.value;
    VerdictFits(a, app.scanState, app.plan, fact);
    VerdictHasShape(app, a, Judge(app.scanState, app.plan, a, fact));
  }

  /** A verdict that moves the phase moves it to one that fits the state shown with it. */
  lemma VerdictFits(a: ActiveRequest, shown: ScanState, plan: Option<Plan>, fact: EventBody)
    requires PhaseFits(Some(a), shown)
    ensures var v := Judge(shown, plan, a, fact);
      && (v.Moves? ==> PhaseFits(Some(a.(phase := v.phase)), v.state))
      && (v.Reports? || v.Projects? ==> PhaseFits(Some(a.(phase := Steady)), shown))
      && (v.Invalidates? ==> PhaseFits(Some(a.(phase := AwaitingResumeState)), shown))
  {
    hide DecodeState;
  }

  lemma FactKeepsSound(app: App, fact: EventBody)
    requires Sound(app) && app.terminal.None? && app.active.Some?
    ensures Sound(ReduceOriginEvent(app, app.active.value, fact).0)
  {
    FactHasShape(app, fact);
    hide ReduceOriginEvent;
    hide PhaseFits;
  }

  lemma HelpKeepsSound(app: App, help: bool)
    requires Sound(app)
    ensures Sound(app.(helpVisible := help))
  {
    hide IdsOrdered;
    hide OnePerKind;
    hide HasPending;
    hide PhaseFits;
  }

  lemma KeyKeepsSound(app: App, key: Key, kind: KeyEventKind)
    requires Sound(app)
    ensures Sound(ReduceKey(app, key, kind).0)
  {
    hide Sound;
    hide Suppressed;
    hide Asked;
    hide Fail;
    hide Requested;
    HelpKeepsSound(app, !app.helpVisible);
    FailKeepsSound(app, RequestIdsExhausted);
    var wanted := Requested(app, key);
    if wanted.Some? && !Suppressed(app, wanted.value) && app.nextRequestId < U64_MAX {
      AskingKeepsSound(app, wanted.value);
    }
  }

  lemma BodyKeepsSound(app: App, id: nat, body: Option<EventBody>)
    requires Sound(app) && app.terminal.None?
    ensures Sound(ReduceBody(app, id, body).0)
  {
    hide Sound;
    hide ReduceOriginEvent;
    hide ReduceAccepted;
    hide ReduceRejected;
    FailKeepsSound(app, EmptyEvent);
    FailKeepsSound(app, ZeroOrigin);
    FailKeepsSound(app, NoAcknowledgedOrigin);
    FailKeepsSound(app, OriginMismatch);
    if body.Some? {
      var b := body.value;
      if b.ControlAccepted? {
        AckKeepsSound(app, id, b.acceptedControl, b.resultingState);
      } else if b.ControlRejected? {
        RejectionKeepsSound(app, id, b.rejectedControl, b.code, b.currentState);
      } else if app.active.Some? {
        FactKeepsSound(app, b);
      }
    }
  }

  /** Every event, however hostile, keeps the displayed state consistent. */
  lemma ReduceKeepsSound(app: App, event: UiEvent)
    requires Sound(app)
    ensures Sound(Reduce(app, event).0)
  {
    hide ReduceBody;
    hide ReduceKey;
    match event
    case KeyEvent(key, kind) => KeyKeepsSound(app, key, kind);
    case Engine(d) =>
      if app.terminal.None? && SequenceError(app.lastEventSequence, d).None? {
        BodyKeepsSound(app.(lastEventSequence := d.event.eventSequence), d.event.requestId, d.event.body);
      }
    case _ =>
  }

  lemma {:induction false} RunKeepsSound(app: App, events: seq<UiEvent>)
    requires Sound(app)
    ensures Sound(ReduceAll(app, events))
    decreases |events|
  {
    if events != [] {
      ReduceKeepsSound(app, events[0]);
      RunKeepsSound(Reduce(app, events[0]).0, events[1..]);
    }
  }

  /** From start-up on, through any keys and any events at all. */
  lemma EveryReachableStateIsSound(events: seq<UiEvent>)
    ensures Sound(ReduceAll(DEFAULT, events))
  {
    RunKeepsSound(DEFAULT, events);
  }

  // ------------------------------------------------- identifiers over a whole run

  function SentIds(effects: seq<Effect>): seq<nat> {
    if effects == [] then [] else SentId(effects[0]) + SentIds(effects[1..])
  }

  function SentId(effect: Effect): seq<nat> {
    if effect.SendControl? then [effect.command.requestId] else []
  }

  lemma {:induction false} SentIdsConcat(a: seq<Effect>, b: seq<Effect>)
    ensures SentIds(a + b) == SentIds(a) + SentIds(b)
  {
    hide SentId;
    if a == [] {
      assert a + b == b;
    } else {
      assert (a + b)[1..] == a[1..] + b;
      SentIdsConcat(a[1..], b);
      ConcatAssociates(SentId(a[0]), SentIds(a[1..]), SentIds(b));
    }
  }

  /** The step sends no control and takes no identifier. */
  predicate Silent(app: App, step: (App, seq<Effect>)) {
    (step.1 == [] || step.1 == [StopDriver]) && step.0.nextRequestId == app.nextRequestId
  }

  lemma AckIsSilent(app: App, id: nat, control: int, resulting: int)
    ensures Silent(app, ReduceAccepted(app, id, control, resulting))
  {
    hide AckError;
    hide TakePending;
    hide FirstPhase;
    hide DecodeState;
  }

  lemma RejectionIsSilent(app: App, id: nat, control: int, code: int, current: int)
    ensures Silent(app, ReduceRejected(app, id, control, code, current))
  {
    hide RejectionError;
    hide TakePending;
  }

  lemma VerdictIsSilent(app: App, origin: ActiveRequest, v: Verdict)
    ensures Silent(app, Apply(app, origin, v))
  {
  }

  lemma FactIsSilent(app: App, id: nat, fact: EventBody)
    ensures Silent(app, ReduceFact(app, id, fact))
  {
    hide Judge;
    hide Apply;
    if app.active.Some? {
      VerdictIsSilent(app, app.active.value, Judge(app.scanState, app.plan, app.active.value, fact));
    }
  }

  lemma BodySendsNothing(app: App, id: nat, body: Option<EventBody>)
    ensures var (next, effects) := ReduceBody(app, id, body);
      SentIds(effects) == [] && next.nextRequestId == app.nextRequestId
  {
    hide ReduceAccepted;
    hide ReduceRejected;
    hide ReduceFact;
    if body.Some? {
      var b := body.value;
      if b.ControlAccepted? { AckIsSilent(app, id, b.acceptedControl, b.resultingState); }
      else if b.ControlRejected? { RejectionIsSilent(app, id, b.rejectedControl, b.code, b.currentState); }
      else { FactIsSilent(app, id, b); }
    }
    assert Silent(app, ReduceBody(app, id, body));
  }

  lemma ReduceSends(app: App, event: UiEvent)
    requires app.nextRequestId <= U64_MAX
    ensures var (next, effects) := Reduce(app, event);
      var ids := SentIds(effects);
      && ids == (if next.nextRequestId == app.nextRequestId then [] else [app.nextRequestId])
      && next.nextRequestId == app.nextRequestId + |ids| <= U64_MAX
  {
    if event.Engine? {
      BodySendsNothing(app.(lastEventSequence := event.delivery.event.eventSequence),
                       event.delivery.event.requestId, event.delivery.event.body);
    }
    hide ReduceBody;
  }

  /** The controls a run sends are numbered consecutively from the next identifier: no number
      is reused or skipped, whatever happened to earlier controls. */
  lemma {:induction false} SentIdsAreConsecutive(app: App, events: seq<UiEvent>)
    requires app.nextRequestId <= U64_MAX
    ensures var ids := SentIds(EffectsOf(app, events));
      && (forall i :: 0 <= i < |ids| ==> ids[i] == app.nextRequestId + i)
      && ReduceAll(app, events).nextRequestId == app.nextRequestId + |ids|
    decreases |events|
  {
    if events != [] {
      hide Reduce;
      var (next, effects) := Reduce(app, events[0]);
      ReduceSends(app, events[0]);
      SentIdsAreConsecutive(next, events[1..]);
      SentIdsConcat(effects, EffectsOf(next, events[1..]));
    }
  }

  // -------------------------------------------------------- cancellation is final

  predicate CancelUnderway(app: App) {
    Cancelling?(app.active) && (app.terminal.None? ==> PhaseFits(app.active, app.scanState))
    && (app.terminal.Some? ==> !app.terminal.value.TerminalFinished?)
  }

  /** What a cancel under way protects from one state to the next. */
  predicate CancelShape(app: App, after: App)
    requires app.active.Some?
  {
    && CancelUnderway(after)
    && after.plan == app.plan && after.progress == app.progress && after.screen == app.screen
    && after.active.value.requestId == app.active.value.requestId
  }

  lemma CancelFact(app: App, fact: EventBody)
    requires CancelUnderway(app) && app.terminal.None?
    ensures var after := ReduceOriginEvent(app, app.active.value, fact).0;
      && CancelShape(app, after) && after.pending == app.pending
      && (after.terminal.None? ==> PhaseBudget(after) < PhaseBudget(app))
  {
    CancelVerdict(app.active.value, app.scanState, app.plan, fact);
    hide Judge;
    hide PhaseFits;
  }

  /** While cancelling, an event moves the cancellation on, ends it, or breaks the protocol. */
  lemma CancelVerdict(a: ActiveRequest, shown: ScanState, plan: Option<Plan>, fact: EventBody)
    requires a.kind == CancelScan && PhaseFits(Some(a), shown)
    ensures var v := Judge(shown, plan, a, fact);
      && (v.Breaks? || v.Ends? || v.Moves?)
      && (v.Ends? ==> !v.terminal.TerminalFinished?)
      && (v.Moves? ==> PhaseFits(Some(a.(phase := v.phase)), v.state) && PhaseRank(v.phase) < PhaseRank(a.phase))
  {
    hide DecodeState;
  }

  function PhaseRank(phase: RequestPhase): nat {
    match phase
    case AwaitingStateConfirmation => 3
    case AwaitingCancelledState => 2
    case _ => 1
  }

  lemma CancelAck(app: App, id: nat, control: int, resulting: int)
    requires CancelUnderway(app) && app.terminal.None?
    ensures HasFailed(ReduceAccepted(app, id, control, resulting).0)
    ensures CancelShape(app, ReduceAccepted(app, id, control, resulting).0)
  {
    hide DecodeState;
    hide TakePending;
    hide FirstPhase;
  }

  lemma TakingShrinks(pending: seq<PendingControl>, id: nat)
    ensures PendingIndex(pending, id) < |pending| ==> |TakePending(pending, id)| == |pending| - 1
  {
  }

  lemma CancelRejection(app: App, id: nat, control: int, code: int, current: int)
    requires CancelUnderway(app) && app.terminal.None?
    ensures var after := ReduceRejected(app, id, control, code, current).0;
      && CancelShape(app, after)
      && (HasFailed(after) || (PhaseBudget(after) == PhaseBudget(app) && |after.pending| < |app.pending|))
  {
    hide RejectionError;
    hide PhaseFits;
    hide TakePending;
    hide PendingIndex;
    TakingShrinks(app.pending, id);
  }

  lemma CancelBody(app: App, id: nat, body: Option<EventBody>)
    requires CancelUnderway(app) && app.terminal.None?
    ensures var after := ReduceBody(app, id, body).0;
      && CancelShape(app, after)
      && CancelBudget(after) < CancelBudget(app)
  {
    hide ReduceAccepted;
    hide ReduceRejected;
    hide ReduceOriginEvent;
    hide PhaseFits;
    if body.Some? {
      var b := body.value;
      if b.ControlAccepted? {
        CancelAck(app, id, b.acceptedControl, b.resultingState);
      } else if b.ControlRejected? {
        CancelRejection(app, id, b.rejectedControl, b.code, b.currentState);
      } else {
        CancelFact(app, b);
      }
    }
  }

  lemma CancelStep(app: App, event: UiEvent)
    requires CancelUnderway(app)
    ensures var after := Reduce(app, event).0;
      && CancelShape(app, after)
      && (event.KeyEvent? || CancelBudget(after) <= CancelBudget(app))
      && (event.Engine? && CancelBudget(app) > 0 ==> CancelBudget(after) < CancelBudget(app))
  {
    if event.Engine? && app.terminal.None? {
      var seen := app.(lastEventSequence := event.delivery.event.eventSequence);
      CancelBody(seen, event.delivery.event.requestId, event.delivery.event.body);
      assert CancelBudget(seen) == CancelBudget(app);
    }
    hide ReduceBody;
    hide PhaseFits;
  }

  /** Once a cancel is acknowledged no event and no key changes the plan or the progress shown,
      lets another request take over, or makes the scan end as finished. */
  lemma {:induction false} CancelIsFinal(app: App, events: seq<UiEvent>)
    requires CancelUnderway(app)
    ensures CancelShape(app, ReduceAll(app, events))
    decreases |events|
  {
    if events != [] {
      CancelStep(app, events[0]);
      hide Reduce;
      CancelIsFinal(Reduce(app, events[0]).0, events[1..]);
    }
  }

  function PhaseBudget(app: App): nat
    requires app.active.Some?
  {
    PhaseRank(app.active.value.phase)
  }

  /** Engine events that an acknowledged cancel still allows before the run must have ended. */
  function CancelBudget(app: App): nat
    requires CancelUnderway(app)
  {
    if app.terminal.Some? then 0 else PhaseBudget(app) + |app.pending|
  }

  function EngineEvents(events: seq<UiEvent>): nat {
    if events == [] then 0 else (if events[0].Engine? then 1 else 0) + EngineEvents(events[1..])
  }

  predicate NoKeys(events: seq<UiEvent>) {
    forall i :: 0 <= i < |events| ==> !events[i].KeyEvent?
  }

  /** At most three events plus one per waiting control are consumed before the run ends. */
  lemma {:induction false} CancelTerminates(app: App, events: seq<UiEvent>)
    requires CancelUnderway(app) && NoKeys(events)
    requires EngineEvents(events) >= CancelBudget(app)
    ensures CancelBudget(app) <= 3 + |app.pending|
    ensures ReduceAll(app, events).terminal.Some?
    decreases |events|
  {
    if app.terminal.Some? {
      CancelIsFinal(app, events);
      TerminalStays(app, events);
    } else {
      CancelStep(app, events[0]);
      hide Reduce;
      CancelTerminates(Reduce(app, events[0]).0, events[1..]);
    }
  }

  lemma {:induction false} TerminalStays(app: App, events: seq<UiEvent>)
    requires app.terminal.Some?
    ensures ReduceAll(app, events).terminal.Some?
    decreases |events|
  {
    if events != [] {
      TerminalStays(Reduce(app, events[0]).0, events[1..]);
    }
  }
}
