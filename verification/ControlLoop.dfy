/** The scan-control loop end to end: keys, the client's command channel, the request pipe, the
    engine, its event pipe, the driver, the coalescing queue and the reducer, all interleaved. */
module ControlLoop {
  import opened Wrappers
  import opened ScanProtocol
  import opened ScanEngine
  import opened ClientReducer
  import opened EventQueue

  datatype DriverCommand = Control(command: ControlCommand) | Stop

  /** Where the driver's worker thread stands. Its command receiver lives until it has returned
      from shutting the engine down; a command sent afterwards is an error at the sender. */
  datatype DriverState =
    | Serving(lastEventSequence: nat)
    | ShuttingDown
    | Returned(result: ExitResult)
    | Reported

  datatype System = System(
    app: App,
    commands: seq<DriverCommand>,   // channel from the display to the driver
    requests: seq<ControlCommand>,  // pipe from the driver to the engine
    session: Session,
    engineExited: bool,
    emitted: seq<EngineEvent>,      // pipe from the engine to the driver
    driver: DriverState,
    queue: Queue)

  datatype Action =
    | UserInput(key: Key, kind: KeyEventKind)
    | DriverTakesCommand
    | EngineHandlesRequest
    | DriverForwardsEvent
    | DriverShutsDown(result: ExitResult)
    | DriverReports
    | DisplayConsumes

  /** The driver connects, starts the scan as request 1, and only then serves commands. */
  function Init(capacity: nat): System {
    System(DEFAULT, [], [ControlCommand(1, StartScan)], INITIAL, false, [], Serving(0), Empty(capacity))
  }

  /** How the client frames a request: the envelope repeats the request's identifier. */
  function EnvelopeOf(c: ControlCommand): Envelope {
    if c.kind == StartScan then Envelope(c.requestId, StartScanRequest(c.requestId, "standard"))
    else Envelope(c.requestId, ScanControlRequest(c.requestId, c.kind.Code()))
  }

  predicate ReceiverGone(d: DriverState) {
    d.Returned? || d.Reported?
  }

  const SEND_FAILED := OtherWording("failed to send engine control: engine driver stopped")

  /** The application carries out the effects of one reduction. */
  function CarryOut(s: System, effects: seq<Effect>): System
    decreases |effects|
  {
    if effects == [] then s
    else if ReceiverGone(s.driver) then
      var told := ReduceDriverExit(s.app, ExitedErr(SEND_FAILED));
      CarryOut(s.(app := told.(terminal := Some(TerminalFailed(DriverFault(SEND_FAILED))))), effects[1..])
    else
      var command := if effects[0].SendControl? then Control(effects[0].command) else Stop;
      CarryOut(s.(commands := s.commands + [command]), effects[1..])
  }

  predicate EngineTraps(s: System)
    requires s.requests != []
  {
    !HasRoom(s.session, EnvelopeOf(s.requests[0]))
  }

  /** One step. An action that is not enabled leaves the system as it is. */
  function Step(s: System, a: Action): System
    requires Bounded(s.queue)
  {
    match a
    case UserInput(key, kind) =>
      var (app, effects) := Reduce(s.app, KeyEvent(key, kind));
      CarryOut(s.(app := app), effects)
    case DriverTakesCommand =>
      if !s.driver.Serving? || s.commands == [] then s
      else TakeCommand(s.(commands := s.commands[1..]), s.commands[0])
    case EngineHandlesRequest =>
      if s.engineExited || s.requests == [] || EngineTraps(s) then s
      else
        var e := EnvelopeOf(s.requests[0]);
        var (session, events) := Handle(s.session, e);
        s.(requests := s.requests[1..], session := session, emitted := s.emitted + events,
           engineExited := ExitsAfter(session, e))
    case DriverForwardsEvent =>
      if !s.driver.Serving? || s.emitted == [] then s else Forward(s, s.emitted[0])
    case DriverShutsDown(result) =>
      if !s.driver.ShuttingDown? then s
      else s.(driver := Returned(if s.engineExited && s.emitted == [] then ExitedOk else result))
    case DriverReports =>
      if !s.driver.Returned? then s
      else
        var (queue, sent) := Send(s.queue, DriverExited(s.driver.result));
        if sent == Blocked then s
        else s.(queue := queue.(producerClosed := true), driver := Reported)
    case DisplayConsumes =>
      var (queue, next) := Pop(s.queue);
      if !next.Popped? then s
      else
        var (app, effects) := Reduce(s.app, next.event);
        CarryOut(s.(queue := queue, app := app), effects)
  }

  function TakeCommand(s: System, c: DriverCommand): System {
    match c
    case Stop => s.(driver := ShuttingDown)
    case Control(command) =>
      if command.requestId == 0 then s.(driver := Returned(ExitedErr(OtherWording("request_id must be non-zero"))))
      else s.(requests := s.requests + [command])
  }

  /** The session checks the event's number; then the queue takes it, or the driver waits. */
  function Forward(s: System, e: EngineEvent): System
    requires s.driver.Serving? && s.emitted != []
  {
    if e.eventSequence != s.driver.lastEventSequence + 1 || e.eventSequence > U64_MAX then
      s.(driver := Returned(ExitedErr(OtherWording("event sequence mismatch"))))
    else
      var (queue, sent) := Send(s.queue, Engine(Exact(e)));
      if sent == Blocked then s
      else
        var next := if sent == Sent && !e.IsTerminal() then Serving(e.eventSequence) else ShuttingDown;
        s.(queue := queue, emitted := s.emitted[1..], driver := next)
  }

  lemma {:induction false} CarryOutKeepsQueue(s: System, effects: seq<Effect>)
    ensures var t := CarryOut(s, effects);
      && t == s.(app := t.app, commands := t.commands)
      && (effects == [] ==> t == s)
    decreases |effects|
  {
    if effects != [] {
      if ReceiverGone(s.driver) {
        var told := ReduceDriverExit(s.app, ExitedErr(SEND_FAILED));
        CarryOutKeepsQueue(s.(app := told.(terminal := Some(TerminalFailed(DriverFault(SEND_FAILED))))), effects[1..]);
      } else {
        var command := if effects[0].SendControl? then Control(effects[0].command) else Stop;
        CarryOutKeepsQueue(s.(commands := s.commands + [command]), effects[1..]);
      }
    }
  }

  lemma StepKeepsBound(s: System, a: Action)
    requires Bounded(s.queue)
    ensures Bounded(Step(s, a).queue)
  {
    match a
    case UserInput(key, kind) =>
      CarryOutKeepsQueue(s.(app := Reduce(s.app, KeyEvent(key, kind)).0), Reduce(s.app, KeyEvent(key, kind)).1);
    case DriverForwardsEvent =>
      if s.emitted != [] {
        SendKeepsBound(s.queue, Engine(Exact(s.emitted[0])));
      }
    case DriverReports =>
      if s.driver.Returned? {
        SendKeepsBound(s.queue, DriverExited(s.driver.result));
      }
    case DisplayConsumes =>
      PopKeepsBound(s.queue);
      var (queue, next) := Pop(s.queue);
      if next.Popped? {
        var (app, effects) := Reduce(s.app, next.event);
        CarryOutKeepsQueue(s.(queue := queue, app := app), effects);
      }
    case _ =>
  }

  /** The state after any interleaving of steps. */
  ghost function RunOf(capacity: nat, actions: seq<Action>): (s: System)
    requires 0 < capacity
    ensures Bounded(s.queue)
    decreases |actions|
  {
    if actions == [] then Init(capacity)
    else
      var s := RunOf(capacity, actions[..|actions| - 1]);
      StepKeepsBound(s, actions[|actions| - 1]);
      Step(s, actions[|actions| - 1])
  }

  // ------------------------------------------------------------ what is in flight

  function Raw(events: seq<EngineEvent>): (r: seq<UiEvent>)
    ensures |r| == |events|
    ensures forall i :: 0 <= i < |r| ==> r[i] == Engine(Exact(events[i]))
  {
    seq(|events|, i requires 0 <= i < |events| => Engine(Exact(events[i])))
  }

  function InFlight(s: System): seq<UiEvent> {
    s.queue.events + Raw(s.emitted)
  }

  /** What the display will show once everything already emitted has reached it. */
  function Prospect(s: System): App {
    ReduceAll(s.app, InFlight(s))
  }

  function CommandOf(c: DriverCommand): seq<ControlCommand> {
    if c.Control? then [c.command] else []
  }

  function Commanded(commands: seq<DriverCommand>): seq<ControlCommand> {
    if commands == [] then [] else CommandOf(commands[0]) + Commanded(commands[1..])
  }

  lemma {:induction false} CommandedConcat(a: seq<DriverCommand>, b: seq<DriverCommand>)
    ensures Commanded(a + b) == Commanded(a) + Commanded(b)
  {
    hide CommandOf;
    if a == [] {
      assert a + b == b;
    } else {
      assert (a + b)[1..] == a[1..] + b;
      CommandedConcat(a[1..], b);
      ConcatAssociates(CommandOf(a[0]), Commanded(a[1..]), Commanded(b));
    }
  }

  /** The requests that have not reached the engine yet, oldest first. */
  function Unanswered(s: System): seq<ControlCommand> {
    s.requests + Commanded(s.commands)
  }

  function Waiting(requests: seq<ControlCommand>): (w: seq<PendingControl>)
    ensures |w| == |requests|
    ensures forall i :: 0 <= i < |w| ==> w[i] == PendingControl(requests[i].requestId, requests[i].kind)
  {
    seq(|requests|, i requires 0 <= i < |requests| => PendingControl(requests[i].requestId, requests[i].kind))
  }

  // -------------------------------------------------------------- the invariant

  predicate ActiveFits(active: Option<ActiveRequest>, state: ScanState) {
    match state
    case Idle => active == None
    case Running =>
      && active.Some? && (active.value.kind == StartScan || active.value.kind == ResumeScan)
      && active.value.phase == Steady
    case Paused => active.Some? && active.value.kind == PauseScan && active.value.phase == Steady
    case ProvisionalPlanReady =>
      active.Some? && active.value.kind == PauseAndBuildProvisionalPlan && active.value.phase == Steady
    case _ => false
  }

  predicate KindsFit(requests: seq<ControlCommand>, state: ScanState) {
    && (forall i :: 0 <= i < |requests| ==>
          requests[i].kind != KindUnspecified && (requests[i].kind == StartScan ==> i == 0 && state == Idle))
    && (state == Idle ==> requests != [] && requests[0].kind == StartScan)
  }

  /** Client and engine describe the same scan, with `requests` still to be answered. */
  predicate Agree(app: App, s: Session, requests: seq<ControlCommand>) {
    && app.terminal.None?
    && app.scanState == s.state
    && app.lastEventSequence == s.eventSequence
    && app.pending == Waiting(requests)
    && (app.screen == PlanScreen <==> app.plan.Some?)
    && (app.plan.Some? <==> s.state == ProvisionalPlanReady)
    && s.provisionalPlanId == (if app.plan.Some? then Some(app.plan.value.planId) else None)
    && ActiveFits(app.active, s.state)
    && (app.cancelRequested <==> HasPending(app.pending, CancelScan))
    && KindsFit(requests, s.state)
  }

  /** Requests reach the engine under fresh, increasing identifiers. Holds in every run. */
  predicate FreshIds(s: System) {
    var ids := Unanswered(s);
    && (forall i :: 0 <= i < |ids| ==>
          s.session.requestIdHighWaterMark < ids[i].requestId < s.app.nextRequestId)
    && (forall i, j :: 0 <= i < j < |ids| ==> ids[i].requestId < ids[j].requestId)
    && s.session.requestIdHighWaterMark < s.app.nextRequestId <= U64_MAX
  }

  predicate Numbered(s: System) {
    s.driver.Serving? ==>
      && s.session.eventSequence == s.driver.lastEventSequence + |s.emitted|
      && (forall i :: 0 <= i < |s.emitted| ==>
            s.emitted[i].eventSequence == s.driver.lastEventSequence + 1 + i)
      && s.session.eventSequence <= U64_MAX
      && (s.queue.events != [] ==>
            var last := s.queue.events[|s.queue.events| - 1];
            && last.Engine?
            && last.delivery.skipped <= last.delivery.event.eventSequence == s.driver.lastEventSequence)
  }

  /** The only terminal event is the engine's own last word, and the driver stops on it. */
  predicate EndsWithCancellation(s: System) {
    && (forall i :: 0 <= i < |s.emitted| && s.emitted[i].IsTerminal() ==> i == |s.emitted| - 1 && s.engineExited)
    && (s.driver.Serving? && s.engineExited ==> s.emitted != [] && s.emitted[|s.emitted| - 1].IsTerminal())
    && (!s.driver.Serving? ==> s.engineExited && s.emitted == [])
    && (s.driver.Returned? ==> s.driver.result == ExitedOk)
    && !s.queue.receiverClosed
    && (s.driver.Reported? <==> s.queue.producerClosed)
  }

  predicate NoStop(commands: seq<DriverCommand>) {
    forall i :: 0 <= i < |commands| ==> commands[i].Control?
  }

  const CANCELLED: Option<TerminalState> := Some(TerminalCancelled(CancelledByUser))

  /** The inductive invariant of a run that has not failed. */
  predicate Healthy(s: System) {
    && Bounded(s.queue)
    && Settled(s.session)
    && FreshIds(s)
    && Numbered(s)
    && EndsWithCancellation(s)
    && NoStop(s.commands)
    && !HasFailed(Prospect(s))
    && (if s.engineExited then Prospect(s).terminal == CANCELLED else Agree(Prospect(s), s.session, Unanswered(s)))
    && (s.driver.Reported? ==> Prospect(s).driverExited)
  }

  /** The two ways, both on the client's own side, in which a run can fail. */
  predicate FailedOnItsOwn(s: System) {
    && HasFailed(s.app)
    && var f := s.app.terminal.value.failure;
       && (f == Protocol(RequestIdsExhausted) || f.DriverFault?)
       && (s.app.nextRequestId >= U64_MAX || ReceiverGone(s.driver))
  }
}
