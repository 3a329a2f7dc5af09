/** The display is told that the event source has closed only after it has seen the end. */
module QueueEnd {
  import opened Wrappers
  import opened ScanProtocol
  import opened ScanEngine
  import opened ClientReducer
  import opened EventQueue
  import opened ControlLoop
  import opened LoopInvariant

  /** The end of the driver, as the display learns of it, leaves no run undecided. */
  lemma ExitEndsTheRun(app: App, result: ExitResult)
    ensures var (after, effects) := Reduce(app, DriverExited(result));
      && effects == [] && after.driverExited && after.terminal.Some?
      && (app.terminal.Some? && result == ExitedOk ==> after == app.(driverExited := true))
      && (app.terminal.None? || result.ExitedErr? ==> HasFailed(after) && after.scanState == ScanState.Failed)
      && (result.ExitedErr? ==> after.terminal == Some(TerminalFailed(DriverFault(result.detail))))
  {
  }

  /** The driver's exit is the last entry of the queue, or the display has seen it. */
  predicate EndIsKnown(s: System) {
    && !s.queue.receiverClosed
    && (s.queue.producerClosed <==> s.driver.Reported?)
    && (s.driver.Reported? && !Ended(s.app) ==>
          s.queue.events != [] && s.queue.events[|s.queue.events| - 1].DriverExited?)
  }

  predicate Ended(app: App) {
    app.driverExited && app.terminal.Some?
  }

  /** Once ended, always ended. */
  lemma EndStays(app: App, event: UiEvent)
    requires Ended(app)
    ensures Ended(Reduce(app, event).0)
  {
    hide ReduceEngineEvent;
  }

  lemma {:induction false} CarryingOutKeepsEnd(s: System, effects: seq<Effect>)
    ensures Ended(s.app) ==> Ended(CarryOut(s, effects).app)
    decreases |effects|
  {
    if effects != [] {
      if ReceiverGone(s.driver) {
        CarryingOutKeepsEnd(NotDelivered(s), effects[1..]);
      } else {
        CarryingOutKeepsEnd(Delivered(s, effects[0]), effects[1..]);
      }
    }
  }

  lemma InputKeepsEnd(s: System, key: Key, kind: KeyEventKind)
    requires Bounded(s.queue) && EndIsKnown(s)
    ensures EndIsKnown(Step(s, UserInput(key, kind)))
  {
    hide Bounded;
    var (app, effects) := Reduce(s.app, KeyEvent(key, kind));
    if Ended(s.app) { EndStays(s.app, KeyEvent(key, kind)); }
    hide Reduce;
    CarryOutKeepsQueue(s.(app := app), effects);
    CarryingOutKeepsEnd(s.(app := app), effects);
    hide CarryOut;
  }

  lemma ConsumingKeepsEnd(s: System)
    requires Bounded(s.queue) && EndIsKnown(s)
    ensures EndIsKnown(Step(s, DisplayConsumes))
  {
    TakingAnswers(s.queue);
    hide Bounded;
    if s.queue.events != [] {
      var (queue, next) := Pop(s.queue);
      hide Pop;
      var (app, effects) := Reduce(s.app, next.event);
      if Ended(s.app) { EndStays(s.app, next.event); }
      if next.event.DriverExited? { ExitEndsTheRun(s.app, next.event.result); }
      hide Reduce;
      CarryOutKeepsQueue(s.(queue := queue, app := app), effects);
      CarryingOutKeepsEnd(s.(queue := queue, app := app), effects);
      hide CarryOut;
    }
  }

  lemma ForwardingKeepsEnd(s: System)
    requires Bounded(s.queue) && EndIsKnown(s)
    ensures EndIsKnown(Step(s, DriverForwardsEvent))
  {
    hide Bounded;
    hide Reduce;
    hide Merge;
  }

  lemma ReportingKeepsEnd(s: System)
    requires Bounded(s.queue) && EndIsKnown(s)
    ensures EndIsKnown(Step(s, DriverReports))
  {
    hide Bounded;
    hide Step;
    ReportIs(s);
  }

  lemma StepKeepsEnd(s: System, a: Action)
    requires Bounded(s.queue) && EndIsKnown(s)
    ensures EndIsKnown(Step(s, a))
  {
    match a {
      case UserInput(key, kind) => InputKeepsEnd(s, key, kind);
      case DriverTakesCommand =>
      case EngineHandlesRequest =>
      case DriverForwardsEvent => ForwardingKeepsEnd(s);
      case DriverShutsDown(_) =>
      case DriverReports => ReportingKeepsEnd(s);
      case DisplayConsumes => ConsumingKeepsEnd(s);
    }
    hide Reduce;
    hide Handle;
    hide Forward;
    hide Bounded;
  }

  lemma {:induction false} EveryRunKnowsItsEnd(capacity: nat, actions: seq<Action>)
    requires 0 < capacity
    ensures EndIsKnown(RunOf(capacity, actions))
    decreases |actions|
  {
    hide Step;
    if actions != [] {
      EveryRunKnowsItsEnd(capacity, actions[..|actions| - 1]);
      StepKeepsEnd(RunOf(capacity, actions[..|actions| - 1]), actions[|actions| - 1]);
    }
  }

  /** In every interleaving the source is closed for the display exactly when the driver has reported
      its exit and every entry has been taken. By then the display has shown that exit, so no live
      scan ends in a closed source; until then the display waits. */
  lemma ClosedSourceIsTheEnd(capacity: nat, actions: seq<Action>)
    requires 0 < capacity
    ensures var s := RunOf(capacity, actions);
      && (Pop(s.queue).1 == SourceClosed <==> s.driver.Reported? && s.queue.events == [])
      && (Pop(s.queue).1 == WaitsForEvent <==> !s.driver.Reported? && s.queue.events == [])
      && (Pop(s.queue).1 == SourceClosed ==> s.app.driverExited && s.app.terminal.Some?)
  {
    EveryRunKnowsItsEnd(capacity, actions);
    TakingAnswers(RunOf(capacity, actions).queue);
    hide RunOf;
    hide Pop;
  }
}
