/** The composed system settles: without further keys only so many steps remain, none of them can
    be missing, and where they end client and engine agree or the cancellation is shown. */
module LoopProgress {
  import opened ScanProtocol
  import opened ScanEngine
  import opened ClientReducer
  import opened EventQueue
  import opened ControlLoop
  import opened LoopInvariant

  predicate Internal(a: Action) {
    !a.UserInput?
  }

  function DriverWeight(d: DriverState): nat {
    match d
    case Serving(_) => 4
    case ShuttingDown => 3
    case Returned(_) => 2
    case Reported => 0
  }

  /** A bound on the internal steps that are left. A queued entry is shown once; an emitted event
      is forwarded and shown; a request is handled and answered with at most four events. */
  function Remaining(s: System): nat {
    |s.queue.events| + 2 * |s.emitted| + 9 * |s.requests| + 10 * |s.commands| + DriverWeight(s.driver)
  }

  lemma SendGrowsByAtMostOne(q: Queue, e: UiEvent)
    ensures |Send(q, e).0.events| <= |q.events| + 1
  {
  }

  /** The reduction of an event from the driver sends at most a stop, and only when it fails. */
  lemma ShowingSendsNothing(s: System)
    requires Invariant(s)
    ensures Step(s, DisplayConsumes).commands == s.commands
    ensures s.queue.events == [] ==> Step(s, DisplayConsumes) == s
    ensures s.queue.events != [] ==> Step(s, DisplayConsumes).queue == Pop(s.queue).0
  {
    if s.queue.events != [] {
      var (queue, next) := Pop(s.queue);
      var (app, effects) := Reduce(s.app, next.event);
      if Healthy(s) {
        HealthyHasNotFailed(s);
        ConsumingKeepsHealthy(s);
        HealthyHasNotFailed(Step(s, DisplayConsumes));
        LoopSafety.EventsAskNothing(s.app, next.event);
        if HasFailed(app) {
          FailingSurvivesEffects(s.(queue := queue, app := app), effects);
        }
      } else {
        assert effects == [];
      }
      CarryOutKeepsQueue(s.(queue := queue, app := app), effects);
      hide Healthy;
      hide Always;
      hide Reduce;
    }
  }

  lemma {:induction false} FailingSurvivesEffects(s: System, effects: seq<Effect>)
    requires HasFailed(s.app)
    ensures HasFailed(CarryOut(s, effects).app)
    decreases |effects|
  {
    if effects != [] {
      if ReceiverGone(s.driver) {
        FailingSurvivesEffects(NotDelivered(s), effects[1..]);
      } else {
        FailingSurvivesEffects(Delivered(s, effects[0]), effects[1..]);
      }
    }
  }

  /** Every internal step that does anything uses up part of the bound. */
  lemma InternalStepsUseUpTheBound(s: System, a: Action)
    requires Invariant(s) && Internal(a)
    ensures Step(s, a) == s || Remaining(Step(s, a)) < Remaining(s)
  {
    match a {
      case DriverTakesCommand => TakingUses(s);
      case EngineHandlesRequest => EngineUses(s);
      case DriverForwardsEvent => ForwardingUses(s);
      case DriverShutsDown(result) => ShuttingDownUses(s, result);
      case DriverReports => ReportingUses(s);
      case DisplayConsumes => DisplayUses(s);
    }
    hide Step;
    hide Remaining;
    hide Invariant;
  }

  lemma TakingUses(s: System)
    requires Bounded(s.queue)
    ensures Step(s, DriverTakesCommand) == s || Remaining(Step(s, DriverTakesCommand)) < Remaining(s)
  {
    hide Reduce;
    hide Handle;
    hide Send;
    hide Pop;
  }

  lemma EngineUses(s: System)
    requires Always(s)
    ensures Step(s, EngineHandlesRequest) == s || Remaining(Step(s, EngineHandlesRequest)) < Remaining(s)
  {
    hide Reduce;
    hide Handle;
    hide Send;
    hide Pop;
    if s.requests != [] {
      assert Unanswered(s)[0] == s.requests[0];
      ReplyIsClean(s.session, s.requests[0]);
    }
  }

  lemma ForwardingUses(s: System)
    requires Bounded(s.queue)
    ensures Step(s, DriverForwardsEvent) == s || Remaining(Step(s, DriverForwardsEvent)) < Remaining(s)
  {
    hide Reduce;
    hide Handle;
    hide Send;
    hide Pop;
    if s.emitted != [] {
      SendGrowsByAtMostOne(s.queue, Engine(Exact(s.emitted[0])));
    }
  }

  lemma ShuttingDownUses(s: System, result: ExitResult)
    requires Bounded(s.queue)
    ensures Step(s, DriverShutsDown(result)) == s || Remaining(Step(s, DriverShutsDown(result))) < Remaining(s)
  {
    hide Reduce;
    hide Handle;
    hide Send;
    hide Pop;
  }

  lemma ReportingUses(s: System)
    requires Bounded(s.queue)
    ensures Step(s, DriverReports) == s || Remaining(Step(s, DriverReports)) < Remaining(s)
  {
    hide Reduce;
    hide Handle;
    hide Send;
    hide Pop;
    if s.driver.Returned? {
      SendGrowsByAtMostOne(s.queue, DriverExited(s.driver.result));
    }
  }

  lemma DisplayUses(s: System)
    requires Invariant(s)
    ensures Step(s, DisplayConsumes) == s || Remaining(Step(s, DisplayConsumes)) < Remaining(s)
  {
    ShowingSendsNothing(s);
    if s.queue.events != [] {
      var (queue, next) := Pop(s.queue);
      var (app, effects) := Reduce(s.app, next.event);
      CarryOutKeepsQueue(s.(queue := queue, app := app), effects);
      hide Reduce;
    }
  }

  /** Nothing is in flight and the engine waits for a request. */
  predicate Idle?(s: System) {
    && !s.engineExited
    && s.commands == [] && s.requests == [] && s.emitted == [] && s.queue.events == []
  }

  /** The cancellation and the driver's orderly exit are shown; the application leaves. */
  predicate Over(s: System) {
    s.engineExited && s.queue.events == [] && s.app.driverExited && s.app.terminal == CANCELLED
  }

  /** Room left in the engine's event counter for everything that may still be answered. */
  predicate RoomForReplies(s: System) {
    s.session.eventSequence + 4 * (|s.requests| + |s.commands|) <= U64_MAX
  }

  /** Some internal step is possible unless the system has come to rest properly. */
  lemma NoDeadlock(s: System) returns (a: Action)
    requires Invariant(s) && Healthy(s) && RoomForReplies(s)
    ensures Internal(a)
    ensures Idle?(s) || Over(s) || Step(s, a) != s
  {
    a := DisplayConsumes;
    if s.queue.events != [] {
      ShowingSendsNothing(s);
      hide Step;
      assert Pop(s.queue).0 != s.queue;
    } else if s.driver.Serving? && s.emitted != [] {
      a := DriverForwardsEvent;
      EmptyQueueTakes(s);
    } else if s.driver.Serving? && s.commands == [] && !s.engineExited && s.requests != [] {
      a := EngineHandlesRequest;
      EngineAnswers(s);
    } else {
      a := if s.driver.ShuttingDown? then DriverShutsDown(ExitedOk)
           else if s.driver.Returned? then DriverReports else DriverTakesCommand;
      OthersMove(s);
    }
  }

  lemma EmptyQueueTakes(s: System)
    requires Healthy(s) && s.driver.Serving? && s.queue.events == [] && s.emitted != []
    ensures Step(s, DriverForwardsEvent) != s
  {
    hide Reduce;
    hide Handle;
    hide Agree;
    assert s.queue.semanticEvents == 0;
    ForwardingIsNotRefused(s);
  }

  lemma EngineAnswers(s: System)
    requires Always(s) && RoomForReplies(s) && !s.engineExited && s.requests != []
    ensures Step(s, EngineHandlesRequest) != s
  {
    hide Reduce;
    hide Handle;
    hide Answer;
    assert Unanswered(s)[0] == s.requests[0];
    ReplyIsClean(s.session, s.requests[0]);
  }

  /** With no event in flight: the driver takes a command, shuts down or reports, or all is at rest. */
  lemma OthersMove(s: System)
    requires Healthy(s) && s.queue.events == [] && (s.driver.Serving? ==> s.emitted == [])
    requires s.driver.Serving? && s.commands == [] && !s.engineExited ==> s.requests == []
    ensures s.driver.ShuttingDown? ==> Step(s, DriverShutsDown(ExitedOk)) != s
    ensures s.driver.Returned? ==> Step(s, DriverReports) != s
    ensures s.driver.Serving? && s.commands != [] ==> Step(s, DriverTakesCommand) != s
    ensures s.driver.Reported? || (s.driver.Serving? && s.commands == []) ==> Idle?(s) || Over(s)
  {
    hide Reduce;
    hide Handle;
    hide Agree;
    hide FreshIds;
    hide Settled;
    assert s.emitted == [] ==> InFlight(s) == [] && Prospect(s) == s.app;
  }

  lemma RoomIsKept(s: System, a: Action)
    requires Invariant(s) && Internal(a) && RoomForReplies(s)
    ensures RoomForReplies(Step(s, a))
  {
    hide Reduce;
    hide Handle;
    hide Send;
    hide Healthy;
    match a
    case EngineHandlesRequest =>
      if s.requests != [] {
        assert Unanswered(s)[0] == s.requests[0];
        ReplyIsClean(s.session, s.requests[0]);
      }
    case DisplayConsumes =>
      ShowingSendsNothing(s);
      var (queue, next) := Pop(s.queue);
      if next.Popped? {
        CarryOutKeepsQueue(s.(queue := queue, app := Reduce(s.app, next.event).0), Reduce(s.app, next.event).1);
      }
    case _ =>
  }

  ghost function RunFrom(s: System, actions: seq<Action>): System
    requires Bounded(s.queue)
    decreases |actions|
  {
    if actions == [] then s
    else
      StepKeepsBound(s, actions[0]);
      RunFrom(Step(s, actions[0]), actions[1..])
  }

  lemma InternalKeepsHealthy(s: System, a: Action)
    requires Invariant(s) && Healthy(s) && Internal(a)
    ensures Invariant(Step(s, a)) && Healthy(Step(s, a))
  {
    StepKeepsInvariant(s, a);
    match a
    case DriverTakesCommand => TakingCommandKeeps(s);
    case EngineHandlesRequest =>
      if !s.engineExited && s.requests != [] && !EngineTraps(s) {
        EngineKeepsHealthy(s);
      }
    case DriverForwardsEvent =>
      if s.driver.Serving? && s.emitted != [] {
        ForwardingKeepsHealthy(s);
      }
    case DriverShutsDown(result) => ShuttingDownKeeps(s, result);
    case DriverReports => ReportingKeepsHealthy(s);
    case DisplayConsumes => ConsumingKeepsHealthy(s);
    hide Healthy;
    hide Always;
  }

  /** Left to itself, a run that has not failed comes to rest within the bound: either everything
      is answered and shown, or the cancellation is. */
  lemma {:induction false} SettlesWithinTheBound(s: System) returns (actions: seq<Action>)
    requires Invariant(s) && Healthy(s) && RoomForReplies(s)
    ensures |actions| <= Remaining(s) && forall i :: 0 <= i < |actions| ==> Internal(actions[i])
    ensures Idle?(RunFrom(s, actions)) || Over(RunFrom(s, actions))
    ensures Invariant(RunFrom(s, actions)) && Healthy(RunFrom(s, actions))
    decreases Remaining(s)
  {
    hide Step;
    hide Healthy;
    if Idle?(s) || Over(s) {
      return [];
    }
    var a := NoDeadlock(s);
    InternalStepsUseUpTheBound(s, a);
    InternalKeepsHealthy(s, a);
    RoomIsKept(s, a);
    var rest := SettlesWithinTheBound(Step(s, a));
    actions := [a] + rest;
    assert actions[1..] == rest;
  }

  /** No schedule of internal steps can go on longer than the bound without repeating a state. */
  lemma {:induction false} NoScheduleOutlastsTheBound(s: System, actions: seq<Action>)
    requires Invariant(s)
    requires forall i :: 0 <= i < |actions| ==> Internal(actions[i])
    requires Bounded(s.queue) && Effective(s, actions)
    ensures |actions| <= Remaining(s)
    decreases |actions|
  {
    if actions != [] {
      InternalStepsUseUpTheBound(s, actions[0]);
      StepKeepsInvariant(s, actions[0]);
      hide Step;
      NoScheduleOutlastsTheBound(Step(s, actions[0]), actions[1..]);
    }
  }

  /** Each step of the schedule changes the system. */
  ghost predicate Effective(s: System, actions: seq<Action>)
    requires Bounded(s.queue)
    decreases |actions|
  {
    actions == [] ||
    (StepKeepsBound(s, actions[0]);
     Step(s, actions[0]) != s && Effective(Step(s, actions[0]), actions[1..]))
  }
}
