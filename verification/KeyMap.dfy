/** What the keys of the display do, and where a press leads once the engine has answered. */
module KeyMap {
  import opened Wrappers
  import opened ScanProtocol
  import opened ScanEngine
  import opened ClientReducer
  import opened EventQueue
  import opened ControlLoop
  import opened EngineReplies
  import opened LoopInvariant
  import opened LoopProgress

  /** The control goes out under the next identifier and waits for its acknowledgement; one that
      waits already is not asked for again. */
  ghost predicate Sends(app: App, key: Key, kind: ControlKind) {
    var (after, effects) := Reduce(app, KeyEvent(key, Press));
    if (exists p :: p in app.pending && p.kind == kind) || (kind == CancelScan && app.cancelRequested) then
      after == app && effects == []
    else if app.nextRequestId >= U64_MAX then HasFailed(after) && effects == [StopDriver]
    else
      && effects == [SendControl(ControlCommand(app.nextRequestId, kind))]
      && after == app.(nextRequestId := app.nextRequestId + 1,
                       pending := app.pending + [PendingControl(app.nextRequestId, kind)],
                       cancelRequested := app.cancelRequested || kind == CancelScan)
  }

  lemma Presses(app: App, key: Key, kind: ControlKind)
    requires app.terminal.None? && Requested(app, key) == Some(kind) && key != Question && key != Slash
    ensures Sends(app, key, kind)
  {
    assert HasPending(app.pending, kind) <==> exists p :: p in app.pending && p.kind == kind by {
      if HasPending(app.pending, kind) {
        var i :| 0 <= i < |app.pending| && app.pending[i].kind == kind;
        assert app.pending[i] in app.pending;
      }
    }
  }

  /** What each key asks for while a scan is shown. */
  lemma KeysAsk(app: App)
    requires app.terminal.None?
    ensures Sends(app, Quit, CancelScan)
    ensures app.screen == ScanScreen && app.scanState == Running ==>
      Sends(app, Space, PauseScan) && Sends(app, PlanKey, PauseAndBuildProvisionalPlan)
    ensures app.screen == ScanScreen && app.scanState == Paused ==>
      Sends(app, Space, ResumeScan) && Sends(app, PlanKey, PauseAndBuildProvisionalPlan)
    ensures app.screen == PlanScreen || app.scanState == Paused ==> Sends(app, ResumeKey, ResumeScan)
  {
    Presses(app, Quit, CancelScan);
    if app.screen == ScanScreen && app.scanState == Running {
      Presses(app, Space, PauseScan);
      Presses(app, PlanKey, PauseAndBuildProvisionalPlan);
    }
    if app.screen == ScanScreen && app.scanState == Paused {
      Presses(app, Space, ResumeScan);
      Presses(app, PlanKey, PauseAndBuildProvisionalPlan);
    }
    if app.screen == PlanScreen || app.scanState == Paused {
      Presses(app, ResumeKey, ResumeScan);
    }
    hide Sends;
  }

  /** Every other press does nothing, help aside; and so does a key that is held or let go, and any
      key once the run has ended. */
  lemma OtherKeysAreQuiet(app: App, key: Key, kind: KeyEventKind)
    ensures kind != Press || app.terminal.Some? ==> Reduce(app, KeyEvent(key, kind)) == (app, [])
    ensures kind == Press && app.terminal.None? && (key == Question || (key == Slash && app.screen == ScanScreen)) ==>
      Reduce(app, KeyEvent(key, kind)) == (app.(helpVisible := !app.helpVisible), [])
    ensures key == OtherKey || (key == Slash && app.screen == PlanScreen) ==>
      Reduce(app, KeyEvent(key, kind)) == (app, [])
    ensures (key == Space || key == PlanKey) &&
            (app.screen == PlanScreen || (app.scanState != Running && app.scanState != Paused)) ==>
      Reduce(app, KeyEvent(key, kind)) == (app, [])
    ensures key == ResumeKey && app.screen == ScanScreen && app.scanState != Paused ==>
      Reduce(app, KeyEvent(key, kind)) == (app, [])
  {
  }

  // ------------------------------------------------- where the requests on their way lead

  /** The engine once it has answered these requests, in order, and whether it has left by then. */
  function AfterAll(s: Session, requests: seq<ControlCommand>): (Session, bool)
    decreases |requests|
  {
    if requests == [] then (s, false)
    else if ExitsAfter(Next(s, requests[0]), EnvelopeOf(requests[0])) then (Next(s, requests[0]), true)
    else AfterAll(Next(s, requests[0]), requests[1..])
  }

  function Fate(s: System): (Session, bool) {
    if s.engineExited then (s.session, true) else AfterAll(s.session, Unanswered(s))
  }

  /** No internal step, in whatever order they come, changes where the engine will end. */
  lemma FateIsKept(s: System, a: Action)
    requires Invariant(s) && Healthy(s) && Internal(a)
    ensures Fate(Step(s, a)) == Fate(s)
  {
    match a {
      case DriverTakesCommand => TakingKeepsFate(s);
      case EngineHandlesRequest =>
        if !s.engineExited && s.requests != [] && !EngineTraps(s) { EngineKeepsFate(s); }
      case DriverForwardsEvent => ForwardingKeepsFate(s);
      case DriverShutsDown(result) => ShutdownKeepsFate(s, result);
      case DriverReports => ReportIs(s); assert Unanswered(Step(s, a)) == Unanswered(s);
      case DisplayConsumes =>
        if s.queue.events == [] {
          NothingToConsume(s);
        } else {
          ConsumedIs(s);
          assert Unanswered(Step(s, a)) == Unanswered(s);
        }
    }
    hide Step;
    hide AfterAll;
    hide Healthy;
    hide Always;
  }

  lemma TakingKeepsFate(s: System)
    requires Healthy(s)
    ensures Fate(Step(s, DriverTakesCommand)) == Fate(s)
  {
    hide Reduce;
    hide Handle;
    hide Agree;
    hide AfterAll;
    if s.driver.Serving? && s.commands != [] {
      var t := Step(s, DriverTakesCommand);
      assert s.commands[0].Control?;
      assert s.requests + Commanded(s.commands) ==
        (s.requests + [s.commands[0].command]) + Commanded(s.commands[1..]);
      assert FreshIds(s) && Unanswered(s)[|s.requests|] == s.commands[0].command;
      assert t.requests == s.requests + [s.commands[0].command];
      assert Unanswered(t) == Unanswered(s);
    }
  }

  lemma EngineKeepsFate(s: System)
    requires Bounded(s.queue) && s.requests != [] && !s.engineExited && !EngineTraps(s)
    ensures Fate(Step(s, EngineHandlesRequest)) == Fate(s)
  {
    hide Step;
    hide Handle;
    hide EngineTraps;
    EngineStepIs(s);
    DropFirst(s);
    var t := Step(s, EngineHandlesRequest);
    assert Unanswered(s)[0] == s.requests[0] && Unanswered(s)[1..] == Unanswered(t);
  }

  lemma ForwardingKeepsFate(s: System)
    requires Bounded(s.queue)
    ensures Fate(Step(s, DriverForwardsEvent)) == Fate(s)
  {
    hide Reduce;
    hide Handle;
    hide Send;
    hide AfterAll;
    assert Unanswered(Step(s, DriverForwardsEvent)) == Unanswered(s);
  }

  lemma ShutdownKeepsFate(s: System, result: ExitResult)
    requires Bounded(s.queue)
    ensures Fate(Step(s, DriverShutsDown(result))) == Fate(s)
  {
    hide Reduce;
    hide Handle;
    hide AfterAll;
    assert Unanswered(Step(s, DriverShutsDown(result))) == Unanswered(s);
  }

  lemma {:induction false} FateOfSchedule(s: System, actions: seq<Action>)
    requires Invariant(s) && Healthy(s) && forall i :: 0 <= i < |actions| ==> Internal(actions[i])
    ensures var t := RunFrom(s, actions);
      Invariant(t) && Healthy(t) && Fate(t) == Fate(s)
    decreases |actions|
  {
    hide Step;
    hide Fate;
    hide Healthy;
    if actions != [] {
      FateIsKept(s, actions[0]);
      InternalKeepsHealthy(s, actions[0]);
      FateOfSchedule(Step(s, actions[0]), actions[1..]);
    }
  }

  // --------------------------------------------------------------- what a press leads to

  /** What the user wants of a key, from a state of the scan to another. */
  ghost predicate Leads(from: ScanState, key: Key, to: ScanState) {
    || (key == Space && ((from == Running && to == Paused) || (from == Paused && to == Running)))
    || (key == PlanKey && (from == Running || from == Paused) && to == ProvisionalPlanReady)
    || (key == ResumeKey && (from == Paused || from == ProvisionalPlanReady) && to == Running)
    || (key == Quit && (from == Running || from == Paused || from == ProvisionalPlanReady) && to == Cancelled)
  }

  function Wanted(from: ScanState, key: Key): ControlKind {
    match key
    case Quit => CancelScan
    case PlanKey => PauseAndBuildProvisionalPlan
    case Space => if from == Running then PauseScan else ResumeScan
    case _ => ResumeScan
  }

  lemma AnswerLeads(s: Session, c: ControlCommand, key: Key, to: ScanState)
    requires Settled(s) && s.requestIdHighWaterMark < c.requestId
    requires Leads(s.state, key, to) && c.kind == Wanted(s.state, key)
    ensures Next(s, c).state == to && (ExitsAfter(Next(s, c), EnvelopeOf(c)) <==> to == Cancelled)
  {
  }

  lemma PressIsAsked(s: System, key: Key, to: ScanState)
    requires Invariant(s) && Healthy(s) && Idle?(s) && s.app.nextRequestId < U64_MAX && Leads(s.app.scanState, key, to)
    ensures var kind := Wanted(s.app.scanState, key);
      && s.session.state == s.app.scanState && s.app.terminal.None?
      && Step(s, UserInput(key, Press)) == WithAsked(s, kind)
      && ReduceKey(s.app, key, Press).1 != [] && !ReceiverGone(s.driver)
  {
    hide Bounded;
    hide Settled;
    hide Numbered;
    assert InFlight(s) == [] && Prospect(s) == s.app;
    assert Unanswered(s) == [] && Waiting(Unanswered(s)) == [];
    var kind := Wanted(s.app.scanState, key);
    assert !Suppressed(s.app, kind);
    assert Requested(s.app, key) == Some(kind);
    var effect := SendControl(ControlCommand(s.app.nextRequestId, kind));
    assert ReduceKey(s.app, key, Press) == (Asked(s.app, kind), [effect]);
    CarryOutOne(s.(app := Asked(s.app, kind)), effect);
    hide CarryOut;
  }

  /** The request of the press is the only one, so its answer is where the engine will end. */
  lemma PressHasFate(s: System, key: Key, to: ScanState)
    requires Invariant(s) && Healthy(s) && Idle?(s) && s.app.nextRequestId < U64_MAX && Leads(s.app.scanState, key, to)
    ensures var t := Step(s, UserInput(key, Press));
      Invariant(t) && Healthy(t) && Fate(t).0.state == to && (Fate(t).1 <==> to == Cancelled)
  {
    hide Step;
    hide Handle;
    hide Next;
    hide Leads;
    hide Agree;
    hide Numbered;
    PressIsAsked(s, key, to);
    InputThatAsks(s, key, Press);
    var kind := Wanted(s.app.scanState, key);
    var c := ControlCommand(s.app.nextRequestId, kind);
    AskedIsUnanswered(s, kind);
    assert Unanswered(s) == [] && Unanswered(WithAsked(s, kind)) == [c];
    AnswerLeads(s.session, c, key, to);
    assert [c][1..] == [] && AfterAll(Next(s.session, c), []) == (Next(s.session, c), false);
  }

  /** At rest, the display shows the state of the engine. */
  lemma RestAgrees(s: System)
    requires Healthy(s) && Idle?(s)
    ensures s.app.scanState == s.session.state && s.app.terminal.None? && s.session.state != Cancelled
    ensures s.app.screen == PlanScreen <==> s.session.state == ProvisionalPlanReady
    ensures Fate(s) == (s.session, false)
  {
    hide Bounded;
    hide Settled;
    hide Numbered;
    assert InFlight(s) == [] && Prospect(s) == s.app;
    assert Unanswered(s) == [] && Waiting(Unanswered(s)) == [];
  }

  lemma EndLeads(end: System, to: ScanState)
    requires Healthy(end) && Fate(end).0.state == to && (Fate(end).1 <==> to == Cancelled) && (Idle?(end) || Over(end))
    ensures end.session.state == to
    ensures to == Cancelled || Idle?(end)
    ensures Idle?(end) ==> end.app.scanState == to && to != Cancelled
  {
    hide Healthy;
    if Idle?(end) { RestAgrees(end); }
    hide AfterAll;
  }

  /** Take any run, at rest, with a scan shown. Press a key that means something there, and let the
      system settle in any order of steps. Then the engine is in the state the key stands for and the
      display shows it; after a cancel the display shows the cancellation instead. */
  lemma KeyTakesEffect(capacity: nat, actions: seq<Action>, key: Key, to: ScanState, schedule: seq<Action>)
    requires 0 < capacity
    requires var s := RunOf(capacity, actions);
      Idle?(s) && s.app.terminal.None? && s.app.nextRequestId < U64_MAX && Leads(s.app.scanState, key, to)
    requires forall i :: 0 <= i < |schedule| ==> Internal(schedule[i])
    ensures var s := RunOf(capacity, actions);
      Bounded(Step(s, UserInput(key, Press)).queue)
    ensures var s := RunOf(capacity, actions);
      var end := RunFrom(Step(s, UserInput(key, Press)), schedule);
      Idle?(end) || Over(end) ==>
        && end.session.state == to
        && (if to == Cancelled then Over(end)
            else Idle?(end) && end.app.scanState == to && end.app.terminal.None?
                 && (end.app.screen == PlanScreen <==> to == ProvisionalPlanReady))
  {
    var s := RunOf(capacity, actions);
    EveryRunKeepsInvariant(capacity, actions);
    LiveIsHealthy(s);
    hide RunOf;
    hide Step;
    hide Healthy;
    hide Always;
    hide Leads;
    hide Fate;
    PressHasFate(s, key, to);
    var t := Step(s, UserInput(key, Press));
    HealthyIsBounded(t);
    FateOfSchedule(t, schedule);
    var end := RunFrom(t, schedule);
    if Idle?(end) || Over(end) {
      EndLeads(end, to);
      if Idle?(end) { RestAgrees(end); }
    }
  }

  lemma HealthyIsBounded(s: System)
    requires Healthy(s)
    ensures Bounded(s.queue)
  {
  }

  lemma LiveIsHealthy(s: System)
    requires Invariant(s) && s.app.terminal.None?
    ensures Healthy(s)
  {
  }

  /** And such an order of steps exists, as long as the engine's event counter has room. */
  lemma KeySettles(capacity: nat, actions: seq<Action>, key: Key, to: ScanState) returns (schedule: seq<Action>)
    requires 0 < capacity
    requires var s := RunOf(capacity, actions);
      && Idle?(s) && s.app.terminal.None? && s.app.nextRequestId < U64_MAX && Leads(s.app.scanState, key, to)
      && s.session.eventSequence + 4 <= U64_MAX
    ensures forall i :: 0 <= i < |schedule| ==> Internal(schedule[i])
    ensures Bounded(Step(RunOf(capacity, actions), UserInput(key, Press)).queue)
    ensures var end := RunFrom(Step(RunOf(capacity, actions), UserInput(key, Press)), schedule);
      Idle?(end) || Over(end)
  {
    var s := RunOf(capacity, actions);
    EveryRunKeepsInvariant(capacity, actions);
    LiveIsHealthy(s);
    hide RunOf;
    hide Step;
    hide Healthy;
    hide Always;
    hide Leads;
    PressIsAsked(s, key, to);
    PressHasFate(s, key, to);
    HealthyIsBounded(Step(s, UserInput(key, Press)));
    schedule := SettlesWithinTheBound(Step(s, UserInput(key, Press)));
  }
}
