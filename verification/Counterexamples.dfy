/** Runs from start-up in which a promise of the loop fails. */
module Counterexamples {
  import opened Wrappers
  import opened ScanProtocol
  import opened ScanEngine
  import opened ClientReducer
  import opened EventQueue
  import opened Coalescing
  import opened ControlLoop
  import opened EngineReplies
  import opened LoopInvariant

  const START_COMMAND := ControlCommand(1, StartScan)

  /** The display once the start has been answered and shown. */
  const STARTED := DEFAULT.(
    pending := [], scanState := Running, progress := Some(FixtureProgress("standard")), lastEventSequence := 3,
    active := Some(ActiveRequest(1, StartScan, Steady)))

  lemma StartIsShown()
    ensures ReduceAll(DEFAULT, Batch(INITIAL, START_COMMAND)) == STARTED
  {
    hide Reduce;
    var e1 := Fact(1, 1, ControlAccepted(StartScan.Code(), Running.Code()));
    var e2 := Fact(2, 1, ScanStateChanged(Running.Code(), ScanStarted));
    var e3 := Fact(3, 1, ScanProgress(FixtureProgress("standard")));
    assert Batch(INITIAL, START_COMMAND) == [e1] + ([e2] + ([e3] + []));
    assert Waiting([START_COMMAND] + []) == DEFAULT.pending && Waiting([]) == [];
    AckStep(DEFAULT, START_COMMAND, [], Running);
    var a1 := Reduce(DEFAULT, e1).0;
    ChangeStep(a1, 1, Running, Steady, ScanStarted);
    var a2 := Reduce(a1, e2).0;
    ProgressStep(a2, 1, FixtureProgress("standard"));
    ReduceThen(DEFAULT, e1, [e2] + ([e3] + []));
    ReduceThen(a1, e2, [e3] + []);
    ReduceThen(a2, e3, []);
  }

  // --------------------------------------------- coalescing can hide a rejection

  function ProgressOf(sequence: nat, requestId: nat): EngineEvent {
    EngineEvent(sequence, requestId, Some(ScanProgress(FixtureProgress("standard"))))
  }

  const STRAY := Engine(Exact(ProgressOf(4, 7)))
  const KEPT := Engine(Exact(ProgressOf(5, 1)))
  const MERGED := Engine(Delivery(ProgressOf(5, 1), 1))
  const STRAY_OPS: seq<Op> := [SendOp(STRAY), SendOp(KEPT), PopOp]

  function AfterOne(capacity: nat): History {
    Begin(capacity).(queue := Empty(capacity).(events := [STRAY]), blocks := [[STRAY]], sent := [STRAY])
  }

  function AfterTwo(capacity: nat): History {
    AfterOne(capacity).(queue := Empty(capacity).(events := [MERGED]), blocks := [[STRAY, KEPT]], sent := [STRAY, KEPT])
  }

  function AfterThree(capacity: nat): History {
    AfterTwo(capacity).(queue := Empty(capacity), blocks := [], taken := [[STRAY, KEPT]], delivered := [MERGED],
                        seen := [MERGED], plain := [STRAY, KEPT])
  }

  lemma StrayIsSent(capacity: nat)
    requires 0 < capacity
    ensures Bounded(Empty(capacity)) && After(Begin(capacity), SendOp(STRAY)) == AfterOne(capacity)
  {
    assert [] + [STRAY] == [STRAY] && [] + [[STRAY]] == [[STRAY]];
  }

  lemma KeptIsMerged(capacity: nat)
    requires 0 < capacity
    ensures Bounded(AfterOne(capacity).queue) && After(AfterOne(capacity), SendOp(KEPT)) == AfterTwo(capacity)
  {
    assert [STRAY][..0] == [];
    assert [STRAY] + [KEPT] == [STRAY, KEPT] && [[STRAY]][..0] + [[STRAY, KEPT]] == [[STRAY, KEPT]];
    assert [STRAY][..0] + [MERGED] == [MERGED];
  }

  lemma MergedIsTaken(capacity: nat)
    requires 0 < capacity
    ensures Bounded(AfterTwo(capacity).queue) && After(AfterTwo(capacity), PopOp) == AfterThree(capacity)
  {
    hide Flatten;
    var events, blocks, none: seq<UiEvent> := [MERGED], [[STRAY, KEPT]], [];
    var h := AfterTwo(capacity);
    assert events[..0] == none && events[1..] == none && SemanticCount(none) == 0;
    assert Pop(h.queue) == (Empty(capacity), Popped(MERGED));
    hide Pop;
    assert blocks[1..] == [] && none + blocks[0] == blocks[0] && none + [MERGED] == [MERGED];
  }

  /** The queue makes one entry of the two events. */
  lemma StrayIsMerged(capacity: nat)
    requires 0 < capacity
    ensures Offered(STRAY_OPS) && HistoryOf(capacity, STRAY_OPS) == AfterThree(capacity)
  {
    hide After;
    hide AfterOne;
    hide AfterTwo;
    hide AfterThree;
    hide Bounded;
    var none, one, two: seq<Op> := [], [SendOp(STRAY)], [SendOp(STRAY), SendOp(KEPT)];
    assert one[..0] == none && two[..1] == one && STRAY_OPS[..2] == two;
    assert HistoryOf(capacity, none) == Begin(capacity);
    hide HistoryOf;
    HistoryEndsWith(capacity, one);
    HistoryEndsWith(capacity, two);
    HistoryEndsWith(capacity, STRAY_OPS);
    StrayIsSent(capacity);
    KeptIsMerged(capacity);
    MergedIsTaken(capacity);
  }

  lemma StrayStopsDriver()
    ensures StopDriver in EffectsOf(STARTED, [STRAY, KEPT]) && HasFailed(ReduceAll(STARTED, [STRAY, KEPT]))
  {
    OneProgress(STARTED, STRAY);
    RefusalStopsDriver(STARTED, [STRAY, KEPT]);
    ReduceThen(STARTED, STRAY, [KEPT]);
    assert [STRAY] + [KEPT] == [STRAY, KEPT];
    FailureIsFinal(Reduce(STARTED, STRAY).0, [KEPT]);
    hide Reduce;
  }

  lemma MergedIsTakenAsProgress()
    ensures EffectsOf(STARTED, [MERGED]) == [] && !HasFailed(ReduceAll(STARTED, [MERGED]))
  {
    hide Reduce;
    OneProgress(STARTED, MERGED);
    OneEvent(STARTED, MERGED);
  }

  /** The queue does not compare origins. After a scan was started, a progress event of another
      request, followed by one of this request, stops the driver when each is delivered on its own,
      and goes unnoticed when they are coalesced. */
  lemma CoalescingCanHideARejection(capacity: nat)
    requires 0 < capacity
    ensures Offered(STRAY_OPS)
    ensures var app, h := ReduceAll(DEFAULT, Batch(INITIAL, START_COMMAND)), HistoryOf(capacity, STRAY_OPS);
      && h.sent == h.plain == [STRAY, KEPT] && h.delivered == h.seen == [MERGED]
      && StopDriver in EffectsOf(app, h.plain) && HasFailed(ReduceAll(app, h.plain))
      && EffectsOf(app, h.seen) == [] && !HasFailed(ReduceAll(app, h.seen))
  {
    hide Reduce;
    hide ReduceAll;
    hide EffectsOf;
    hide HistoryOf;
    hide Batch;
    StartIsShown();
    StrayIsMerged(capacity);
    StrayStopsDriver();
    MergedIsTakenAsProgress();
  }

  // ------------------------------------------ a key after the driver has returned

  const CAPACITY: nat := 16

  const QUIT_COMMAND := ControlCommand(2, CancelScan)

  function StartEvents(): seq<EngineEvent> {
    [EngineEvent(1, 1, Some(ControlAccepted(StartScan.Code(), Running.Code()))),
     EngineEvent(2, 1, Some(ScanStateChanged(Running.Code(), ScanStarted))),
     ProgressOf(3, 1)]
  }

  function QuitEvents(): seq<EngineEvent> {
    [EngineEvent(4, 2, Some(ControlAccepted(CancelScan.Code(), Cancelling.Code()))),
     EngineEvent(5, 2, Some(ScanStateChanged(Cancelling.Code(), CancelAcknowledged))),
     EngineEvent(6, 2, Some(ScanStateChanged(Cancelled.Code(), ScanIsCancelled))),
     EngineEvent(7, 2, Some(ScanCancelled(CancelledByUser)))]
  }

  /** The display after the acknowledgement of the start, and after the quit key. */
  const RUNNING := DEFAULT.(
    pending := [], scanState := Running, lastEventSequence := 1,
    active := Some(ActiveRequest(1, StartScan, AwaitingStateConfirmation)))
  const QUITTING := Asked(RUNNING, CancelScan)

  const ENGINE_RUNNING := INITIAL.(state := Running, eventSequence := 3, requestIdHighWaterMark := 1)
  const ENGINE_CANCELLED := ENGINE_RUNNING.(state := Cancelled, eventSequence := 7, requestIdHighWaterMark := 2)

  function Holding(events: seq<EngineEvent>, semantic: nat): Queue {
    Empty(CAPACITY).(events := Raw(events), semanticEvents := semantic)
  }

  const ANSWERED := Init(CAPACITY).(requests := [], session := ENGINE_RUNNING, emitted := StartEvents())
  const ACKED := ANSWERED.(queue := Holding(StartEvents()[..1], 1), emitted := StartEvents()[1..], driver := Serving(1))
  const SHOWN := ACKED.(queue := Empty(CAPACITY), app := RUNNING)
  const ASKED := SHOWN.(app := QUITTING, commands := [Control(QUIT_COMMAND)])
  const REQUESTED := ASKED.(commands := [], requests := [QUIT_COMMAND])

  /** What the engine has emitted and the display has not seen when the scan is cancelled. */
  function Unseen(): seq<EngineEvent> {
    StartEvents()[1..] + QuitEvents()
  }

  const CANCELLED_SCAN := REQUESTED.(
    requests := [], session := ENGINE_CANCELLED, emitted := Unseen(), engineExited := true)

  /** The state after that many of them have been forwarded. */
  function Forwarded(n: nat): System
    requires n <= 6
  {
    CANCELLED_SCAN.(
      queue := Holding(Unseen()[..n], if n < 2 then n else n - 1), emitted := Unseen()[n..],
      driver := if n < 6 then Serving(n + 1) else ShuttingDown)
  }

  const RETURNED := Forwarded(6).(driver := Returned(ExitedOk))

  lemma StartReply()
    ensures Handle(INITIAL, EnvelopeOf(START_COMMAND)) == (ENGINE_RUNNING, StartEvents())
  {
    var (session, events) := Handle(INITIAL, EnvelopeOf(START_COMMAND));
    var expected := StartEvents();
    assert session == ENGINE_RUNNING && |events| == 3;
    assert events[0] == expected[0] && events[1] == expected[1] && events[2] == expected[2];
    assert events == expected;
  }

  lemma StartIsAnswered()
    ensures Step(Init(CAPACITY), EngineHandlesRequest) == ANSWERED
  {
    StartReply();
    hide Handle;
    hide StartEvents;
    hide Reduce;
    assert [] + StartEvents() == StartEvents() && [START_COMMAND][1..] == [];
  }

  lemma AckIsForwarded()
    ensures Step(ANSWERED, DriverForwardsEvent) == ACKED
  {
    var none: seq<UiEvent> := [];
    assert none + [Engine(Exact(StartEvents()[0]))] == Raw(StartEvents()[..1]);
    hide Reduce;
    hide Handle;
  }

  lemma AckIsShown()
    ensures Bounded(ACKED.queue) && Step(ACKED, DisplayConsumes) == SHOWN
  {
    var ack := Engine(Exact(StartEvents()[0]));
    var held, none: seq<UiEvent> := [ack], [];
    assert Raw(StartEvents()[..1]) == held && held[..0] == none && held[1..] == none && SemanticCount(none) == 0;
    assert Waiting([START_COMMAND] + []) == DEFAULT.pending && Waiting([]) == [];
    AckStep(DEFAULT, START_COMMAND, [], Running);
    hide Reduce;
    hide Handle;
    assert Pop(ACKED.queue) == (Empty(CAPACITY), Popped(ack));
  }

  lemma QuitIsAsked()
    ensures Bounded(SHOWN.queue) && Step(SHOWN, UserInput(Quit, Press)) == ASKED
  {
    CarryOutOne(SHOWN.(app := QUITTING), SendControl(QUIT_COMMAND));
    hide CarryOut;
    hide Handle;
  }

  lemma QuitIsTaken()
    ensures Bounded(ASKED.queue) && Step(ASKED, DriverTakesCommand) == REQUESTED
  {
    hide Reduce;
    hide Handle;
  }

  lemma QuitReply()
    ensures Handle(ENGINE_RUNNING, EnvelopeOf(QUIT_COMMAND)) == (ENGINE_CANCELLED, QuitEvents())
  {
    var (session, events) := Handle(ENGINE_RUNNING, EnvelopeOf(QUIT_COMMAND));
    var expected := QuitEvents();
    assert session == ENGINE_CANCELLED && |events| == 4;
    assert events[0] == expected[0] && events[1] == expected[1] && events[2] == expected[2] && events[3] == expected[3];
    assert events == expected;
  }

  lemma QuitIsAnswered()
    ensures Bounded(REQUESTED.queue) && Step(REQUESTED, EngineHandlesRequest) == CANCELLED_SCAN
  {
    QuitReply();
    hide Handle;
    hide QuitEvents;
    hide StartEvents;
    hide Reduce;
    assert [QUIT_COMMAND][1..] == [];
  }

  lemma UnseenAre()
    ensures |Unseen()| == 6
    ensures forall i :: 0 <= i < 6 ==> Unseen()[i].eventSequence == i + 2
    ensures forall i :: 0 <= i < 6 ==> (Unseen()[i].IsProgress() <==> i == 1)
    ensures forall i :: 0 <= i < 6 ==> (Unseen()[i].IsTerminal() <==> i == 5)
  {
  }

  lemma OneIsSent(n: nat)
    requires n < 6
    ensures Send(Forwarded(n).queue, Engine(Exact(Unseen()[n]))) == (Forwarded(n + 1).queue, Sent)
  {
    UnseenAre();
    hide Unseen;
    assert Raw(Unseen()[..n + 1]) == Raw(Unseen()[..n]) + [Engine(Exact(Unseen()[n]))];
  }

  lemma OneIsForwarded(n: nat)
    requires n < 6 && Bounded(Forwarded(n).queue)
    ensures Bounded(Forwarded(n + 1).queue) && Step(Forwarded(n), DriverForwardsEvent) == Forwarded(n + 1)
  {
    hide Reduce;
    hide Handle;
    hide Send;
    hide Bounded;
    hide Holding;
    UnseenAre();
    OneIsSent(n);
    SendKeepsBound(Forwarded(n).queue, Engine(Exact(Unseen()[n])));
    hide Unseen;
    assert Forwarded(n).emitted[0] == Unseen()[n] && Forwarded(n).emitted[1..] == Unseen()[n + 1..];
  }

  /** The run: the start is answered and acknowledged on the display, the user quits, the engine
      cancels, and the driver forwards everything and returns before the display shows any of it. */
  const LATE_RUN: seq<Action> := [
    EngineHandlesRequest, DriverForwardsEvent, DisplayConsumes,
    UserInput(Quit, Press), DriverTakesCommand, EngineHandlesRequest,
    DriverForwardsEvent, DriverForwardsEvent, DriverForwardsEvent,
    DriverForwardsEvent, DriverForwardsEvent, DriverForwardsEvent,
    DriverShutsDown(ExitedOk)]

  /** One more step of the run. */
  lemma LateRunStep(n: nat, s: System)
    requires n < |LATE_RUN| && RunOf(CAPACITY, LATE_RUN[..n]) == s
    ensures Bounded(s.queue) && RunOf(CAPACITY, LATE_RUN[..n + 1]) == Step(s, LATE_RUN[n])
  {
    assert LATE_RUN[..n + 1][..n] == LATE_RUN[..n];
    hide Step;
    hide LATE_RUN;
  }

  lemma LateRunIs()
    ensures |LATE_RUN| == 13 && LATE_RUN[..0] == [] && LATE_RUN[..13] == LATE_RUN
    ensures LATE_RUN[0] == EngineHandlesRequest && LATE_RUN[1] == DriverForwardsEvent && LATE_RUN[2] == DisplayConsumes
    ensures LATE_RUN[3] == UserInput(Quit, Press) && LATE_RUN[4] == DriverTakesCommand
    ensures LATE_RUN[5] == EngineHandlesRequest && forall i :: 6 <= i < 12 ==> LATE_RUN[i] == DriverForwardsEvent
    ensures LATE_RUN[12] == DriverShutsDown(ExitedOk)
  {
  }

  lemma NothingHasHappened()
    ensures RunOf(CAPACITY, []) == Init(CAPACITY)
  {
  }

  lemma LateRunStarts()
    ensures RunOf(CAPACITY, LATE_RUN[..6]) == CANCELLED_SCAN
  {
    hide *;
    LateRunIs();
    NothingHasHappened();
    LateRunStep(0, Init(CAPACITY));
    StartIsAnswered();
    LateRunStep(1, ANSWERED);
    AckIsForwarded();
    LateRunStep(2, ACKED);
    AckIsShown();
    LateRunStep(3, SHOWN);
    QuitIsAsked();
    LateRunStep(4, ASKED);
    QuitIsTaken();
    LateRunStep(5, REQUESTED);
    QuitIsAnswered();
  }

  lemma NoneIsForwarded()
    ensures Forwarded(0) == CANCELLED_SCAN && Bounded(Forwarded(0).queue)
  {
    assert Unseen()[..0] == [] && Unseen()[0..] == Unseen();
  }

  lemma {:induction false} LateRunForwards(n: nat)
    requires n <= 6
    ensures Bounded(Forwarded(n).queue) && RunOf(CAPACITY, LATE_RUN[..6 + n]) == Forwarded(n)
  {
    hide *;
    LateRunIs();
    if n == 0 {
      LateRunStarts();
      NoneIsForwarded();
    } else {
      LateRunForwards(n - 1);
      LateRunStep(5 + n, Forwarded(n - 1));
      OneIsForwarded(n - 1);
    }
  }

  lemma DriverReturns()
    ensures RunOf(CAPACITY, LATE_RUN) == RETURNED
  {
    hide *;
    LateRunIs();
    LateRunForwards(6);
    LateRunStep(12, Forwarded(6));
    ShutdownReturns();
  }

  lemma ShutdownReturns()
    requires Bounded(Forwarded(6).queue)
    ensures Step(Forwarded(6), DriverShutsDown(ExitedOk)) == RETURNED
  {
    hide Reduce;
    hide Handle;
    hide Bounded;
    hide Holding;
  }

  lemma ReturnedShows()
    ensures 0 < CAPACITY && RETURNED.driver == Returned(ExitedOk) && ReceiverGone(RETURNED.driver)
    ensures RETURNED.engineExited && RETURNED.session.state == Cancelled
    ensures RETURNED.app.terminal.None? && RETURNED.app.scanState == Running && !HasFailed(RETURNED.app)
    ensures RETURNED.app.nextRequestId < U64_MAX && AsksForControl(RETURNED.app, Space, Press)
  {
    assert QUITTING.pending == [PendingControl(2, CancelScan)];
  }

  /** The display still shows a running scan that is being cancelled. The pause key then asks for a
      control nobody can receive, and the run is shown as failed. */
  lemma PauseAfterTheDriverReturned()
    ensures var s := RunOf(CAPACITY, LATE_RUN);
      && s.driver == Returned(ExitedOk) && s.app.terminal.None? && s.app.scanState == Running
      && s.engineExited && s.session.state == Cancelled
      && AsksForControl(s.app, Space, Press) && s.app.nextRequestId < U64_MAX
      && HasFailed(Step(s, UserInput(Space, Press)).app)
  {
    hide *;
    DriverReturns();
    ReturnedShows();
    KeyFailsExactlyWhen(CAPACITY, LATE_RUN, Space, Press);
  }
}
