/** Every step of the composed system keeps the invariant. */
module LoopInvariant {
  import opened Wrappers
  import opened ScanProtocol
  import opened ScanEngine
  import opened ClientReducer
  import opened EventQueue
  import opened Coalescing
  import opened ControlLoop
  import opened EngineReplies
  import opened LoopSafety

  lemma QueueComesFromDriver(s: System)
    requires OnlyFromDriver(s.queue.events)
    ensures OnlyFromDriver(InFlight(s))
  {
  }

  predicate NamedKinds(requests: seq<ControlCommand>) {
    forall i :: 0 <= i < |requests| ==> requests[i].kind != KindUnspecified
  }

  /** A refusal that blames the request itself: a used-up identifier or a malformed control. */
  predicate Blames(e: EngineEvent) {
    e.body.Some? && e.body.value.ControlRejected? && e.body.value.code != InvalidState.Code()
  }

  predicate CleanReplies(s: System) {
    && (forall i :: 0 <= i < |s.emitted| ==> !Blames(s.emitted[i]))
    && (forall i :: 0 <= i < |s.queue.events| && s.queue.events[i].Engine? ==>
          !Blames(s.queue.events[i].delivery.event))
  }

  /** What holds in every run, failed or not. */
  predicate Always(s: System) {
    && Bounded(s.queue)
    && OnlyFromDriver(s.queue.events)
    && Settled(s.session)
    && FreshIds(s)
    && NamedKinds(Unanswered(s))
    && CleanReplies(s)
  }

  predicate Invariant(s: System) {
    Always(s) && (Healthy(s) || FailedOnItsOwn(s))
  }

  // ------------------------------------------------------------------ engine step

  lemma ReplyIsClean(s: Session, c: ControlCommand)
    requires Settled(s) && s.requestIdHighWaterMark < c.requestId && c.kind != KindUnspecified
    ensures var (t, events) := Handle(s, EnvelopeOf(c));
      && Settled(t) && t.requestIdHighWaterMark == c.requestId
      && (forall i :: 0 <= i < |events| ==> !Blames(events[i]))
      && (forall i :: 0 <= i < |events| ==> events[i].eventSequence == s.eventSequence + 1 + i)
      && t.eventSequence == s.eventSequence + |events|
      && 1 <= |events| <= 4
      && |events| == |Answer(s, EnvelopeOf(c)).bodies|
  {
    HandleMeetsContract(s, EnvelopeOf(c));
  }

  lemma ReplyEndsOnlyWithCancellation(s: Session, c: ControlCommand)
    requires Settled(s) && s.state != Cancelled && c.kind != KindUnspecified
    ensures var (t, events) := Handle(s, EnvelopeOf(c));
      && (forall i :: 0 <= i < |events| && events[i].IsTerminal() ==>
            i == |events| - 1 && ExitsAfter(t, EnvelopeOf(c)))
      && (ExitsAfter(t, EnvelopeOf(c)) ==> events != [] && events[|events| - 1].IsTerminal())
  {
    if c.kind == StartScan {
      StartDoesNotEnd(s, c);
    } else {
      hide AnswerKind;
      hide AnswerStart;
      hide AnswerMalformed;
      KindEndsOnlyWithCancellation(s.(requestIdHighWaterMark := c.requestId), c.kind.Code());
    }
  }

  lemma KindEndsOnlyWithCancellation(s: Session, control: int)
    requires s.state != Cancelled
    ensures var r := AnswerKind(s, control);
      && (forall i :: 0 <= i < |r.bodies| && r.bodies[i].ScanCancelled? ==>
            i == |r.bodies| - 1 && r.session.state == Cancelled)
      && (forall i :: 0 <= i < |r.bodies| ==> !r.bodies[i].ScanFinished? && !r.bodies[i].EngineFailed?)
      && (r.session.state == Cancelled ==> r.bodies != [] && r.bodies[|r.bodies| - 1].ScanCancelled?)
  {
  }

  lemma StartDoesNotEnd(s: Session, c: ControlCommand)
    requires c.kind == StartScan
    ensures var (t, events) := Handle(s, EnvelopeOf(c));
      && (forall i :: 0 <= i < |events| ==> !events[i].IsTerminal()) && !ExitsAfter(t, EnvelopeOf(c))
  {
    hide AnswerControl;
    hide AnswerMalformed;
  }

  lemma DropFirst(s: System)
    requires s.requests != []
    ensures Unanswered(s) == [s.requests[0]] + Unanswered(s.(requests := s.requests[1..]))
  {
    assert s.requests == [s.requests[0]] + s.requests[1..];
  }

  lemma EngineStepIs(s: System)
    requires Bounded(s.queue) && s.requests != [] && !s.engineExited && !EngineTraps(s)
    ensures var e := EnvelopeOf(s.requests[0]);
      var (session, events) := Handle(s.session, e);
      Step(s, EngineHandlesRequest) ==
      s.(requests := s.requests[1..], session := session, emitted := s.emitted + events,
         engineExited := ExitsAfter(session, e))
  {
    hide Handle;
    hide Reduce;
    hide Send;
  }

  lemma EngineKeepsAlways(s: System)
    requires Always(s) && s.requests != [] && !s.engineExited && !EngineTraps(s)
    ensures Always(Step(s, EngineHandlesRequest))
  {
    hide Step;
    hide Handle;
    hide Bounded;
    hide Settled;
    hide Blames;
    hide OnlyFromDriver;
    hide EngineTraps;
    var c := s.requests[0];
    DropFirst(s);
    assert Unanswered(s)[0] == c;
    ReplyIsClean(s.session, c);
    EngineStepIs(s);
    var t := Step(s, EngineHandlesRequest);
    assert Unanswered(s) == [c] + Unanswered(t);
    hide Unanswered;
    assert forall i :: 0 <= i < |Unanswered(t)| ==> Unanswered(t)[i] == Unanswered(s)[i + 1];
  }

  /** The client's prospect follows the engine: the batch joins the events in flight. */
  lemma EngineMovesProspect(s: System)
    requires Always(s) && Healthy(s) && s.requests != [] && !s.engineExited && !EngineTraps(s)
    ensures var t := Step(s, EngineHandlesRequest);
      && !HasFailed(Prospect(t))
      && (if t.engineExited then Prospect(t).terminal == CANCELLED else Agree(Prospect(t), t.session, Unanswered(t)))
  {
    hide ReduceAll;
    hide Agree;
    hide Handle;
    hide Answer;
    hide Bounded;
    hide Numbered;
    hide EndsWithCancellation;
    hide CleanReplies;
    var c := s.requests[0];
    var t := Step(s, EngineHandlesRequest);
    DropFirst(s);
    assert Unanswered(s)[0] == c;
    BatchIsAccepted(Prospect(s), s.session, c, Unanswered(t));
    assert InFlight(t) == InFlight(s) + Batch(s.session, c);
    ReduceAllConcat(s.app, InFlight(s), Batch(s.session, c));
    AgreementHasNotEnded(Prospect(t), t.session, Unanswered(t));
  }

  lemma AgreementHasNotEnded(app: App, s: Session, requests: seq<ControlCommand>)
    ensures Agree(app, s, requests) ==> app.terminal.None? && s.state != Cancelled
  {
  }

  lemma EngineKeepsPipes(s: System)
    requires Always(s) && Healthy(s) && s.requests != [] && !s.engineExited && !EngineTraps(s)
    ensures var t := Step(s, EngineHandlesRequest);
      Numbered(t) && EndsWithCancellation(t)
  {
    hide ReduceAll;
    hide Agree;
    hide Bounded;
    var c := s.requests[0];
    assert Unanswered(s)[0] == c;
    AgreementHasNotEnded(Prospect(s), s.session, Unanswered(s));
    ReplyIsClean(s.session, c);
    ReplyEndsOnlyWithCancellation(s.session, c);
    hide Handle;
    hide Answer;
    hide FreshIds;
    hide CleanReplies;
  }

  lemma EngineKeepsHealthy(s: System)
    requires Always(s) && Healthy(s) && s.requests != [] && !s.engineExited && !EngineTraps(s)
    ensures Healthy(Step(s, EngineHandlesRequest))
  {
    EngineKeepsAlways(s);
    EngineMovesProspect(s);
    EngineKeepsPipes(s);
    hide Handle;
    hide Numbered;
    hide EndsWithCancellation;
    hide Agree;
    hide Prospect;
  }

  // -------------------------------------------------------- driver takes a command

  /** The driver stops serving, or moves a control from its channel to the engine. */
  lemma TakingIs(s: System)
    requires Bounded(s.queue) && forall i :: 0 <= i < |Unanswered(s)| ==> 0 < Unanswered(s)[i].requestId
    ensures var t := Step(s, DriverTakesCommand);
      t == s ||
        (s.driver.Serving? && s.commands != [] && Unanswered(t) == Unanswered(s)
         && t == s.(commands := s.commands[1..], requests := t.requests, driver := t.driver)
         && (t.driver == s.driver || (t.driver.ShuttingDown? && !s.commands[0].Control?)))
  {
    hide Reduce;
    hide CarryOut;
    hide Handle;
    hide Answer;
    hide Forward;
    hide Pop;
    hide Send;
    hide Bounded;
    var t := Step(s, DriverTakesCommand);
    if s.driver.Serving? && s.commands != [] {
      assert s.commands == [s.commands[0]] + s.commands[1..];
      CommandedConcat([s.commands[0]], s.commands[1..]);
      assert Commanded([s.commands[0]]) == CommandOf(s.commands[0]) + Commanded([]);
      if s.commands[0].Control? {
        assert Unanswered(s)[|s.requests|] == s.commands[0].command;
        ConcatAssociates(s.requests, [s.commands[0].command], Commanded(s.commands[1..]));
      }
    }
  }

  lemma TakingCommandKeeps(s: System)
    requires Invariant(s)
    ensures Invariant(Step(s, DriverTakesCommand))
    ensures Healthy(s) ==> Healthy(Step(s, DriverTakesCommand))
  {
    hide Step;
    hide ReduceAll;
    hide Agree;
    hide Bounded;
    hide Settled;
    hide Commanded;
    TakingIs(s);
    var t := Step(s, DriverTakesCommand);
    assert Prospect(t) == Prospect(s) && Unanswered(t) == Unanswered(s);
    hide Unanswered;
  }

  // ------------------------------------------------------- driver forwards an event

  /** Two progress deliveries in a row, or the second one credited with the first. */
  lemma MergingKeepsReduction(app: App, first: Delivery, second: EngineEvent)
    requires first.event.IsProgress() && second.IsProgress()
    requires second.eventSequence == first.event.eventSequence + 1
    requires !HasFailed(ReduceAll(app, [Engine(first), Engine(Exact(second))]))
    ensures ReduceAll(app, [Engine(Merge(first, Exact(second)))]) ==
      ReduceAll(app, [Engine(first), Engine(Exact(second))])
  {
    var a, b, m := Engine(first), Engine(Exact(second)), Engine(Merge(first, Exact(second)));
    var next := Reduce(app, a).0;
    ReduceThen(app, a, [b]);
    assert [a] + [b] == [a, b];
    OneEvent(app, m);
    OneEvent(next, b);
    if app.terminal.None? {
      OneProgress(app, a);
      OneProgress(app, m);
      if HasFailed(next) {
        FailureIsFinal(next, [b]);
      } else {
        OneProgress(next, b);
      }
      hide Reduce;
    }
  }

  lemma MergingInContext(app: App, front: seq<UiEvent>, last: Delivery, e: EngineEvent, later: seq<UiEvent>)
    requires last.event.IsProgress() && e.IsProgress() && e.eventSequence == last.event.eventSequence + 1
    requires !HasFailed(ReduceAll(app, (front + [Engine(last)]) + ([Engine(Exact(e))] + later)))
    ensures ReduceAll(app, (front + [Engine(Merge(last, Exact(e)))]) + later) ==
      ReduceAll(app, (front + [Engine(last)]) + ([Engine(Exact(e))] + later))
  {
    hide Reduce;
    var pair, merged := [Engine(last), Engine(Exact(e))], [Engine(Merge(last, Exact(e)))];
    var mid := ReduceAll(app, front);
    assert (front + [Engine(last)]) + ([Engine(Exact(e))] + later) == front + (pair + later);
    assert (front + merged) + later == front + (merged + later);
    ReduceAllConcat(app, front, pair + later);
    ReduceAllConcat(app, front, merged + later);
    ReduceAllConcat(mid, pair, later);
    ReduceAllConcat(mid, merged, later);
    if HasFailed(ReduceAll(mid, pair)) {
      FailureIsFinal(ReduceAll(mid, pair), later);
    }
    MergingKeepsReduction(mid, last, e);
  }

  predicate CanForward(s: System) {
    && Numbered(s) && s.driver.Serving? && s.emitted != [] && !s.queue.receiverClosed
  }

  /** Neither the session's check nor the queue's ever refuses an event of this engine. */
  lemma ForwardingIsNotRefused(s: System)
    requires CanForward(s)
    ensures s.emitted[0].eventSequence == s.driver.lastEventSequence + 1 <= U64_MAX
    ensures var sent := Send(s.queue, Engine(Exact(s.emitted[0]))).1; sent == Sent || sent == Blocked
  {
    assert |s.emitted| >= 1;
  }

  /** Forwarding moves an event from the pipe to the queue. Its effect on the display, once
      everything has been shown, is nil, whether it is appended or coalesced. */
  lemma ForwardingKeepsProspect(s: System)
    requires CanForward(s) && !HasFailed(Prospect(s))
    ensures Prospect(Forward(s, s.emitted[0])) == Prospect(s)
  {
    hide ReduceAll;
    hide Raw;
    hide Send;
    hide Forward;
    hide JoinsLast;
    hide HasFailed;
    var e, events, later := s.emitted[0], s.queue.events, Raw(s.emitted[1..]);
    var entry := Engine(Exact(e));
    ForwardIs(s);
    RawSplits(s.emitted);
    var t := Forward(s, e);
    if t != s {
      ConcatAssociates(events, [entry], later);
      if JoinsLast(events, entry) {
        MergingInFlight(s.app, events, e, later);
      }
    }
  }

  lemma RawSplits(events: seq<EngineEvent>)
    requires events != []
    ensures Raw(events) == [Engine(Exact(events[0]))] + Raw(events[1..])
  {
  }

  /** Forwarding waits, or moves one event into the queue. */
  lemma ForwardIs(s: System)
    requires CanForward(s)
    ensures var t, e, events := Forward(s, s.emitted[0]), s.emitted[0], s.queue.events;
      t == s ||
        (t.app == s.app && t.emitted == s.emitted[1..]
         && if JoinsLast(events, Engine(Exact(e)))
            then var n := |events| - 1;
              && e.eventSequence == events[n].delivery.event.eventSequence + 1
              && t.queue.events == events[..n] + [Engine(Merge(events[n].delivery, Exact(e)))]
            else t.queue.events == events + [Engine(Exact(e))])
  {
    ForwardingIsNotRefused(s);
    hide Numbered;
  }

  lemma MergingInFlight(app: App, events: seq<UiEvent>, e: EngineEvent, later: seq<UiEvent>)
    requires JoinsLast(events, Engine(Exact(e)))
    requires e.eventSequence == events[|events| - 1].delivery.event.eventSequence + 1
    requires !HasFailed(ReduceAll(app, events + ([Engine(Exact(e))] + later)))
    ensures var n := |events| - 1;
      ReduceAll(app, (events[..n] + [Engine(Merge(events[n].delivery, Exact(e)))]) + later) ==
      ReduceAll(app, events + ([Engine(Exact(e))] + later))
  {
    hide Reduce;
    hide ReduceAll;
    var front, last := events[..|events| - 1], events[|events| - 1].delivery;
    assert events == front + [Engine(last)];
    MergingInContext(app, front, last, e, later);
  }

  lemma ForwardingKeepsPipes(s: System)
    requires CanForward(s) && EndsWithCancellation(s)
    ensures var t := Forward(s, s.emitted[0]); Numbered(t) && EndsWithCancellation(t)
  {
    ForwardingIsNotRefused(s);
    var (queue, sent) := Send(s.queue, Engine(Exact(s.emitted[0])));
    if sent == Sent {
      assert queue.events != [] && queue.events[|queue.events| - 1].Engine?;
      assert queue.events[|queue.events| - 1].delivery.event == s.emitted[0];
      assert queue.receiverClosed == s.queue.receiverClosed && queue.producerClosed == s.queue.producerClosed;
    }
    hide Send;
  }

  /** What a successful send leaves in the queue: the entries that were there, but for the last
      when the new event absorbs it, and the new event. */
  lemma SendShape(q: Queue, e: EngineEvent)
    ensures var (after, sent) := Send(q, Engine(Exact(e)));
      && (sent != Sent ==> after == q)
      && (sent == Sent ==>
            && after.events != [] && |after.events| <= |q.events| + 1
            && var n := |after.events| - 1;
               && (forall i :: 0 <= i < n ==> after.events[i] == q.events[i])
               && after.events[n].Engine? && after.events[n].delivery.event == e)
  {
  }

  lemma ForwardingKeepsAlways(s: System)
    requires Always(s) && s.driver.Serving? && s.emitted != []
    ensures Always(Forward(s, s.emitted[0]))
  {
    hide Bounded;
    hide Settled;
    hide Send;
    var e := s.emitted[0];
    SendKeepsBound(s.queue, Engine(Exact(e)));
    SendShape(s.queue, e);
    var t := Forward(s, e);
    assert Unanswered(t) == Unanswered(s);
    hide Unanswered;
    assert FreshIds(t);
  }

  lemma ForwardingKeepsHealthy(s: System)
    requires Always(s) && Healthy(s) && s.driver.Serving? && s.emitted != []
    ensures Healthy(Forward(s, s.emitted[0]))
  {
    var t := Forward(s, s.emitted[0]);
    ForwardingKeepsAlways(s);
    ForwardingKeepsPipes(s);
    ForwardingKeepsProspect(s);
    ForwardingIsNotRefused(s);
    assert Unanswered(t) == Unanswered(s) && t.session == s.session && t.engineExited == s.engineExited;
    assert t.commands == s.commands && !t.driver.Reported?;
    hide Forward;
    hide Prospect;
    hide Unanswered;
    hide Agree;
    hide Numbered;
    hide EndsWithCancellation;
  }

  // -------------------------------------------------------------- driver winds down

  lemma ShuttingDownKeeps(s: System, result: ExitResult)
    requires Invariant(s)
    ensures Invariant(Step(s, DriverShutsDown(result)))
    ensures Healthy(s) ==> Healthy(Step(s, DriverShutsDown(result)))
  {
    hide Reduce;
    hide ReduceAll;
    hide CarryOut;
    hide Handle;
    hide Answer;
    hide TakeCommand;
    hide Forward;
    hide Pop;
    hide Send;
    hide Agree;
    hide Bounded;
    hide Commanded;
    var t := Step(s, DriverShutsDown(result));
    assert t == s || t == s.(driver := t.driver);
    assert Unanswered(t) == Unanswered(s) && Prospect(t) == Prospect(s);
  }

  lemma ReportIs(s: System)
    requires Bounded(s.queue)
    ensures var t := Step(s, DriverReports);
      t == s || (s.driver.Returned? && t == s.(queue := t.queue, driver := Reported) && Bounded(t.queue)
                 && t.queue.producerClosed && t.queue.receiverClosed == s.queue.receiverClosed
                 && t.queue.events == s.queue.events +
                   if s.queue.receiverClosed then [] else [DriverExited(s.driver.result)])
  {
    hide Reduce;
    hide CarryOut;
    hide Handle;
    hide Answer;
    hide TakeCommand;
    hide Forward;
    hide Pop;
    if s.driver.Returned? {
      SendKeepsBound(s.queue, DriverExited(s.driver.result));
      hide SemanticCount;
      hide NoAdjacentProgress;
    }
  }

  lemma ReportingKeepsAlways(s: System)
    requires Always(s)
    ensures Always(Step(s, DriverReports))
  {
    hide Step;
    hide Bounded;
    hide Settled;
    hide Commanded;
    ReportIs(s);
    var t := Step(s, DriverReports);
    assert Unanswered(t) == Unanswered(s);
  }

  lemma ReportShows(s: System, t: System)
    requires Healthy(s) && s.driver.Returned? && t == s.(queue := t.queue, driver := Reported)
    requires t.queue.events == s.queue.events + [DriverExited(s.driver.result)]
    ensures Prospect(t).terminal == Prospect(s).terminal && Prospect(t).driverExited
  {
    hide Agree;
    hide Bounded;
    hide Settled;
    hide FreshIds;
    var exit := DriverExited(ExitedOk);
    assert InFlight(s) == s.queue.events && InFlight(t) == InFlight(s) + [exit];
    ReduceAllConcat(s.app, InFlight(s), [exit]);
    OneEvent(Prospect(s), exit);
    hide ReduceAll;
  }

  lemma ReportingKeepsHealthy(s: System)
    requires Always(s) && Healthy(s)
    ensures Healthy(Step(s, DriverReports))
  {
    hide Step;
    hide Bounded;
    hide Settled;
    hide Agree;
    hide Prospect;
    hide Commanded;
    ReportingKeepsAlways(s);
    ReportIs(s);
    var t := Step(s, DriverReports);
    if t != s {
      ReportShows(s, t);
    }
  }

  // ------------------------------------------------------------- display and keys

  lemma ConsumingKeepsAlways(s: System, app: App, commands: seq<DriverCommand>)
    requires Always(s) && s.queue.events != []
    requires app.nextRequestId == s.app.nextRequestId && Commanded(commands) == Commanded(s.commands)
    ensures Always(s.(queue := Pop(s.queue).0, app := app, commands := commands))
  {
    PopKeepsBound(s.queue);
    hide Bounded;
    hide Settled;
    var t := s.(queue := Pop(s.queue).0, app := app, commands := commands);
    assert Unanswered(t) == Unanswered(s);
    hide Unanswered;
    assert forall i :: 0 <= i < |t.queue.events| ==> t.queue.events[i] == s.queue.events[i + 1];
  }

  /** Showing the oldest entry changes nothing of what will be shown in the end. */
  lemma ConsumedIs(s: System)
    requires Always(s) && Healthy(s) && s.queue.events != []
    ensures var app := Reduce(s.app, s.queue.events[0]).0;
      && Step(s, DisplayConsumes) == s.(queue := Pop(s.queue).0, app := app)
      && app.nextRequestId == s.app.nextRequestId && Prospect(Step(s, DisplayConsumes)) == Prospect(s)
  {
    hide Reduce;
    hide Bounded;
    hide Agree;
    hide Settled;
    hide FreshIds;
    hide Numbered;
    hide EndsWithCancellation;
    var (queue, next) := Pop(s.queue);
    var (app, effects) := Reduce(s.app, next.event);
    var rest := queue.events + Raw(s.emitted);
    assert InFlight(s) == [next.event] + rest;
    ReduceThen(s.app, next.event, rest);
    if HasFailed(app) {
      FailureIsFinal(app, rest);
    }
    EventsAskNothing(s.app, next.event);
  }

  lemma ConsumingLeavesTheRest(s: System, app: App)
    requires Bounded(s.queue) && s.queue.events != []
    requires Numbered(s) && EndsWithCancellation(s) && NoStop(s.commands)
    ensures var t := s.(queue := Pop(s.queue).0, app := app);
      Numbered(t) && EndsWithCancellation(t) && NoStop(t.commands) && Unanswered(t) == Unanswered(s)
  {
    hide SemanticCount;
    hide NoAdjacentProgress;
  }

  lemma ConsumingKeepsHealthy(s: System)
    requires Always(s) && Healthy(s)
    ensures Always(Step(s, DisplayConsumes)) && Healthy(Step(s, DisplayConsumes))
  {
    if s.queue.events == [] {
      NothingToConsume(s);
    } else {
      hide Reduce;
      hide Bounded;
      hide Settled;
      hide Agree;
      hide Step;
      hide Pop;
      hide Prospect;
      hide Unanswered;
      hide Numbered;
      hide EndsWithCancellation;
      hide NoStop;
      ConsumedIs(s);
      var app := Reduce(s.app, s.queue.events[0]).0;
      ConsumingKeepsAlways(s, app, s.commands);
      ConsumingLeavesTheRest(s, app);
      hide FreshIds;
    }
  }

  lemma NothingToConsume(s: System)
    requires Bounded(s.queue) && s.queue.events == []
    ensures Step(s, DisplayConsumes) == s
  {
    hide Reduce;
    hide Handle;
  }

  /** A key that asks for nothing can only turn the help on or off. */
  lemma QuietKey(app: App, key: Key, kind: KeyEventKind)
    requires ReduceKey(app, key, kind).1 == [] && !HasFailed(app)
    ensures WithoutHelp(ReduceKey(app, key, kind).0) == WithoutHelp(app)
  {
    hide Requested;
    hide HasPending;
  }

  /** A key that asks for something asks for one fresh control, or finds no identifier left. */
  lemma AskingKey(app: App, key: Key, kind: KeyEventKind)
    requires ReduceKey(app, key, kind).1 != []
    ensures app.terminal.None?
    ensures app.nextRequestId >= U64_MAX ==> ReduceKey(app, key, kind) == Fail(app, RequestIdsExhausted)
    ensures app.nextRequestId < U64_MAX ==>
      exists wanted :: wanted != KindUnspecified && wanted != StartScan && !Suppressed(app, wanted)
        && ReduceKey(app, key, kind) == (Asked(app, wanted), [SendControl(ControlCommand(app.nextRequestId, wanted))])
  {
    var wanted := Requested(app, key).value;
    assert wanted != KindUnspecified && wanted != StartScan;
    hide Requested;
    hide HasPending;
  }

  lemma QuietKeyKeeps(s: System, app: App)
    requires Always(s) && WithoutHelp(app) == WithoutHelp(s.app)
    ensures Always(s.(app := app))
    ensures Healthy(s) ==> Healthy(s.(app := app))
  {
    var t := s.(app := app);
    QueueComesFromDriver(s);
    HelpIsIndifferentAll(s.app, app, InFlight(s));
    assert InFlight(t) == InFlight(s) && Unanswered(t) == Unanswered(s);
    assert app.nextRequestId == s.app.nextRequestId;
    assert WithoutHelp(Prospect(t)) == WithoutHelp(Prospect(s));
    HelpDoesNotMatter(Prospect(s), Prospect(t), s.session, Unanswered(s));
    hide ReduceAll;
    hide Unanswered;
    hide Bounded;
    hide Agree;
  }

  lemma HelpDoesNotMatter(a: App, b: App, s: Session, requests: seq<ControlCommand>)
    requires WithoutHelp(a) == WithoutHelp(b)
    ensures Agree(a, s, requests) <==> Agree(b, s, requests)
    ensures HasFailed(a) <==> HasFailed(b)
    ensures a.terminal == b.terminal && a.driverExited == b.driverExited
  {
    assert b == a.(helpVisible := b.helpVisible);
  }

  lemma AskingAgrees(app: App, s: Session, requests: seq<ControlCommand>, kind: ControlKind)
    requires Agree(app, s, requests) && !Suppressed(app, kind)
    requires kind != KindUnspecified && kind != StartScan
    ensures Agree(Asked(app, kind), s, requests + [ControlCommand(app.nextRequestId, kind)])
  {
    var c := ControlCommand(app.nextRequestId, kind);
    var more := requests + [c];
    assert Waiting(more) == Waiting(requests) + [PendingControl(c.requestId, kind)];
    var asked := Asked(app, kind);
    if HasPending(app.pending, CancelScan) {
      var i :| 0 <= i < |app.pending| && app.pending[i].kind == CancelScan;
      assert asked.pending[i].kind == CancelScan;
    }
    if kind == CancelScan {
      assert asked.pending[|app.pending|].kind == CancelScan;
    }
    assert forall i :: 0 <= i < |requests| ==> more[i] == requests[i];
    hide ActiveFits;
  }

  /** The system with one more control on its way. */
  function WithAsked(s: System, kind: ControlKind): System {
    s.(app := Asked(s.app, kind), commands := s.commands + [Control(ControlCommand(s.app.nextRequestId, kind))])
  }

  lemma AskedIsUnanswered(s: System, kind: ControlKind)
    ensures Unanswered(WithAsked(s, kind)) == Unanswered(s) + [ControlCommand(s.app.nextRequestId, kind)]
  {
    var c := ControlCommand(s.app.nextRequestId, kind);
    CommandedConcat(s.commands, [Control(c)]);
    assert Commanded([Control(c)]) == [c] + Commanded([Control(c)][1..]);
    assert Commanded([Control(c)][1..]) == [];
  }

  lemma AskingKeepsAlways(s: System, kind: ControlKind)
    requires Always(s) && s.app.nextRequestId < U64_MAX && kind != KindUnspecified
    ensures Always(WithAsked(s, kind))
  {
    AskedIsUnanswered(s, kind);
    hide Unanswered;
    hide Bounded;
    hide Settled;
  }

  lemma {:induction false} NextIdIsUntouched(app: App, events: seq<UiEvent>)
    requires OnlyFromDriver(events)
    ensures ReduceAll(app, events).nextRequestId == app.nextRequestId
    decreases |events|
  {
    hide Reduce;
    if events != [] {
      EventsAskNothing(app, events[0]);
      NextIdIsUntouched(Reduce(app, events[0]).0, events[1..]);
    }
  }

  lemma AskingLeavesTheRest(s: System, kind: ControlKind)
    requires Numbered(s) && EndsWithCancellation(s) && NoStop(s.commands)
    ensures var t := WithAsked(s, kind);
      Numbered(t) && EndsWithCancellation(t) && NoStop(t.commands) && InFlight(t) == InFlight(s)
  {
  }

  lemma AskingKeepsHealthy(s: System, kind: ControlKind)
    requires Always(s) && Healthy(s) && s.app.nextRequestId < U64_MAX && !Suppressed(s.app, kind)
    requires kind != KindUnspecified && kind != StartScan
    ensures Healthy(WithAsked(s, kind))
  {
    hide ReduceAll;
    hide Agree;
    hide Suppressed;
    hide Bounded;
    hide Settled;
    hide Numbered;
    hide EndsWithCancellation;
    hide NoStop;
    hide InFlight;
    hide Unanswered;
    hide OnlyFromDriver;
    QueueComesFromDriver(s);
    AskingLeavesTheRest(s, kind);
    AskingCommutes(s.app, kind, InFlight(s));
    NextIdIsUntouched(s.app, InFlight(s));
    AskedIsUnanswered(s, kind);
    AskingKeepsAlways(s, kind);
    hide FreshIds;
    if !s.engineExited {
      AskingAgrees(Prospect(s), s.session, Unanswered(s), kind);
    }
  }

  lemma InputKeepsInvariant(s: System, key: Key, kind: KeyEventKind)
    requires Invariant(s)
    ensures Invariant(Step(s, UserInput(key, kind)))
  {
    var (app, effects) := ReduceKey(s.app, key, kind);
    var t := Step(s, UserInput(key, kind));
    if HasFailed(s.app) {
      assert t == s;
    } else if effects == [] {
      QuietKey(s.app, key, kind);
      QuietKeyKeeps(s, app);
      assert t == s.(app := app);
    } else {
      AskingKey(s.app, key, kind);
      InputThatAsks(s, key, kind);
    }
    hide ReduceKey;
    hide Always;
    hide Healthy;
  }

  lemma AlwaysFrame(s: System, app: App, commands: seq<DriverCommand>)
    requires Always(s) && Commanded(commands) == Commanded(s.commands)
    requires s.app.nextRequestId <= app.nextRequestId <= U64_MAX
    ensures Always(s.(app := app, commands := commands))
  {
    var t := s.(app := app, commands := commands);
    assert Unanswered(t) == Unanswered(s);
    hide Unanswered;
    hide Bounded;
    hide Settled;
  }

  lemma StopIsNoRequest(commands: seq<DriverCommand>)
    ensures Commanded(commands + [Stop]) == Commanded(commands)
  {
    CommandedConcat(commands, [Stop]);
    assert Commanded([Stop]) == [] + Commanded([Stop][1..]);
    assert Commanded([Stop][1..]) == [];
  }

  lemma CarryOutOne(s: System, effect: Effect)
    ensures CarryOut(s, [effect]) == if ReceiverGone(s.driver) then NotDelivered(s) else Delivered(s, effect)
  {
    assert [effect][1..] == [];
    CarryOutKeepsQueue(NotDelivered(s), []);
    CarryOutKeepsQueue(Delivered(s, effect), []);
  }

  function NotDelivered(s: System): System {
    var told := ReduceDriverExit(s.app, ExitedErr(SEND_FAILED));
    s.(app := told.(terminal := Some(TerminalFailed(DriverFault(SEND_FAILED)))))
  }

  function Delivered(s: System, effect: Effect): System {
    s.(commands := s.commands + [if effect.SendControl? then Control(effect.command) else Stop])
  }

  /** Asking for a control goes wrong in exactly two ways, both at the sender. */
  lemma AskingInVain(s: System, key: Key, kind: KeyEventKind)
    requires Always(s) && Healthy(s) && ReduceKey(s.app, key, kind).1 != []
    requires s.app.nextRequestId >= U64_MAX || ReceiverGone(s.driver)
    ensures Always(Step(s, UserInput(key, kind))) && FailedOnItsOwn(Step(s, UserInput(key, kind)))
  {
    AskingKey(s.app, key, kind);
    var (app, effects) := ReduceKey(s.app, key, kind);
    hide ReduceKey;
    hide Always;
    var t := Step(s, UserInput(key, kind));
    assert effects == [effects[0]];
    CarryOutOne(s.(app := app), effects[0]);
    hide CarryOut;
    if ReceiverGone(s.driver) {
      assert t == s.(app := t.app) && t.app.nextRequestId == app.nextRequestId;
      AlwaysFrame(s, t.app, s.commands);
    } else {
      StopIsNoRequest(s.commands);
      assert t == s.(app := app, commands := s.commands + [Stop]);
      AlwaysFrame(s, app, t.commands);
    }
  }

  lemma InputThatAsks(s: System, key: Key, kind: KeyEventKind)
    requires Always(s) && Healthy(s) && ReduceKey(s.app, key, kind).1 != []
    ensures var t := Step(s, UserInput(key, kind));
      && Always(t)
      && (if s.app.nextRequestId >= U64_MAX || ReceiverGone(s.driver) then FailedOnItsOwn(t) else Healthy(t))
  {
    if s.app.nextRequestId >= U64_MAX || ReceiverGone(s.driver) {
      AskingInVain(s, key, kind);
    } else {
      AskingKey(s.app, key, kind);
      var (app, effects) := ReduceKey(s.app, key, kind);
      hide ReduceKey;
      var wanted :| wanted != KindUnspecified && wanted != StartScan && !Suppressed(s.app, wanted)
        && (app, effects) == (Asked(s.app, wanted), [SendControl(ControlCommand(s.app.nextRequestId, wanted))]);
      AskingKeepsAlways(s, wanted);
      AskingKeepsHealthy(s, wanted);
      CarryOutOne(s.(app := app), effects[0]);
      hide CarryOut;
      hide Always;
      hide Healthy;
      assert Step(s, UserInput(key, kind)) == WithAsked(s, wanted);
    }
  }

  // ------------------------------------------------------- a run that has failed

  /** Once failed, the run stays failed for the same reason, and the pipes stay in order. */
  lemma FailureKeepsInvariant(s: System, a: Action)
    requires Always(s) && FailedOnItsOwn(s) && !a.DriverForwardsEvent? && !a.EngineHandlesRequest?
    requires !a.DriverTakesCommand? && !a.DriverShutsDown? && !a.UserInput?
    ensures Always(Step(s, a)) && FailedOnItsOwn(Step(s, a))
  {
    if a.DriverReports? {
      ReportingKeepsAlways(s);
    } else if s.queue.events != [] {
      var (queue, next) := Pop(s.queue);
      var (app, effects) := Reduce(s.app, next.event);
      assert effects == [] && app.nextRequestId == s.app.nextRequestId;
      assert Step(s, DisplayConsumes) == s.(queue := queue, app := app);
      ConsumingKeepsAlways(s, app, s.commands);
    }
    hide Always;
    hide Bounded;
  }

  /** Without a request to handle the engine does nothing, and without an event the driver. */
  lemma IdlePipes(s: System)
    requires Bounded(s.queue)
    ensures s.engineExited || s.requests == [] || EngineTraps(s) ==> Step(s, EngineHandlesRequest) == s
    ensures !s.driver.Serving? || s.emitted == [] ==> Step(s, DriverForwardsEvent) == s
  {
    hide Handle;
    hide Forward;
    hide Bounded;
  }

  lemma PipesKeepFailure(s: System, a: Action)
    requires Bounded(s.queue) && FailedOnItsOwn(s) && (a.EngineHandlesRequest? || a.DriverForwardsEvent?)
    ensures FailedOnItsOwn(Step(s, a))
  {
    hide Handle;
    hide Answer;
    hide Send;
    hide Bounded;
    hide Reduce;
    hide CarryOut;
  }

  lemma EngineKeepsInvariant(s: System)
    requires Invariant(s)
    ensures Invariant(Step(s, EngineHandlesRequest))
  {
    assert Bounded(s.queue);
    hide Step;
    hide EngineTraps;
    hide Always;
    hide Healthy;
    hide FailedOnItsOwn;
    IdlePipes(s);
    if !s.engineExited && s.requests != [] && !EngineTraps(s) {
      EngineKeepsAlways(s);
      if Healthy(s) { EngineKeepsHealthy(s); } else { PipesKeepFailure(s, EngineHandlesRequest); }
    }
  }

  lemma ForwardingKeepsInvariant(s: System)
    requires Invariant(s)
    ensures Invariant(Step(s, DriverForwardsEvent))
  {
    assert Bounded(s.queue);
    hide Step;
    hide Always;
    hide Healthy;
    hide FailedOnItsOwn;
    IdlePipes(s);
    if s.driver.Serving? && s.emitted != [] {
      ForwardingKeepsAlways(s);
      if Healthy(s) { ForwardingKeepsHealthy(s); } else { PipesKeepFailure(s, DriverForwardsEvent); }
    }
  }

  lemma StepKeepsInvariant(s: System, a: Action)
    requires Invariant(s)
    ensures Invariant(Step(s, a))
  {
    assert Bounded(s.queue);
    hide Step;
    hide Always;
    hide Healthy;
    hide FailedOnItsOwn;
    match a
    case UserInput(key, kind) => InputKeepsInvariant(s, key, kind);
    case DriverTakesCommand => TakingCommandKeeps(s);
    case EngineHandlesRequest => EngineKeepsInvariant(s);
    case DriverForwardsEvent => ForwardingKeepsInvariant(s);
    case DriverShutsDown(result) => ShuttingDownKeeps(s, result);
    case DriverReports =>
      if Healthy(s) {
        ReportingKeepsAlways(s);
        ReportingKeepsHealthy(s);
      } else {
        FailureKeepsInvariant(s, a);
      }
    case DisplayConsumes =>
      if Healthy(s) {
        ConsumingKeepsHealthy(s);
      } else {
        FailureKeepsInvariant(s, a);
      }
  }

  lemma StartAgrees()
    ensures Agree(DEFAULT, INITIAL, [ControlCommand(1, StartScan)])
  {
    assert Waiting([ControlCommand(1, StartScan)]) == DEFAULT.pending;
    assert !HasPending(DEFAULT.pending, CancelScan);
  }

  lemma InitIsHealthy(capacity: nat)
    requires 0 < capacity
    ensures Invariant(Init(capacity)) && Healthy(Init(capacity))
  {
    hide Agree;
    hide Reduce;
    StartAgrees();
    var s := Init(capacity);
    assert InFlight(s) == [] && Unanswered(s) == [ControlCommand(1, StartScan)];
    assert Prospect(s) == DEFAULT;
    hide Prospect;
    hide Unanswered;
  }

  // ------------------------------------------------------------------ the theorems

  lemma {:induction false} EveryRunKeepsInvariant(capacity: nat, actions: seq<Action>)
    requires 0 < capacity
    ensures Invariant(RunOf(capacity, actions))
    decreases |actions|
  {
    if actions == [] {
      InitIsHealthy(capacity);
    } else {
      EveryRunKeepsInvariant(capacity, actions[..|actions| - 1]);
      StepKeepsInvariant(RunOf(capacity, actions[..|actions| - 1]), actions[|actions| - 1]);
    }
  }

  lemma HealthyHasNotFailed(s: System)
    requires Healthy(s)
    ensures !HasFailed(s.app)
  {
    if HasFailed(s.app) {
      FailureIsFinal(s.app, InFlight(s));
    }
  }

  /** The fail-closed reducer never fires against this engine. In every interleaving: an event
      that reaches the display is accepted, a run can only fail for want of identifiers or because
      a key was pressed after the driver had returned, and the engine never blames a request as a
      duplicate or as malformed. */
  lemma NoEngineEventIsRefused(capacity: nat, actions: seq<Action>)
    requires 0 < capacity
    ensures var s := RunOf(capacity, actions);
      && (HasFailed(s.app) ==> FailedOnItsOwn(s))
      && (!HasFailed(s.app) ==> !HasFailed(Step(s, DisplayConsumes).app) && !HasFailed(Prospect(s)))
      && (forall i :: 0 <= i < |s.emitted| ==> !Blames(s.emitted[i]))
      && (forall i :: 0 <= i < |s.queue.events| && s.queue.events[i].Engine? ==>
            !Blames(s.queue.events[i].delivery.event))
  {
    hide RunOf;
    hide Step;
    hide Healthy;
    var s := RunOf(capacity, actions);
    EveryRunKeepsInvariant(capacity, actions);
    InvariantMeansNoRefusal(s);
  }

  lemma InvariantMeansNoRefusal(s: System)
    requires Invariant(s)
    ensures HasFailed(s.app) ==> FailedOnItsOwn(s)
    ensures !HasFailed(s.app) ==> !HasFailed(Step(s, DisplayConsumes).app) && !HasFailed(Prospect(s))
  {
    hide Step;
    hide Always;
    hide Agree;
    hide Numbered;
    hide EndsWithCancellation;
    hide FreshIds;
    hide ReduceAll;
    if Healthy(s) {
      HealthyHasNotFailed(s);
      ConsumingKeepsHealthy(s);
      HealthyHasNotFailed(Step(s, DisplayConsumes));
    }
  }

  /** The key is pressed while the run is shown as live, stands for a control in what is shown, and
      no such control is waiting yet. */
  predicate AsksForControl(app: App, key: Key, kind: KeyEventKind) {
    && kind == Press && app.terminal.None?
    && Requested(app, key).Some? && !Suppressed(app, Requested(app, key).value)
  }

  lemma AskingHasEffects(app: App, key: Key, kind: KeyEventKind)
    ensures AsksForControl(app, key, kind) <==> ReduceKey(app, key, kind).1 != []
  {
    hide Suppressed;
  }

  /** Exactly when a key turns a run that is going well into a failed one: it asks for a control
      when no identifier is left, or when the driver has already returned although its last events
      are still on their way to the display. */
  lemma KeyFailsExactlyWhen(capacity: nat, actions: seq<Action>, key: Key, kind: KeyEventKind)
    requires 0 < capacity && !HasFailed(RunOf(capacity, actions).app)
    ensures var s := RunOf(capacity, actions);
      HasFailed(Step(s, UserInput(key, kind)).app) <==>
        AsksForControl(s.app, key, kind) && (s.app.nextRequestId >= U64_MAX || ReceiverGone(s.driver))
  {
    var s := RunOf(capacity, actions);
    EveryRunKeepsInvariant(capacity, actions);
    hide RunOf;
    AskingHasEffects(s.app, key, kind);
    hide AsksForControl;
    if ReduceKey(s.app, key, kind).1 != [] {
      InputThatAsks(s, key, kind);
      if Healthy(Step(s, UserInput(key, kind))) {
        HealthyHasNotFailed(Step(s, UserInput(key, kind)));
      }
    } else {
      QuietKey(s.app, key, kind);
    }
    hide ReduceKey;
    hide Healthy;
    hide Always;
  }

  /** With nothing in flight and the run not over, client and engine agree on the state, on the
      plan, on the number of events, and on there being nothing left to answer. */
  lemma QuiescenceMeansAgreement(capacity: nat, actions: seq<Action>)
    requires 0 < capacity
    requires var s := RunOf(capacity, actions);
      && s.app.terminal.None?
      && s.commands == [] && s.requests == [] && s.emitted == [] && s.queue.events == []
    ensures var s := RunOf(capacity, actions);
      && !s.engineExited
      && s.app.scanState == s.session.state
      && s.app.lastEventSequence == s.session.eventSequence
      && s.app.pending == []
      && (if s.app.plan.Some? then s.session.provisionalPlanId == Some(s.app.plan.value.planId)
          else s.session.provisionalPlanId == None)
  {
    var s := RunOf(capacity, actions);
    EveryRunKeepsInvariant(capacity, actions);
    hide RunOf;
    assert InFlight(s) == [] && Prospect(s) == s.app;
    assert Unanswered(s) == [] && Waiting(Unanswered(s)) == [];
  }
}
