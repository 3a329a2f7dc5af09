/** Safety of the composed system over every interleaving. */
module LoopSafety {
  import opened Wrappers
  import opened ScanProtocol
  import opened ClientReducer

  // --------------------------------- a new request commutes with events in flight

  lemma TakingCommutes(pending: seq<PendingControl>, extra: PendingControl, id: nat)
    requires PendingIndex(pending, id) < |pending|
    ensures PendingIndex(pending + [extra], id) == PendingIndex(pending, id)
    ensures TakePending(pending + [extra], id) == TakePending(pending, id) + [extra]
  {
    hide PendingIndex;
    var i, longer := PendingIndex(pending, id), pending + [extra];
    assert longer[..|pending|] == pending && longer[i] == pending[i];
    var k := PendingIndex(longer, id);
    assert k <= i;
    assert longer[k] == pending[k];
    assert longer[..i] == pending[..i] && longer[i + 1..] == pending[i + 1..] + [extra];
  }

  lemma TakingAddsNothing(pending: seq<PendingControl>, id: nat, kind: ControlKind)
    requires !HasPending(pending, kind)
    ensures !HasPending(TakePending(pending, id), kind)
  {
    var i := PendingIndex(pending, id);
    var rest := TakePending(pending, id);
    if i < |pending| {
      assert forall j :: 0 <= j < |rest| ==> rest[j] == if j < i then pending[j] else pending[j + 1];
    }
  }

  lemma AckCommutes(app: App, kind: ControlKind, id: nat, control: int, resulting: int)
    requires !Suppressed(app, kind) && !HasFailed(ReduceAccepted(app, id, control, resulting).0)
    ensures var after := ReduceAccepted(app, id, control, resulting).0;
      && ReduceAccepted(Asked(app, kind), id, control, resulting).0 == Asked(after, kind)
      && !Suppressed(after, kind)
  {
    TakingCommutes(app.pending, PendingControl(app.nextRequestId, kind), id);
    TakingAddsNothing(app.pending, id, kind);
    hide TakePending;
    hide HasPending;
    hide AckError;
    hide FirstPhase;
  }

  lemma RejectionCommutes(app: App, kind: ControlKind, id: nat, control: int, code: int, current: int)
    requires !Suppressed(app, kind) && !HasFailed(ReduceRejected(app, id, control, code, current).0)
    ensures var after := ReduceRejected(app, id, control, code, current).0;
      && ReduceRejected(Asked(app, kind), id, control, code, current).0 == Asked(after, kind)
      && !Suppressed(after, kind)
  {
    var i := PendingIndex(app.pending, id);
    TakingCommutes(app.pending, PendingControl(app.nextRequestId, kind), id);
    TakingAddsNothing(app.pending, id, kind);
    assert HasPending(app.pending, app.pending[i].kind);
    hide TakePending;
    hide HasPending;
    hide RejectionError;
  }

  lemma VerdictCommutes(app: App, kind: ControlKind, origin: ActiveRequest, v: Verdict)
    ensures Apply(Asked(app, kind), origin, v).0 == Asked(Apply(app, origin, v).0, kind)
    ensures Apply(app, origin, v).0.pending == app.pending
    ensures Apply(app, origin, v).0.cancelRequested == app.cancelRequested
  {
    match v
    case Breaks(_) =>
    case Moves(_, _) =>
    case Reports(_) =>
    case Projects(_) =>
    case Invalidates =>
    case Ends(_, _) =>
  }

  lemma BodyCommutes(app: App, kind: ControlKind, id: nat, body: Option<EventBody>)
    requires !Suppressed(app, kind) && !HasFailed(ReduceBody(app, id, body).0)
    ensures var after := ReduceBody(app, id, body).0;
      && ReduceBody(Asked(app, kind), id, body).0 == Asked(after, kind)
      && !Suppressed(after, kind)
  {
    hide ReduceAccepted;
    hide ReduceRejected;
    hide HasPending;
    hide Judge;
    hide Apply;
    if body.Some? {
      var b := body.value;
      if b.ControlAccepted? {
        AckCommutes(app, kind, id, b.acceptedControl, b.resultingState);
      } else if b.ControlRejected? {
        RejectionCommutes(app, kind, id, b.rejectedControl, b.code, b.currentState);
      } else if app.active.Some? {
        VerdictCommutes(app, kind, app.active.value, Judge(app.scanState, app.plan, app.active.value, b));
      }
    }
  }

  lemma EventCommutes(app: App, kind: ControlKind, e: UiEvent)
    requires !Suppressed(app, kind) && !e.KeyEvent? && !HasFailed(Reduce(app, e).0)
    ensures var after := Reduce(app, e).0;
      Reduce(Asked(app, kind), e).0 == Asked(after, kind) && !Suppressed(after, kind)
  {
    if e.Engine? && app.terminal.None? && SequenceError(app.lastEventSequence, e.delivery).None? {
      var seen := app.(lastEventSequence := e.delivery.event.eventSequence);
      assert !Suppressed(seen, kind);
      BodyCommutes(seen, kind, e.delivery.event.requestId, e.delivery.event.body);
      assert Asked(seen, kind) == Asked(app, kind).(lastEventSequence := e.delivery.event.eventSequence);
    }
    hide ReduceBody;
    hide HasPending;
  }

  predicate OnlyFromDriver(events: seq<UiEvent>) {
    forall i :: 0 <= i < |events| ==> events[i].Engine? || events[i].DriverExited?
  }

  /** A control asked for now, before the events in flight are shown, leads to the same state as
      one asked for after them. */
  lemma {:induction false} AskingCommutes(app: App, kind: ControlKind, events: seq<UiEvent>)
    requires !Suppressed(app, kind) && OnlyFromDriver(events) && !HasFailed(ReduceAll(app, events))
    ensures ReduceAll(Asked(app, kind), events) == Asked(ReduceAll(app, events), kind)
    ensures !Suppressed(ReduceAll(app, events), kind)
    decreases |events|
  {
    hide Reduce;
    if events != [] {
      var next := Reduce(app, events[0]).0;
      if HasFailed(next) {
        FailureIsFinal(next, events[1..]);
      }
      EventCommutes(app, kind, events[0]);
      AskingCommutes(next, kind, events[1..]);
    }
  }

  function WithoutHelp(app: App): App {
    app.(helpVisible := false)
  }

  lemma HelpInDelivery(a: App, b: App, d: Delivery)
    requires WithoutHelp(a) == WithoutHelp(b) && a.terminal.None?
    ensures WithoutHelp(ReduceEngineEvent(a, d).0) == WithoutHelp(ReduceEngineEvent(b, d).0)
  {
    hide ReduceBody;
    hide SequenceError;
    var q := d.event.eventSequence;
    HelpInBody(a.(lastEventSequence := q), b.(lastEventSequence := q), d.event.requestId, d.event.body);
  }

  lemma HelpIsIndifferent(a: App, b: App, e: UiEvent)
    requires WithoutHelp(a) == WithoutHelp(b) && !e.KeyEvent?
    ensures WithoutHelp(Reduce(a, e).0) == WithoutHelp(Reduce(b, e).0)
  {
    hide ReduceEngineEvent;
    if e.Engine? && a.terminal.None? {
      HelpInDelivery(a, b, e.delivery);
    }
  }

  lemma HelpInVerdict(app: App, help: bool, origin: ActiveRequest, v: Verdict)
    ensures WithoutHelp(Apply(app.(helpVisible := help), origin, v).0) == WithoutHelp(Apply(app, origin, v).0)
  {
    match v
    case Breaks(_) =>
    case Moves(_, _) =>
    case Reports(_) =>
    case Projects(_) =>
    case Invalidates =>
    case Ends(_, _) =>
  }

  lemma HelpInAck(app: App, help: bool, id: nat, control: int, resulting: int)
    ensures WithoutHelp(ReduceAccepted(app.(helpVisible := help), id, control, resulting).0) ==
            WithoutHelp(ReduceAccepted(app, id, control, resulting).0)
  {
    hide AckError;
    hide TakePending;
    hide PendingIndex;
    hide FirstPhase;
    hide DecodeState;
  }

  lemma HelpInRejection(app: App, help: bool, id: nat, control: int, code: int, current: int)
    ensures WithoutHelp(ReduceRejected(app.(helpVisible := help), id, control, code, current).0) ==
            WithoutHelp(ReduceRejected(app, id, control, code, current).0)
  {
    hide RejectionError;
    hide TakePending;
    hide PendingIndex;
  }

  lemma HelpInBody(a: App, b: App, id: nat, body: Option<EventBody>)
    requires WithoutHelp(a) == WithoutHelp(b)
    ensures WithoutHelp(ReduceBody(a, id, body).0) == WithoutHelp(ReduceBody(b, id, body).0)
  {
    hide ReduceAccepted;
    hide ReduceRejected;
    hide Judge;
    hide Apply;
    assert a.(helpVisible := b.helpVisible) == b;
    if body.Some? {
      if body.value.ControlAccepted? {
        HelpInAck(a, b.helpVisible, id, body.value.acceptedControl, body.value.resultingState);
      } else if body.value.ControlRejected? {
        HelpInRejection(a, b.helpVisible, id, body.value.rejectedControl, body.value.code, body.value.currentState);
      } else if a.active.Some? {
        HelpInVerdict(a, b.helpVisible, a.active.value, Judge(a.scanState, a.plan, a.active.value, body.value));
      }
    }
  }

  lemma {:induction false} HelpIsIndifferentAll(a: App, b: App, events: seq<UiEvent>)
    requires WithoutHelp(a) == WithoutHelp(b) && OnlyFromDriver(events)
    ensures WithoutHelp(ReduceAll(a, events)) == WithoutHelp(ReduceAll(b, events))
    decreases |events|
  {
    hide Reduce;
    if events != [] {
      HelpIsIndifferent(a, b, events[0]);
      HelpIsIndifferentAll(Reduce(a, events[0]).0, Reduce(b, events[0]).0, events[1..]);
    }
  }

  lemma VerdictAsksNothing(app: App, origin: ActiveRequest, v: Verdict)
    ensures var (after, effects) := Apply(app, origin, v);
      after.nextRequestId == app.nextRequestId && (effects == [] || HasFailed(after))
  {
  }

  lemma AckAsksNothing(app: App, id: nat, control: int, resulting: int)
    ensures var (after, effects) := ReduceAccepted(app, id, control, resulting);
      after.nextRequestId == app.nextRequestId && (effects == [] || HasFailed(after))
  {
    hide AckError;
    hide TakePending;
    hide PendingIndex;
    hide FirstPhase;
    hide DecodeState;
  }

  lemma RejectionAsksNothing(app: App, id: nat, control: int, code: int, current: int)
    ensures var (after, effects) := ReduceRejected(app, id, control, code, current);
      after.nextRequestId == app.nextRequestId && (effects == [] || HasFailed(after))
  {
    hide RejectionError;
    hide TakePending;
    hide PendingIndex;
  }

  lemma FactAsksNothing(app: App, id: nat, fact: EventBody)
    ensures var (after, effects) := ReduceFact(app, id, fact);
      after.nextRequestId == app.nextRequestId && (effects == [] || HasFailed(after))
  {
    hide Judge;
    hide Apply;
    if app.active.Some? {
      VerdictAsksNothing(app, app.active.value, Judge(app.scanState, app.plan, app.active.value, fact));
    }
  }

  lemma BodyAsksNothing(app: App, id: nat, body: Option<EventBody>)
    ensures var (after, effects) := ReduceBody(app, id, body);
      after.nextRequestId == app.nextRequestId && (effects == [] || HasFailed(after))
  {
    hide ReduceAccepted;
    hide ReduceRejected;
    hide ReduceFact;
    if body.Some? {
      var b := body.value;
      if b.ControlAccepted? {
        AckAsksNothing(app, id, b.acceptedControl, b.resultingState);
      } else if b.ControlRejected? {
        RejectionAsksNothing(app, id, b.rejectedControl, b.code, b.currentState);
      } else {
        FactAsksNothing(app, id, b);
      }
    }
  }

  /** Only a failure makes the reduction of a driver's event ask for anything. */
  lemma EventsAskNothing(app: App, e: UiEvent)
    requires !e.KeyEvent?
    ensures var (after, effects) := Reduce(app, e);
      after.nextRequestId == app.nextRequestId && (effects == [] || HasFailed(after))
  {
    if e.Engine? {
      BodyAsksNothing(app.(lastEventSequence := e.delivery.event.eventSequence),
                      e.delivery.event.requestId, e.delivery.event.body);
    }
    hide ReduceBody;
  }
}
