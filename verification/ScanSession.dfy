/** The engine's scan-control state machine and the ready loop that feeds it. */
module ScanEngine {
  import opened Wrappers
  import opened ScanProtocol

  /** The stored properties of a session, as a value. */
  datatype Session = Session(
    state: ScanState,
    eventSequence: nat,
    profile: string,
    requestIdHighWaterMark: nat,
    provisionalPlanId: Option<string>)

  const INITIAL := Session(Idle, 0, "standard", 0, None)

  const PLAN := Plan("phase0-provisional-0001", 11, 1_342_177_280, 268_435_456)
  const COUNTERS: seq<nat> :=
    [1_250, 12_480, 920, 37, 8_589_934_592, 1_610_612_736, 2, 1, 9_984, 2_000_000]

  function FixtureProgress(profile: string): Progress {
    Progress(profile, COUNTERS, "phase0://deterministic-fixture")
  }

  datatype Fault = Fault(code: RejectCode, detail: Wording)

  /** Why an identifier is refused; `None` when it may be consumed. */
  function IdentifierFault(highWaterMark: nat, requestId: nat): Option<Fault> {
    if requestId == 0 then Some(Fault(MalformedRequest, ZeroRequestId))
    else if requestId <= highWaterMark then
      Some(Fault(DuplicateRequestId, StaleRequestId))
    else None
  }

  /** The bodies, in order, with which a batch answers one request. Every batch gets the
      request's identifier and the next consecutive event sequences. */
  function Stamp(first: nat, requestId: nat, bodies: seq<EventBody>): (events: seq<EngineEvent>)
    ensures |events| == |bodies|
    ensures forall i :: 0 <= i < |events| ==>
      events[i] == EngineEvent(first + i, requestId, Some(bodies[i]))
  {
    seq(|bodies|, i requires 0 <= i < |bodies| => EngineEvent(first + i, requestId, Some(bodies[i])))
  }

  datatype Reply = Reply(session: Session, bodies: seq<EventBody>)

  function Refuse(s: Session, control: int, code: RejectCode, detail: Wording): Reply {
    Reply(s, [ControlRejected(control, code.Code(), detail, s.state.Code())])
  }

  /** What the session answers to a start request, before the events are numbered. */
  function AnswerStart(s: Session, requestId: nat, profile: string): Reply {
    var fault := IdentifierFault(s.requestIdHighWaterMark, requestId);
    if fault.Some? then Refuse(s, StartScan.Code(), fault.value.code, fault.value.detail)
    else
      var t := s.(requestIdHighWaterMark := requestId);
      if s.state != Idle then Refuse(t, StartScan.Code(), InvalidState, AlreadyStarted)
      else
        var p := if profile == "" then "standard" else profile;
        Reply(t.(profile := p, state := Running),
              [ControlAccepted(StartScan.Code(), Running.Code()),
               ScanStateChanged(Running.Code(), ScanStarted),
               ScanProgress(FixtureProgress(p))])
  }

  function AnswerControl(s: Session, requestId: nat, control: int): Reply {
    var fault := IdentifierFault(s.requestIdHighWaterMark, requestId);
    if fault.Some? then Refuse(s, control, fault.value.code, fault.value.detail)
    else AnswerKind(s.(requestIdHighWaterMark := requestId), control)
  }

  function AnswerKind(s: Session, control: int): Reply {
    if control == PauseScan.Code() && s.state == Running then
      Reply(s.(state := Paused),
            [ControlAccepted(control, Paused.Code()),
             ScanStateChanged(Paused.Code(), PauseAcknowledged)])
    else if control == ResumeScan.Code() && (s.state == Paused || s.state == ProvisionalPlanReady) then
      Reply(s.(state := Running, provisionalPlanId := None),
            [ControlAccepted(control, Running.Code())]
            + (if s.provisionalPlanId.Some? then [PlanInvalidated(s.provisionalPlanId.value)] else [])
            + [ScanStateChanged(Running.Code(), ResumeAcknowledged),
               ScanProgress(FixtureProgress(s.profile))])
    else if control == PauseAndBuildProvisionalPlan.Code() && (s.state == Running || s.state == Paused) then
      Reply(s.(state := ProvisionalPlanReady, provisionalPlanId := Some(PLAN.planId)),
            [ControlAccepted(control, BuildingProvisionalPlan.Code()),
             ScanStateChanged(BuildingProvisionalPlan.Code(), PlanRequested),
             ScanStateChanged(ProvisionalPlanReady.Code(), PlanIsReady),
             PlanReady(PLAN)])
    else if control == CancelScan.Code()
         && (s.state == Running || s.state == Paused || s.state == BuildingProvisionalPlan
             || s.state == ProvisionalPlanReady) then
      Reply(s.(state := Cancelled),
            [ControlAccepted(control, Cancelling.Code()),
             ScanStateChanged(Cancelling.Code(), CancelAcknowledged),
             ScanStateChanged(Cancelled.Code(), ScanIsCancelled),
             ScanCancelled(CancelledByUser)])
    else if control == PauseScan.Code() || control == ResumeScan.Code()
         || control == PauseAndBuildProvisionalPlan.Code() || control == CancelScan.Code() then
      Refuse(s, control, InvalidState, ControlNotValidInState)
    else
      Refuse(s, control, MalformedRequest, ControlNotValidInRequest)
  }

  function AnswerMalformed(s: Session, requestId: nat, control: int, detail: Wording): Reply {
    var fault := IdentifierFault(s.requestIdHighWaterMark, requestId);
    if fault.Some? then Refuse(s, control, fault.value.code, fault.value.detail)
    else Refuse(s.(requestIdHighWaterMark := requestId), control, MalformedRequest, detail)
  }

  /** One pass of the ready loop: an envelope must repeat the identifier it carries. */
  function Answer(s: Session, e: Envelope): Reply {
    match e.request
    case StartScanRequest(id, profile) =>
      if e.sequence == id then AnswerStart(s, id, profile)
      else AnswerMalformed(s, id, StartScan.Code(), EnvelopeSequenceDiffers)
    case ScanControlRequest(id, control) =>
      if e.sequence == id then AnswerControl(s, id, control)
      else AnswerMalformed(s, id, control, EnvelopeSequenceDiffers)
  }

  /** The session after a request, and the numbered batch it emits. */
  function Handle(s: Session, e: Envelope): (r: (Session, seq<EngineEvent>)) {
    var reply := Answer(s, e);
    (reply.session.(eventSequence := s.eventSequence + |reply.bodies|),
     Stamp(s.eventSequence + 1, e.request.requestId, reply.bodies))
  }

  /** The event counter is a 64-bit word; there is room in it for the whole answer. */
  predicate HasRoom(s: Session, e: Envelope) {
    s.eventSequence + |Answer(s, e).bodies| <= U64_MAX
  }

  /** The engine process leaves its loop after a control that left it cancelled. */
  predicate ExitsAfter(after: Session, e: Envelope) {
    e.request.ScanControlRequest? && after.state == Cancelled
  }

  /** Everything the engine emits for a list of frames, and whether it exited by itself. */
  function Serve(s: Session, frames: seq<Envelope>): (r: (Session, seq<EngineEvent>, bool))
    decreases |frames|
  {
    if frames == [] then (s, [], false)
    else
      var (t, events) := Handle(s, frames[0]);
      if ExitsAfter(t, frames[0]) then (t, events, true)
      else
        var (u, more, exited) := Serve(t, frames[1..]);
        (u, events + more, exited)
  }

  // ---------------------------------------------------------------- properties

  /** What holds of the session between two calls. */
  predicate Settled(s: Session) {
    && (s.state == Idle || s.state == Running || s.state == Paused
        || s.state == ProvisionalPlanReady || s.state == Cancelled)
    && (s.state == ProvisionalPlanReady ==> s.provisionalPlanId.Some?)
    && (s.provisionalPlanId.Some? ==> s.state == ProvisionalPlanReady || s.state == Cancelled)
    && (s.provisionalPlanId.Some? ==> s.provisionalPlanId.value == PLAN.planId)
  }

  predicate IsAck(b: EventBody) {
    b.ControlAccepted? || b.ControlRejected?
  }

  /** A rejected request changes nothing but the mark of consumed identifiers. */
  predicate SameButForIdentifiers(s: Session, t: Session) {
    t == s.(requestIdHighWaterMark := t.requestIdHighWaterMark, eventSequence := t.eventSequence)
  }

  lemma AnswerIsAckThenFacts(s: Session, e: Envelope)
    requires Settled(s)
    ensures var r := Answer(s, e);
      && 1 <= |r.bodies| <= 4
      && IsAck(r.bodies[0])
      && (forall i :: 1 <= i < |r.bodies| ==> !IsAck(r.bodies[i]))
      && (r.bodies[0].ControlRejected? ==> |r.bodies| == 1 && SameButForIdentifiers(s, r.session))
      && Settled(r.session)
      && r.session.eventSequence == s.eventSequence
  {
  }

  /** The promises of one call: consecutive numbering under the caller's own identifier, exactly
      one acknowledgement and it comes first, no effect when it is a rejection, and an identifier
      is accepted only above every identifier consumed before. */
  lemma HandleMeetsContract(s: Session, e: Envelope)
    requires Settled(s)
    ensures var (t, events) := Handle(s, e);
      && Settled(t)
      && 1 <= |events| <= 4
      && t.eventSequence == s.eventSequence + |events|
      && (forall i :: 0 <= i < |events| ==>
            && events[i].eventSequence == s.eventSequence + 1 + i
            && events[i].requestId == e.request.requestId
            && events[i].body.Some?
            && (IsAck(events[i].body.value) <==> i == 0))
      && (events[0].body.value.ControlRejected? ==> |events| == 1 && SameButForIdentifiers(s, t))
      && (events[0].body.value.ControlAccepted? ==>
            && s.requestIdHighWaterMark < e.request.requestId == t.requestIdHighWaterMark
            && e.sequence == e.request.requestId)
      && s.requestIdHighWaterMark <= t.requestIdHighWaterMark
  {
    AnswerIsAckThenFacts(s, e);
  }

  function AcceptedId(e: EngineEvent): seq<nat> {
    if e.body.Some? && e.body.value.ControlAccepted? then [e.requestId] else []
  }

  /** The identifiers a stream of events accepts, in order. */
  function AcceptedIds(events: seq<EngineEvent>): seq<nat> {
    if events == [] then [] else AcceptedId(events[0]) + AcceptedIds(events[1..])
  }

  lemma {:induction false} AcceptedIdsConcat(a: seq<EngineEvent>, b: seq<EngineEvent>)
    ensures AcceptedIds(a + b) == AcceptedIds(a) + AcceptedIds(b)
  {
    if a == [] {
      assert a + b == b;
    } else {
      assert (a + b)[1..] == a[1..] + b;
      AcceptedIdsConcat(a[1..], b);
      ConcatAssociates(AcceptedId(a[0]), AcceptedIds(a[1..]), AcceptedIds(b));
    }
  }

  predicate StrictlyAbove(floor: nat, ids: seq<nat>) {
    && (forall i :: 0 <= i < |ids| ==> floor < ids[i])
    && (forall i, j :: 0 <= i < j < |ids| ==> ids[i] < ids[j])
  }

  lemma {:induction false} AcceptedIdsOfBatch(events: seq<EngineEvent>)
    requires forall i :: 0 <= i < |events| ==> !(events[i].body.Some? && events[i].body.value.ControlAccepted?)
    ensures AcceptedIds(events) == []
  {
    if events != [] {
      AcceptedIdsOfBatch(events[1..]);
    }
  }

  /** A whole run of the engine: event sequences run on without a gap or a repeat, the settled
      state is kept, and the accepted identifiers strictly increase. */
  lemma {:induction false} ServeMeetsContract(s: Session, frames: seq<Envelope>)
    requires Settled(s)
    ensures var (t, events, exited) := Serve(s, frames);
      && Settled(t)
      && t.eventSequence == s.eventSequence + |events|
      && (forall i :: 0 <= i < |events| ==> events[i].eventSequence == s.eventSequence + 1 + i)
      && StrictlyAbove(s.requestIdHighWaterMark, AcceptedIds(events))
      && s.requestIdHighWaterMark <= t.requestIdHighWaterMark
    decreases |frames|
  {
    hide Handle;
    hide Settled;
    hide SameButForIdentifiers;
    if frames != [] {
      var (t, events) := Handle(s, frames[0]);
      HandleMeetsContract(s, frames[0]);
      AcceptedIdsOfBatch(events[1..]);
      assert AcceptedIds(events) ==
        if events[0].body.value.ControlAccepted? then [frames[0].request.requestId] else [];
      if !ExitsAfter(t, frames[0]) {
        ServeMeetsContract(t, frames[1..]);
        AcceptedIdsConcat(events, Serve(t, frames[1..]).1);
      }
    }
  }

  // ------------------------------------------------------------ the mutable form

  /** `after` and `events` are what the transition table answers in `before`. */
  ghost predicate Answered(before: Session, requestId: nat, control: int,
                           after: Session, events: seq<EngineEvent>)
  {
    var reply := AnswerKind(before, control);
    && after == reply.session.(eventSequence := before.eventSequence + |reply.bodies|)
    && events == Stamp(before.eventSequence + 1, requestId, reply.bodies)
  }

  lemma CancelAnswer(s: Session)
    requires s.state == Running || s.state == Paused || s.state == BuildingProvisionalPlan
             || s.state == ProvisionalPlanReady
    ensures AnswerKind(s, CancelScan.Code()) ==
      Reply(s.(state := Cancelled),
            [ControlAccepted(CancelScan.Code(), Cancelling.Code()),
             ScanStateChanged(Cancelling.Code(), CancelAcknowledged),
             ScanStateChanged(Cancelled.Code(), ScanIsCancelled),
             ScanCancelled(CancelledByUser)])
  {
  }

  lemma ResumeAnswer(s: Session)
    requires s.state == Paused || s.state == ProvisionalPlanReady
    ensures AnswerKind(s, ResumeScan.Code()) ==
      Reply(s.(state := Running, provisionalPlanId := None),
            [ControlAccepted(ResumeScan.Code(), Running.Code())]
            + (if s.provisionalPlanId.Some? then [PlanInvalidated(s.provisionalPlanId.value)] else [])
            + [ScanStateChanged(Running.Code(), ResumeAcknowledged),
               ScanProgress(FixtureProgress(s.profile))])
  {
  }

  lemma PlanAnswer(s: Session)
    requires s.state == Running || s.state == Paused
    ensures AnswerKind(s, PauseAndBuildProvisionalPlan.Code()) ==
      Reply(s.(state := ProvisionalPlanReady, provisionalPlanId := Some(PLAN.planId)),
            [ControlAccepted(PauseAndBuildProvisionalPlan.Code(), BuildingProvisionalPlan.Code()),
             ScanStateChanged(BuildingProvisionalPlan.Code(), PlanRequested),
             ScanStateChanged(ProvisionalPlanReady.Code(), PlanIsReady),
             PlanReady(PLAN)])
  {
  }

  /** The session as the engine holds it: a value whose methods update it in place. */
  class ScanSession {
    var state: ScanState
    var eventSequence: nat
    var profile: string
    var requestIdHighWaterMark: nat
    var provisionalPlanId: Option<string>

    function Value(): Session
      reads this
    {
      Session(state, eventSequence, profile, requestIdHighWaterMark, provisionalPlanId)
    }

    constructor ()
      ensures Value() == INITIAL
    {
      state := Idle;
      eventSequence := 0;
      profile := "standard";
      requestIdHighWaterMark := 0;
      provisionalPlanId := None;
    }

    method Start(requestId: nat, requestedProfile: string) returns (events: seq<EngineEvent>)
      requires HasRoom(Value(), Envelope(requestId, StartScanRequest(requestId, requestedProfile)))
      modifies this
      ensures (Value(), events) ==
        Handle(old(Value()), Envelope(requestId, StartScanRequest(requestId, requestedProfile)))
    {
      var fault := ConsumeRequestId(requestId);
      if fault.Some? {
        events := Reject(requestId, StartScan.Code(), fault.value.code, fault.value.detail);
        assert events == Handle(old(Value()), Envelope(requestId, StartScanRequest(requestId, requestedProfile))).1;
        return;
      }
      if state != Idle {
        events := Reject(requestId, StartScan.Code(), InvalidState, AlreadyStarted);
        assert events == Handle(old(Value()), Envelope(requestId, StartScanRequest(requestId, requestedProfile))).1;
        return;
      }
      profile := if requestedProfile == "" then "standard" else requestedProfile;
      state := Running;
      var first := Emit(requestId, ControlAccepted(StartScan.Code(), Running.Code()));
      var second := Emit(requestId, ScanStateChanged(Running.Code(), ScanStarted));
      var third := Emit(requestId, ScanProgress(FixtureProgress(profile)));
      events := [first, second, third];
      assert events == Handle(old(Value()), Envelope(requestId, StartScanRequest(requestId, requestedProfile))).1;
    }

    method Control(requestId: nat, control: int) returns (events: seq<EngineEvent>)
      requires HasRoom(Value(), Envelope(requestId, ScanControlRequest(requestId, control)))
      modifies this
      ensures (Value(), events) ==
        Handle(old(Value()), Envelope(requestId, ScanControlRequest(requestId, control)))
    {
      var fault := ConsumeRequestId(requestId);
      if fault.Some? {
        events := Reject(requestId, control, fault.value.code, fault.value.detail);
        assert events == Handle(old(Value()), Envelope(requestId, ScanControlRequest(requestId, control))).1;
        return;
      }
      events := Switch(requestId, control);
    }

    /** The transition table, entered once the identifier has been consumed. */
    method Switch(requestId: nat, control: int) returns (events: seq<EngineEvent>)
      requires eventSequence + |AnswerKind(Value(), control).bodies| <= U64_MAX
      modifies this`state, this`eventSequence, this`provisionalPlanId
      ensures Answered(old(Value()), requestId, control, Value(), events)
    {
      if control == PauseScan.Code() && state == Running {
        events := Pause(requestId);
      } else if control == ResumeScan.Code() && (state == Paused || state == ProvisionalPlanReady) {
        events := Resume(requestId);
      } else if control == PauseAndBuildProvisionalPlan.Code() && (state == Running || state == Paused) {
        events := BuildPlan(requestId);
      } else if control == CancelScan.Code()
             && (state == Running || state == Paused || state == BuildingProvisionalPlan
                 || state == ProvisionalPlanReady) {
        events := Cancel(requestId);
      } else if control == PauseScan.Code() || control == ResumeScan.Code()
             || control == PauseAndBuildProvisionalPlan.Code() || control == CancelScan.Code() {
        events := Reject(requestId, control, InvalidState, ControlNotValidInState);
      } else {
        events := Reject(requestId, control, MalformedRequest, ControlNotValidInRequest);
      }
    }

    method Pause(requestId: nat) returns (events: seq<EngineEvent>)
      requires eventSequence + 2 <= U64_MAX && state == Running
      modifies this`state, this`eventSequence, this`provisionalPlanId
      ensures Answered(old(Value()), requestId, PauseScan.Code(), Value(), events)
    {
      state := Paused;
      var first := Emit(requestId, ControlAccepted(PauseScan.Code(), Paused.Code()));
      var second := Emit(requestId, ScanStateChanged(Paused.Code(), PauseAcknowledged));
      events := [first, second];
    }

    method Resume(requestId: nat) returns (events: seq<EngineEvent>)
      requires eventSequence + (if provisionalPlanId.Some? then 4 else 3) <= U64_MAX
      requires state == Paused || state == ProvisionalPlanReady
      modifies this`state, this`eventSequence, this`provisionalPlanId
      ensures Answered(old(Value()), requestId, ResumeScan.Code(), Value(), events)
    {
      ResumeAnswer(Value());
      hide AnswerKind;
      var invalidated := provisionalPlanId;
      provisionalPlanId := None;
      state := Running;
      var first := Emit(requestId, ControlAccepted(ResumeScan.Code(), Running.Code()));
      events := [first];
      if invalidated.Some? {
        var dropped := Emit(requestId, PlanInvalidated(invalidated.value));
        events := events + [dropped];
      }
      var changed := Emit(requestId, ScanStateChanged(Running.Code(), ResumeAcknowledged));
      var report := Emit(requestId, ScanProgress(FixtureProgress(profile)));
      events := events + [changed, report];
    }

    method BuildPlan(requestId: nat) returns (events: seq<EngineEvent>)
      requires eventSequence + 4 <= U64_MAX && (state == Running || state == Paused)
      modifies this`state, this`eventSequence, this`provisionalPlanId
      ensures Answered(old(Value()), requestId, PauseAndBuildProvisionalPlan.Code(), Value(), events)
    {
      PlanAnswer(Value());
      hide AnswerKind;
      state := BuildingProvisionalPlan;
      var first := Emit(requestId, ControlAccepted(PauseAndBuildProvisionalPlan.Code(), state.Code()));
      var second := Emit(requestId, ScanStateChanged(BuildingProvisionalPlan.Code(), PlanRequested));
      provisionalPlanId := Some(PLAN.planId);
      state := ProvisionalPlanReady;
      var third := Emit(requestId, ScanStateChanged(ProvisionalPlanReady.Code(), PlanIsReady));
      var fourth := Emit(requestId, PlanReady(PLAN));
      events := [first, second, third, fourth];
    }

    method Cancel(requestId: nat) returns (events: seq<EngineEvent>)
      requires eventSequence + 4 <= U64_MAX
      requires state == Running || state == Paused || state == BuildingProvisionalPlan
               || state == ProvisionalPlanReady
      modifies this`state, this`eventSequence, this`provisionalPlanId
      ensures Answered(old(Value()), requestId, CancelScan.Code(), Value(), events)
    {
      CancelAnswer(Value());
      hide AnswerKind;
      state := Cancelling;
      var first := Emit(requestId, ControlAccepted(CancelScan.Code(), Cancelling.Code()));
      var second := Emit(requestId, ScanStateChanged(Cancelling.Code(), CancelAcknowledged));
      var third := Emit(requestId, ScanStateChanged(Cancelled.Code(), ScanIsCancelled));
      var fourth := Emit(requestId, ScanCancelled(CancelledByUser));
      events := [first, second, third, fourth];
      state := Cancelled;
    }

    method RejectMalformed(requestId: nat, control: int, detail: Wording) returns (events: seq<EngineEvent>)
      requires eventSequence + 1 <= U64_MAX
      modifies this
      ensures var reply := AnswerMalformed(old(Value()), requestId, control, detail);
        && Value() == reply.session.(eventSequence := old(eventSequence) + 1)
        && events == Stamp(old(eventSequence) + 1, requestId, reply.bodies)
    {
      var fault := ConsumeRequestId(requestId);
      if fault.Some? {
        events := Reject(requestId, control, fault.value.code, fault.value.detail);
      } else {
        events := Reject(requestId, control, MalformedRequest, detail);
      }
    }

    method ConsumeRequestId(requestId: nat) returns (fault: Option<Fault>)
      modifies this`requestIdHighWaterMark
      ensures fault == IdentifierFault(old(requestIdHighWaterMark), requestId)
      ensures requestIdHighWaterMark == if fault.None? then requestId else old(requestIdHighWaterMark)
    {
      if requestId == 0 {
        return Some(Fault(MalformedRequest, ZeroRequestId));
      }
      if requestId <= requestIdHighWaterMark {
        return Some(Fault(DuplicateRequestId, StaleRequestId));
      }
      requestIdHighWaterMark := requestId;
      return None;
    }

    method Reject(requestId: nat, control: int, code: RejectCode, detail: Wording)
      returns (events: seq<EngineEvent>)
      requires eventSequence + 1 <= U64_MAX
      modifies this`eventSequence
      ensures eventSequence == old(eventSequence) + 1
      ensures events ==
        [EngineEvent(eventSequence, requestId, Some(ControlRejected(control, code.Code(), detail, state.Code())))]
    {
      var event := Emit(requestId, ControlRejected(control, code.Code(), detail, state.Code()));
      events := [event];
    }

    /** Numbers one event. The counter is a 64-bit word; stepping past its end traps. */
    method Emit(requestId: nat, body: EventBody) returns (event: EngineEvent)
      requires eventSequence + 1 <= U64_MAX
      modifies this`eventSequence
      ensures eventSequence == old(eventSequence) + 1
      ensures event == EngineEvent(eventSequence, requestId, Some(body))
    {
      eventSequence := eventSequence + 1;
      event := EngineEvent(eventSequence, requestId, Some(body));
    }
  }
}
