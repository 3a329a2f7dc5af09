/** The answers of scan control as a table over codes and numbers, apart from the session's own branches. */
module SessionTable {
  import opened Wrappers
  import opened ScanProtocol
  import opened ScanEngine

  /** The code of what is asked for: 1 to start, and a control request says its own. */
  function Asked(r: Request): int {
    match r
    case StartScanRequest(_, _) => 1
    case ScanControlRequest(_, control) => control
  }

  /** 1 idle, 2 running, 3 paused, 4 building a plan, 5 plan ready: which states take which request. */
  ghost predicate Takes(state: int, r: Request) {
    match r
    case StartScanRequest(_, _) => state == 1
    case ScanControlRequest(_, control) =>
      || (control == 2 && state == 2)
      || (control == 3 && state in {3, 5})
      || (control == 4 && state in {2, 3})
      || (control == 5 && state in {2, 3, 4, 5})
  }

  /** A new identifier, repeated by the envelope, for something the state takes. */
  ghost predicate Granted(s: Session, e: Envelope) {
    e.request.requestId > s.requestIdHighWaterMark && e.sequence == e.request.requestId
    && Takes(s.state.Code(), e.request)
  }

  /** The code of a refusal: 2 for an identifier used before, 3 for a malformed request, 1 for a request the
      state does not take. */
  ghost predicate IsRefusalCode(s: Session, e: Envelope, code: int) {
    var id := e.request.requestId;
    && (code == 2 <==> 0 < id <= s.requestIdHighWaterMark)
    && (code == 3 <==>
          || id == 0
          || (id > s.requestIdHighWaterMark
              && (e.sequence != id || (e.request.ScanControlRequest? && e.request.control !in {2, 3, 4, 5}))))
    && code in {1, 2, 3}
  }

  /** The answer to a granted request: the acknowledgement with the state it leads to, then the facts. */
  ghost predicate IsGrantedAnswer(s: Session, asked: int, profile: string, bodies: seq<EventBody>) {
    && (asked == 1 ==>
          && |bodies| == 3 && bodies[..2] == [ControlAccepted(1, 2), ScanStateChanged(2, ScanStarted)]
          && bodies[2].ScanProgress? && bodies[2].progress.profile == profile)
    && (asked == 2 ==> bodies == [ControlAccepted(2, 3), ScanStateChanged(3, PauseAcknowledged)])
    && (asked == 3 && s.provisionalPlanId.None? ==>
          && |bodies| == 3 && bodies[..2] == [ControlAccepted(3, 2), ScanStateChanged(2, ResumeAcknowledged)]
          && bodies[2].ScanProgress? && bodies[2].progress.profile == profile)
    && (asked == 3 && s.provisionalPlanId.Some? ==>
          && |bodies| == 4 && bodies[0] == ControlAccepted(3, 2)
          && bodies[1] == PlanInvalidated(s.provisionalPlanId.value)
          && bodies[2] == ScanStateChanged(2, ResumeAcknowledged)
          && bodies[3].ScanProgress? && bodies[3].progress.profile == profile)
    && (asked == 4 ==>
          bodies == [ControlAccepted(4, 4), ScanStateChanged(4, PlanRequested), ScanStateChanged(5, PlanIsReady),
                     PlanReady(PLAN)])
    && (asked == 5 ==>
          bodies == [ControlAccepted(5, 6), ScanStateChanged(6, CancelAcknowledged),
                     ScanStateChanged(7, ScanIsCancelled), ScanCancelled(CancelledByUser)])
  }

  /** The profile a start asks for; an empty one is the standard profile. */
  function ProfileAfter(s: Session, r: Request): string {
    if r.ScanControlRequest? then s.profile else if r.profile == "" then "standard" else r.profile
  }

  /** The state a granted request leaves, by its code, and the plan that is held then. */
  ghost predicate IsGrantedState(s: Session, asked: int, t: Session) {
    && (asked in {1, 3} ==> t.state.Code() == 2)
    && (asked == 2 ==> t.state.Code() == 3)
    && (asked == 4 ==> t.state.Code() == 5)
    && (asked == 5 ==> t.state.Code() == 7)
    && (asked == 3 ==> t.provisionalPlanId.None?)
    && (asked == 4 ==> t.provisionalPlanId == Some(PLAN.planId))
    && (asked !in {3, 4} ==> t.provisionalPlanId == s.provisionalPlanId)
  }

  /** What a reply must be for the table to hold. */
  ghost predicate ByTheTable(s: Session, e: Envelope, t: Session, bodies: seq<EventBody>) {
    var asked := Asked(e.request);
    && (!Granted(s, e) ==>
          && |bodies| == 1 && bodies[0].ControlRejected?
          && bodies[0].rejectedControl == asked && bodies[0].currentState == s.state.Code()
          && IsRefusalCode(s, e, bodies[0].code)
          && t.state == s.state && t.profile == s.profile && t.provisionalPlanId == s.provisionalPlanId)
    && (Granted(s, e) ==>
          && IsGrantedAnswer(s, asked, ProfileAfter(s, e.request), bodies)
          && IsGrantedState(s, asked, t) && t.profile == ProfileAfter(s, e.request))
  }

  lemma StartByTheTable(s: Session, e: Envelope)
    requires e.request.StartScanRequest?
    ensures ByTheTable(s, e, Answer(s, e).session, Answer(s, e).bodies)
  {
  }

  lemma KindByTheTable(s: Session, e: Envelope)
    requires e.request.ScanControlRequest? && e.request.requestId > s.requestIdHighWaterMark
    requires e.sequence == e.request.requestId
    ensures var r := AnswerKind(s.(requestIdHighWaterMark := e.request.requestId), e.request.control);
      ByTheTable(s, e, r.session, r.bodies)
  {
  }

  lemma ControlByTheTable(s: Session, e: Envelope)
    requires e.request.ScanControlRequest?
    ensures ByTheTable(s, e, Answer(s, e).session, Answer(s, e).bodies)
  {
    hide AnswerKind;
    if e.request.requestId > s.requestIdHighWaterMark && e.sequence == e.request.requestId {
      KindByTheTable(s, e);
      hide ByTheTable;
    }
  }

  /** Refused or not, an identifier above the mark is used up, and no other moves the mark. */
  lemma MarkByTheTable(s: Session, e: Envelope)
    ensures var (id, mark) := (e.request.requestId, s.requestIdHighWaterMark);
      Answer(s, e).session.requestIdHighWaterMark == if id > mark then id else mark
  {
  }

  /** Every request is answered by the table, under its own identifier and in the next event sequences. */
  lemma EveryRequestByTheTable(s: Session, e: Envelope)
    ensures var (t, events) := Handle(s, e);
      var id, mark := e.request.requestId, s.requestIdHighWaterMark;
      && t.requestIdHighWaterMark == (if id > mark then id else mark)
      && t.eventSequence == s.eventSequence + |events|
      && exists bodies ::
        && ByTheTable(s, e, t, bodies) && |bodies| == |events|
        && forall i :: 0 <= i < |events| ==> events[i] == EngineEvent(s.eventSequence + 1 + i, id, Some(bodies[i]))
  {
    hide Answer;
    hide Granted;
    hide IsRefusalCode;
    hide IsGrantedAnswer;
    MarkByTheTable(s, e);
    if e.request.StartScanRequest? {
      StartByTheTable(s, e);
    } else {
      ControlByTheTable(s, e);
    }
    assert ByTheTable(s, e, Handle(s, e).0, Answer(s, e).bodies);
  }
}
