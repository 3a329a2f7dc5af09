/** The engine's ready loop over everything its peer may send, decodable or not. */
module ReadyLoop {
  import opened ScanProtocol
  import opened ScanEngine

  datatype Body = Scan(request: Request) | Business | Unexpected

  /** The payload of one frame: bytes that are no envelope, or an envelope with its body. */
  datatype Payload = Undecodable | Message(sequence: nat, body: Body)

  datatype Refusal = MalformedEnvelope | BusinessUnsupported

  datatype Response = Event(event: EngineEvent) | HelloRejected(sequence: nat, refusal: Refusal)

  /** How the loop ends: no more frames, a scan that was cancelled, or the event counter at its end. */
  datatype Ending = EndOfInput | LeftCancelled | Trapped

  function EnvelopeIn(p: Payload): Envelope
    requires p.Message? && p.body.Scan?
  {
    Envelope(p.sequence, p.body.request)
  }

  function Events(events: seq<EngineEvent>): (r: seq<Response>)
    ensures |r| == |events| && forall i :: 0 <= i < |r| ==> r[i] == Event(events[i])
  {
    seq(|events|, i requires 0 <= i < |events| => Event(events[i]))
  }

  /** The answer to a frame that carries no scan request. It leaves the session alone. */
  function Refused(p: Payload): Response
    requires p.Message? ==> !p.body.Scan?
  {
    if p.Undecodable? then HelloRejected(0, MalformedEnvelope)
    else HelloRejected(p.sequence, if p.body.Business? then BusinessUnsupported else MalformedEnvelope)
  }

  /** Everything written for a list of frames, and how the loop ends. */
  function Loop(s: Session, payloads: seq<Payload>): (r: (seq<Response>, Ending))
    decreases |payloads|
  {
    if payloads == [] then ([], EndOfInput)
    else
      var p := payloads[0];
      if p.Undecodable? || !p.body.Scan? then
        var rest := Loop(s, payloads[1..]);
        ([Refused(p)] + rest.0, rest.1)
      else if !HasRoom(s, EnvelopeIn(p)) then ([], Trapped)
      else
        var (t, events) := Handle(s, EnvelopeIn(p));
        if ExitsAfter(t, EnvelopeIn(p)) then (Events(events), LeftCancelled)
        else
          var rest := Loop(t, payloads[1..]);
          (Events(events) + rest.0, rest.1)
  }

  // ---------------------------------------------- only scan requests matter to the scan

  function ScanRequests(payloads: seq<Payload>): seq<Envelope> {
    if payloads == [] then []
    else (if payloads[0].Message? && payloads[0].body.Scan? then [EnvelopeIn(payloads[0])] else [])
         + ScanRequests(payloads[1..])
  }

  function EventsAmong(responses: seq<Response>): seq<EngineEvent> {
    if responses == [] then []
    else (if responses[0].Event? then [responses[0].event] else []) + EventsAmong(responses[1..])
  }

  lemma {:induction false} EventsComeFirst(events: seq<EngineEvent>, rest: seq<Response>)
    ensures EventsAmong(Events(events) + rest) == events + EventsAmong(rest)
    decreases |events|
  {
    if events == [] {
      assert Events(events) + rest == rest;
    } else {
      EventsComeFirst(events[1..], rest);
      assert (Events(events) + rest)[1..] == Events(events[1..]) + rest;
      ConcatAssociates([events[0]], events[1..], EventsAmong(rest));
      assert events == [events[0]] + events[1..];
    }
  }

  /** Frames that carry no scan request are refused one by one and make no difference to the scan:
      unless the counter traps, the events written are those the session answers to the scan
      requests alone, and the loop leaves for the same reason. */
  lemma {:induction false} OtherFramesDoNotMatter(s: Session, payloads: seq<Payload>)
    requires Loop(s, payloads).1 != Trapped
    ensures EventsAmong(Loop(s, payloads).0) == Serve(s, ScanRequests(payloads)).1
    ensures Loop(s, payloads).1 == LeftCancelled <==> Serve(s, ScanRequests(payloads)).2
    decreases |payloads|
  {
    hide Handle;
    hide HasRoom;
    if payloads != [] {
      var p := payloads[0];
      if p.Undecodable? || !p.body.Scan? {
        OtherFramesDoNotMatter(s, payloads[1..]);
        assert ScanRequests(payloads) == ScanRequests(payloads[1..]);
        var rest := Loop(s, payloads[1..]).0;
        assert ([Refused(p)] + rest)[1..] == rest;
      } else {
        var t := Handle(s, EnvelopeIn(p)).0;
        if !ExitsAfter(t, EnvelopeIn(p)) {
          OtherFramesDoNotMatter(t, payloads[1..]);
        }
        ScanRequestIsServed(s, payloads);
      }
    }
  }

  lemma ScanRequestIsServed(s: Session, payloads: seq<Payload>)
    requires payloads != [] && payloads[0].Message? && payloads[0].body.Scan?
    requires Loop(s, payloads).1 != Trapped
    requires var t := Handle(s, EnvelopeIn(payloads[0])).0;
      !ExitsAfter(t, EnvelopeIn(payloads[0])) ==>
        && EventsAmong(Loop(t, payloads[1..]).0) == Serve(t, ScanRequests(payloads[1..])).1
        && (Loop(t, payloads[1..]).1 == LeftCancelled <==> Serve(t, ScanRequests(payloads[1..])).2)
    ensures EventsAmong(Loop(s, payloads).0) == Serve(s, ScanRequests(payloads)).1
    ensures Loop(s, payloads).1 == LeftCancelled <==> Serve(s, ScanRequests(payloads)).2
  {
    hide Handle;
    hide HasRoom;
    var e := EnvelopeIn(payloads[0]);
    var (t, events) := Handle(s, e);
    var requests := ScanRequests(payloads);
    assert requests == [e] + ScanRequests(payloads[1..]);
    assert requests[0] == e && requests[1..] == ScanRequests(payloads[1..]);
    if ExitsAfter(t, e) {
      EventsComeFirst(events, []);
      assert Events(events) + [] == Events(events) && events + EventsAmong([]) == events;
    } else {
      EventsComeFirst(events, Loop(t, payloads[1..]).0);
    }
  }

  // ------------------------------------------------------------ every frame is answered

  /** What a frame may be answered with: one refusal under its own sequence, if it has one, or the
      one to four events of its request. */
  ghost predicate IsAnswer(p: Payload, answer: seq<Response>) {
    match p
    case Undecodable => answer == [HelloRejected(0, MalformedEnvelope)]
    case Message(sequence, Business) => answer == [HelloRejected(sequence, BusinessUnsupported)]
    case Message(sequence, Unexpected) => answer == [HelloRejected(sequence, MalformedEnvelope)]
    case Message(_, Scan(request)) =>
      1 <= |answer| <= 4 &&
      forall r :: r in answer ==> r.Event? && r.event.requestId == request.requestId && r.event.body.Some?
  }

  function Joined(answers: seq<seq<Response>>): seq<Response> {
    if answers == [] then [] else answers[0] + Joined(answers[1..])
  }

  /** What is written is one answer for each frame that was read, in the order of the frames. All
      frames are read, unless a control request makes the loop leave, or a request would exhaust the
      event counter. */
  ghost predicate Answers(payloads: seq<Payload>, written: seq<Response>, ending: Ending, answers: seq<seq<Response>>) {
    var n := |answers|;
    && n <= |payloads| && written == Joined(answers)
    && (forall k :: 0 <= k < n ==> IsAnswer(payloads[k], answers[k]))
    && (ending == EndOfInput ==> n == |payloads|)
    && (ending == LeftCancelled ==>
          && n > 0 && payloads[n - 1].Message? && payloads[n - 1].body.Scan?
          && payloads[n - 1].body.request.ScanControlRequest?)
    && (ending == Trapped ==> n < |payloads| && payloads[n].Message? && payloads[n].body.Scan?)
  }

  lemma RequestIsAnswered(s: Session, p: Payload)
    requires Settled(s) && p.Message? && p.body.Scan?
    ensures IsAnswer(p, Events(Handle(s, EnvelopeIn(p)).1)) && Settled(Handle(s, EnvelopeIn(p)).0)
  {
    hide Settled;
    HandleMeetsContract(s, EnvelopeIn(p));
    hide Handle;
  }

  lemma OneMoreAnswer(payloads: seq<Payload>, answer: seq<Response>, written: seq<Response>, ending: Ending,
                      answers: seq<seq<Response>>)
    requires payloads != [] && IsAnswer(payloads[0], answer) && Answers(payloads[1..], written, ending, answers)
    ensures Answers(payloads, answer + written, ending, [answer] + answers)
  {
    hide IsAnswer;
    var all := [answer] + answers;
    assert all[1..] == answers;
    forall k | 0 <= k < |all| ensures IsAnswer(payloads[k], all[k]) {
      if k > 0 {
        assert IsAnswer(payloads[1..][k - 1], answers[k - 1]);
      }
    }
  }

  lemma {:induction false} EveryFrameIsAnswered(s: Session, payloads: seq<Payload>)
    returns (answers: seq<seq<Response>>)
    requires Settled(s)
    ensures Answers(payloads, Loop(s, payloads).0, Loop(s, payloads).1, answers)
    decreases |payloads|
  {
    hide Settled;
    hide Handle;
    hide HasRoom;
    hide IsAnswer;
    answers := [];
    if payloads != [] {
      var p := payloads[0];
      if p.Undecodable? || !p.body.Scan? {
        OtherIsAnswered(p);
        var rest := EveryFrameIsAnswered(s, payloads[1..]);
        OneMoreAnswer(payloads, [Refused(p)], Loop(s, payloads[1..]).0, Loop(s, payloads[1..]).1, rest);
        answers := [[Refused(p)]] + rest;
      } else if HasRoom(s, EnvelopeIn(p)) {
        var (t, events) := Handle(s, EnvelopeIn(p));
        RequestIsAnswered(s, p);
        if ExitsAfter(t, EnvelopeIn(p)) {
          answers := [Events(events)];
          assert answers[1..] == [] && Joined(answers) == Events(events) + Joined([]) == Events(events);
        } else {
          var rest := EveryFrameIsAnswered(t, payloads[1..]);
          OneMoreAnswer(payloads, Events(events), Loop(t, payloads[1..]).0, Loop(t, payloads[1..]).1, rest);
          answers := [Events(events)] + rest;
        }
      }
    }
  }

  lemma OtherIsAnswered(p: Payload)
    requires p.Undecodable? || !p.body.Scan?
    ensures IsAnswer(p, [Refused(p)])
  {
  }

  // ------------------------------------------------------------------------ the loop

  /** One scan request. */
  method Dispatch(session: ScanSession, e: Envelope) returns (events: seq<EngineEvent>)
    requires HasRoom(session.Value(), e)
    modifies session
    ensures (session.Value(), events) == Handle(old(session.Value()), e)
  {
    match e.request {
      case StartScanRequest(id, profile) =>
        if e.sequence == id {
          events := session.Start(id, profile);
        } else {
          events := session.RejectMalformed(id, StartScan.Code(), EnvelopeSequenceDiffers);
        }
      case ScanControlRequest(id, control) =>
        if e.sequence == id {
          events := session.Control(id, control);
        } else {
          events := session.RejectMalformed(id, control, EnvelopeSequenceDiffers);
        }
    }
  }

  /** The ready loop over the frames of one connection. */
  method RunReadyLoop(payloads: seq<Payload>)
    returns (written: seq<Response>, ending: Ending, ghost answers: seq<seq<Response>>)
    ensures (written, ending) == Loop(INITIAL, payloads)
    ensures Answers(payloads, written, ending, answers)
  {
    answers := EveryFrameIsAnswered(INITIAL, payloads);
    hide Answers;
    hide Handle;
    hide HasRoom;
    hide Refused;
    var session := new ScanSession();
    written := [];
    ghost var whole := Loop(INITIAL, payloads);
    assert payloads[0..] == payloads && [] + whole.0 == whole.0;
    for next := 0 to |payloads|
      invariant fresh(session)
      invariant whole ==
        (written + Loop(session.Value(), payloads[next..]).0, Loop(session.Value(), payloads[next..]).1)
    {
      var p := payloads[next];
      assert payloads[next..][0] == p && payloads[next..][1..] == payloads[next + 1..];
      if p.Undecodable? || !p.body.Scan? {
        ConcatAssociates(written, [Refused(p)], Loop(session.Value(), payloads[next + 1..]).0);
        written := written + [Refused(p)];
      } else if !HasRoom(session.Value(), EnvelopeIn(p)) {
        assert written + [] == written;
        return written, Trapped, answers;
      } else {
        var events := Dispatch(session, EnvelopeIn(p));
        ConcatAssociates(written, Events(events), Loop(session.Value(), payloads[next + 1..]).0);
        written := written + Events(events);
        if p.body.request.ScanControlRequest? && session.state == Cancelled {
          return written, LeftCancelled, answers;
        }
      }
    }
    assert written + [] == written;
    return written, EndOfInput, answers;
  }
}
