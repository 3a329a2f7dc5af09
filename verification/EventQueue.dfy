/** The bounded queue between the engine driver and the display. Semantic events are kept
    exactly; a run of contiguous progress events occupies one entry that holds the latest.

    Each function is one critical section of the mutex; waiting on the condition variable is
    the outcome `Blocked`, which leaves the queue as it was. */
module EventQueue {
  import opened ScanProtocol
  import opened ClientReducer

  datatype Queue = Queue(
    events: seq<UiEvent>,
    semanticEvents: nat,
    semanticCapacity: nat,
    producerClosed: bool,
    receiverClosed: bool)

  predicate IsProgressEvent(e: UiEvent) {
    e.Engine? && e.delivery.event.IsProgress()
  }

  datatype SendResult = Sent | Blocked | BrokenPipe | SequenceOverflow | NotContiguous | SkippedOverflow

  function Empty(capacity: nat): Queue {
    Queue([], 0, capacity, false, false)
  }

  predicate JoinsLast(events: seq<UiEvent>, event: UiEvent) {
    IsProgressEvent(event) && events != [] && IsProgressEvent(events[|events| - 1])
  }

  /** The later progress event, credited with everything dropped in its favour. */
  function Merge(previous: Delivery, next: Delivery): Delivery {
    Delivery(next.event, previous.skipped + 1)
  }

  function Send(q: Queue, event: UiEvent): (Queue, SendResult) {
    if !IsProgressEvent(event) && q.semanticEvents >= q.semanticCapacity && !q.receiverClosed then (q, Blocked)
    else if q.receiverClosed then (q, BrokenPipe)
    else if JoinsLast(q.events, event) then
      var previous := q.events[|q.events| - 1].delivery;
      if previous.event.eventSequence >= U64_MAX then (q, SequenceOverflow)
      else if event.delivery.event.eventSequence != previous.event.eventSequence + 1 then (q, NotContiguous)
      else if previous.skipped >= U64_MAX then (q, SkippedOverflow)
      else (q.(events := q.events[..|q.events| - 1] + [Engine(Merge(previous, event.delivery))]), Sent)
    else
      (q.(events := q.events + [event],
          semanticEvents := q.semanticEvents + if IsProgressEvent(event) then 0 else 1), Sent)
  }

  datatype PopResult = Popped(event: UiEvent) | WaitsForEvent | SourceClosed

  function Pop(q: Queue): (Queue, PopResult)
    requires Bounded(q)
  {
    if q.events != [] then
      SemanticCountSplits(q.events);
      (q.(events := q.events[1..],
          semanticEvents := q.semanticEvents - if IsProgressEvent(q.events[0]) then 0 else 1),
       Popped(q.events[0]))
    else if q.producerClosed then (q, SourceClosed)
    else (q, WaitsForEvent)
  }

  // ------------------------------------------------------------------- its bound

  function SemanticCount(events: seq<UiEvent>): nat {
    if events == [] then 0
    else SemanticCount(events[..|events| - 1]) + if IsProgressEvent(events[|events| - 1]) then 0 else 1
  }

  predicate NoAdjacentProgress(events: seq<UiEvent>) {
    forall i, j :: 0 <= i < |events| && 0 <= j < |events| && j == i + 1 ==>
      !(IsProgressEvent(events[i]) && IsProgressEvent(events[j]))
  }

  predicate Bounded(q: Queue) {
    && 0 < q.semanticCapacity
    && q.semanticEvents == SemanticCount(q.events) <= q.semanticCapacity
    && NoAdjacentProgress(q.events)
  }

  lemma {:induction false} SemanticCountSplits(events: seq<UiEvent>)
    requires events != []
    ensures SemanticCount(events) == SemanticCount(events[1..]) + if IsProgressEvent(events[0]) then 0 else 1
    decreases |events|
  {
    if |events| > 1 {
      var front := events[..|events| - 1];
      SemanticCountSplits(front);
      assert front[1..] == events[1..][..|events| - 2];
    }
  }

  lemma {:induction false} AlternationBoundsLength(events: seq<UiEvent>)
    requires NoAdjacentProgress(events)
    ensures |events| <= 2 * SemanticCount(events) + 1
    ensures events != [] && !IsProgressEvent(events[|events| - 1]) ==> |events| <= 2 * SemanticCount(events)
    decreases |events|
  {
    if events != [] {
      AlternationBoundsLength(events[..|events| - 1]);
    }
  }

  /** The memory the queue may take, whatever floods it. */
  lemma LengthIsBounded(q: Queue)
    requires Bounded(q)
    ensures |q.events| <= 2 * q.semanticCapacity + 1
  {
    AlternationBoundsLength(q.events);
  }

  lemma SendKeepsCount(q: Queue, event: UiEvent)
    requires q.semanticEvents == SemanticCount(q.events)
    ensures Send(q, event).0.semanticEvents == SemanticCount(Send(q, event).0.events)
  {
    hide IsProgressEvent;
    var (after, result) := Send(q, event);
    if result == Sent {
      assert after.events[..|after.events| - 1] ==
        if JoinsLast(q.events, event) then q.events[..|q.events| - 1] else q.events;
      assert JoinsLast(q.events, event) ==> IsProgressEvent(after.events[|after.events| - 1]) by {
        MergedIsProgress(q, event);
      }
    }
  }

  lemma MergedIsProgress(q: Queue, event: UiEvent)
    ensures JoinsLast(q.events, event) && Send(q, event).1 == Sent ==>
      var after := Send(q, event).0.events;
      |after| == |q.events| && IsProgressEvent(after[|after| - 1])
  {
  }

  lemma SendKeepsBound(q: Queue, event: UiEvent)
    requires Bounded(q)
    ensures Bounded(Send(q, event).0)
  {
    SendKeepsCount(q, event);
    hide SemanticCount;
    hide IsProgressEvent;
  }

  lemma PopKeepsBound(q: Queue)
    requires Bounded(q)
    ensures Bounded(Pop(q).0)
  {
    if q.events != [] {
      SemanticCountSplits(q.events);
    }
  }

  /** The consumer gets the oldest entry; without one it waits, unless the producer is gone. */
  lemma TakingAnswers(q: Queue)
    requires Bounded(q)
    ensures q.events != [] ==> Pop(q).1 == Popped(q.events[0]) && Pop(q).0.events == q.events[1..]
    ensures Pop(q).1 == SourceClosed <==> q.events == [] && q.producerClosed
    ensures Pop(q).1 == WaitsForEvent <==> q.events == [] && !q.producerClosed
    ensures q.events == [] ==> Pop(q).0 == q
    ensures Pop(q).0.producerClosed == q.producerClosed && Pop(q).0.receiverClosed == q.receiverClosed
  {
  }

  /** A progress event never waits. Another one waits exactly while the queue holds as many such
      events as it may and someone is left to take them; without a receiver a send fails. */
  lemma SendingWaitsExactlyWhen(q: Queue, event: UiEvent)
    requires Bounded(q)
    ensures Send(q, event).1 == Blocked <==>
      !IsProgressEvent(event) && SemanticCount(q.events) == q.semanticCapacity && !q.receiverClosed
    ensures Send(q, event).1 == BrokenPipe <==> q.receiverClosed
    ensures Send(q, event).1 != Sent ==> Send(q, event).0 == q
    ensures Send(q, event).1 == Sent && !IsProgressEvent(event) ==> Send(q, event).0.events == q.events + [event]
  {
  }

  /** What the bound counts: the entries that are not progress. */
  lemma {:induction false} CountIsOfOthers(events: seq<UiEvent>)
    ensures SemanticCount(events) == |set i | 0 <= i < |events| && !IsProgressEvent(events[i])|
  {
    hide IsProgressEvent;
    if events != [] {
      var n := |events| - 1;
      var front := events[..n];
      CountIsOfOthers(front);
      var before := set i | 0 <= i < |front| && !IsProgressEvent(front[i]);
      var after := set i | 0 <= i < |events| && !IsProgressEvent(events[i]);
      assert after == before + if IsProgressEvent(events[n]) then {} else {n};
    }
  }

  // ------------------------------------------------------------ the mutable form

  class EventQueueState {
    var events: seq<UiEvent>
    var semanticEvents: nat
    const semanticCapacity: nat
    var producerClosed: bool
    var receiverClosed: bool

    function Value(): Queue
      reads this
    {
      Queue(events, semanticEvents, semanticCapacity, producerClosed, receiverClosed)
    }

    ghost predicate Valid()
      reads this
    {
      Bounded(Value())
    }

    constructor (capacity: nat)
      requires 0 < capacity
      ensures Valid() && Value() == Empty(capacity)
    {
      events, semanticEvents, semanticCapacity := [], 0, capacity;
      producerClosed, receiverClosed := false, false;
    }

    method TrySend(event: UiEvent) returns (result: SendResult)
      requires Valid()
      modifies this
      ensures Valid() && (Value(), result) == Send(old(Value()), event)
    {
      SendKeepsBound(Value(), event);
      hide Bounded;
      hide Merge;
      var isProgress := IsProgressEvent(event);
      if !isProgress && semanticEvents >= semanticCapacity && !receiverClosed {
        return Blocked;
      }
      if receiverClosed {
        return BrokenPipe;
      }
      if isProgress && events != [] && IsProgressEvent(events[|events| - 1]) {
        result := JoinLast(event);
        return;
      }
      if !isProgress {
        semanticEvents := semanticEvents + 1;
      }
      events := events + [event];
      return Sent;
    }

    /** A progress event takes the place of the one it follows. */
    method JoinLast(event: UiEvent) returns (result: SendResult)
      requires Valid() && !receiverClosed && JoinsLast(events, event)
      modifies this`events
      ensures Valid() && (Value(), result) == Send(old(Value()), event)
    {
      SendKeepsBound(Value(), event);
      hide Bounded;
      var previous := events[|events| - 1].delivery;
      if previous.event.eventSequence >= U64_MAX {
        return SequenceOverflow;
      }
      if event.delivery.event.eventSequence != previous.event.eventSequence + 1 {
        return NotContiguous;
      }
      if previous.skipped >= U64_MAX {
        return SkippedOverflow;
      }
      events := events[..|events| - 1] + [Engine(Merge(previous, event.delivery))];
      return Sent;
    }

    method TryNext() returns (result: PopResult)
      requires Valid()
      modifies this
      ensures Valid() && (Value(), result) == Pop(old(Value()))
      ensures result == SourceClosed <==> old(events) == [] && producerClosed
      ensures result == WaitsForEvent <==> old(events) == [] && !producerClosed
      ensures result.Popped? ==> old(events) == [result.event] + events
    {
      PopKeepsBound(Value());
      if events != [] {
        SemanticCountSplits(events);
        var event := events[0];
        events := events[1..];
        if !IsProgressEvent(event) {
          semanticEvents := semanticEvents - 1;
        }
        return Popped(event);
      }
      if producerClosed {
        return SourceClosed;
      }
      return WaitsForEvent;
    }

    method CloseProducer()
      modifies this`producerClosed
      ensures Value() == old(Value()).(producerClosed := true)
    {
      producerClosed := true;
    }

    method CloseReceiver()
      modifies this`receiverClosed
      ensures Value() == old(Value()).(receiverClosed := true)
    {
      receiverClosed := true;
    }
  }
}
