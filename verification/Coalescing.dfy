/** Coalescing refines plain delivery: a history of sends, pops and local input, and what the
    display would have become had every event been delivered on its own. */
module Coalescing {
  import opened Wrappers
  import opened ScanProtocol
  import opened ClientReducer
  import opened EventQueue

  // ------------------------------------------------------------ blocks of events

  predicate IsExact(e: UiEvent) {
    e.Engine? ==> e.delivery.skipped == 0
  }

  /** A run of progress events with consecutive numbers, each as the engine sent it. */
  predicate ProgressRun(block: seq<UiEvent>) {
    && (forall i :: 0 <= i < |block| ==> IsProgressEvent(block[i]) && IsExact(block[i]))
    && (forall i :: 0 <= i < |block| ==>
          block[i].delivery.event.eventSequence == block[0].delivery.event.eventSequence + i)
  }

  /** `entry` is what the queue keeps of the raw events `block`. */
  predicate Stands(entry: UiEvent, block: seq<UiEvent>) {
    if IsProgressEvent(entry) then
      && block != [] && ProgressRun(block)
      && entry.delivery == Delivery(block[|block| - 1].delivery.event, |block| - 1)
    else block == [entry] && IsExact(entry)
  }

  function Flatten(blocks: seq<seq<UiEvent>>): seq<UiEvent> {
    if blocks == [] then [] else Flatten(blocks[..|blocks| - 1]) + blocks[|blocks| - 1]
  }

  lemma {:induction false} FlattenConcat(a: seq<seq<UiEvent>>, b: seq<seq<UiEvent>>)
    ensures Flatten(a + b) == Flatten(a) + Flatten(b)
    decreases |b|
  {
    if b == [] {
      assert a + b == a;
    } else {
      assert (a + b)[..|a + b| - 1] == a + b[..|b| - 1];
      FlattenConcat(a, b[..|b| - 1]);
    }
  }

  // ------------------------------------------------- reducing a block of progress

  /** The state after progress up to and including `last`. */
  function Progressed(app: App, last: EngineEvent): App
    requires app.active.Some? && last.IsProgress()
  {
    InPhase(app, app.active.value, Steady).(
      progress := Some(last.body.value.progress), lastEventSequence := last.eventSequence)
  }

  /** When the reducer takes one progress event that claims `skipped` dropped ones. */
  predicate Takes(app: App, d: Delivery) {
    && app.active.Some? && d.event.requestId == app.active.value.requestId != 0
    && ProgressAllowed(app.scanState, app.active.value)
    && d.event.eventSequence == app.lastEventSequence + 1 + d.skipped <= U64_MAX
  }

  lemma OneProgress(app: App, e: UiEvent)
    requires app.terminal.None? && IsProgressEvent(e)
    ensures !HasFailed(Reduce(app, e).0) <==> Takes(app, e.delivery)
    ensures Takes(app, e.delivery) ==> Reduce(app, e) == (Progressed(app, e.delivery.event), [])
    ensures !Takes(app, e.delivery) ==> Reduce(app, e).1 == [StopDriver]
  {
  }

  predicate SameOrigin(block: seq<UiEvent>)
    requires ProgressRun(block)
  {
    forall i :: 0 <= i < |block| ==> block[i].delivery.event.requestId == block[|block| - 1].delivery.event.requestId
  }

  /** Reducing a run event by event: accepted exactly when its last event alone would be taken
      with the gap it stands for and the whole run names one request. */
  lemma {:induction false} RunOfProgress(app: App, block: seq<UiEvent>)
    requires app.terminal.None? && block != [] && ProgressRun(block)
    ensures var last := block[|block| - 1].delivery.event;
      && (!HasFailed(ReduceAll(app, block)) <==> Takes(app, Delivery(last, |block| - 1)) && SameOrigin(block))
      && (!HasFailed(ReduceAll(app, block)) ==>
            ReduceAll(app, block) == Progressed(app, last) && EffectsOf(app, block) == [])
    decreases |block|
  {
    var (next, effects) := Reduce(app, block[0]);
    OneProgress(app, block[0]);
    assert |block| > 1 ==> block[1..][|block| - 2] == block[|block| - 1];
    if |block| == 1 {
      assert block[1..] == [];
    } else if HasFailed(next) {
      FailureIsFinal(next, block[1..]);
      assert SameOrigin(block) ==> block[0].delivery.event.requestId == block[|block| - 1].delivery.event.requestId;
    } else {
      hide Reduce;
      var rest := block[1..];
      assert forall i :: 0 <= i < |rest| ==> rest[i] == block[i + 1];
      RunOfProgress(next, rest);
      if SameOrigin(rest) && Takes(next, Delivery(rest[|rest| - 1].delivery.event, |rest| - 1)) {
        assert SameOrigin(block);
      }
    }
  }

  /** Coalescing one block, in both directions. It never turns an accepted block into a rejected
      one nor changes what it yields. It can hide a rejection, and does so exactly when a dropped
      event names another request than the one kept. */
  lemma BlockRefines(app: App, entry: UiEvent, block: seq<UiEvent>)
    requires app.terminal.None? && IsProgressEvent(entry) && Stands(entry, block)
    ensures !HasFailed(ReduceAll(app, block)) <==> !HasFailed(Reduce(app, entry).0) && SameOrigin(block)
    ensures !HasFailed(ReduceAll(app, block)) ==>
      ReduceAll(app, block) == Reduce(app, entry).0 && EffectsOf(app, block) == Reduce(app, entry).1
  {
    RunOfProgress(app, block);
    OneProgress(app, entry);
  }

  /** A run of progress is refused only by stopping the driver. */
  lemma {:induction false} RefusalStopsDriver(app: App, block: seq<UiEvent>)
    requires app.terminal.None? && ProgressRun(block)
    ensures HasFailed(ReduceAll(app, block)) <==> StopDriver in EffectsOf(app, block)
    decreases |block|
  {
    if block != [] {
      OneProgress(app, block[0]);
      var (next, effects) := Reduce(app, block[0]);
      var rest := block[1..];
      assert EffectsOf(app, block) == effects + EffectsOf(next, rest);
      if HasFailed(next) {
        FailureIsFinal(next, rest);
      } else {
        assert forall i :: 0 <= i < |rest| ==> rest[i] == block[i + 1];
        hide Reduce;
        RefusalStopsDriver(next, rest);
      }
    }
  }

  lemma {:induction false} IgnoredAfterTheEnd(app: App, block: seq<UiEvent>)
    requires app.terminal.Some?
    requires forall i :: 0 <= i < |block| ==> block[i].Engine?
    ensures ReduceAll(app, block) == app && EffectsOf(app, block) == []
    decreases |block|
  {
    if block != [] {
      IgnoredAfterTheEnd(app, block[1..]);
    }
  }

  lemma OneEvent(app: App, event: UiEvent)
    ensures ReduceAll(app, [event]) == Reduce(app, event).0
    ensures EffectsOf(app, [event]) == Reduce(app, event).1
  {
    var next := Reduce(app, event).0;
    assert [event][1..] == [];
    assert ReduceAll(next, []) == next && EffectsOf(next, []) == [];
    assert Reduce(app, event).1 + [] == Reduce(app, event).1;
    hide Reduce;
  }

  /** Any queue entry against the raw events it stands for, if none of them stops the driver. */
  lemma EntryRefines(app: App, entry: UiEvent, block: seq<UiEvent>)
    requires Stands(entry, block) && StopDriver !in EffectsOf(app, block)
    ensures ReduceAll(app, block) == Reduce(app, entry).0
    ensures EffectsOf(app, block) == Reduce(app, entry).1
  {
    if !IsProgressEvent(entry) {
      OneEvent(app, entry);
    } else if app.terminal.Some? {
      IgnoredAfterTheEnd(app, block);
    } else {
      RefusalStopsDriver(app, block);
      BlockRefines(app, entry, block);
    }
  }

  /** The other way round: an entry that does not stop the driver stands for a block of one origin
      only if none of the block's events stops it either. */
  lemma EntryReflects(app: App, entry: UiEvent, block: seq<UiEvent>)
    requires Stands(entry, block) && StopDriver !in Reduce(app, entry).1
    requires IsProgressEvent(entry) ==> SameOrigin(block)
    ensures StopDriver !in EffectsOf(app, block)
  {
    if !IsProgressEvent(entry) {
      OneEvent(app, entry);
    } else if app.terminal.Some? {
      IgnoredAfterTheEnd(app, block);
    } else {
      OneProgress(app, entry);
      BlockRefines(app, entry, block);
      RefusalStopsDriver(app, block);
    }
  }

  // -------------------------------------------------------------------- histories

  datatype Op =
    | SendOp(event: UiEvent)   // the driver offers an event
    | PopOp                    // the display takes the next entry
    | LocalOp(input: UiEvent)  // a key press or a resize reaches the display directly

  /** The queue with the record of how it came about. `blocks[i]` holds the raw events that the
      queue entry `i` stands for, `taken` those of the entries already delivered. */
  datatype History = History(
    queue: Queue,
    blocks: seq<seq<UiEvent>>,
    sent: seq<UiEvent>,
    taken: seq<seq<UiEvent>>,
    delivered: seq<UiEvent>,
    seen: seq<UiEvent>,        // what the display reduced
    plain: seq<UiEvent>)       // the same with every block spelled out

  function After(h: History, op: Op): History
    requires Bounded(h.queue) && |h.blocks| == |h.queue.events|
  {
    match op
    case SendOp(event) =>
      var (queue, result) := Send(h.queue, event);
      if result != Sent then h
      else
        h.(queue := queue, sent := h.sent + [event],
           blocks := if JoinsLast(h.queue.events, event)
                     then h.blocks[..|h.blocks| - 1] + [h.blocks[|h.blocks| - 1] + [event]]
                     else h.blocks + [[event]])
    case PopOp =>
      var (queue, result) := Pop(h.queue);
      if !result.Popped? then h
      else
        h.(queue := queue, blocks := h.blocks[1..], taken := h.taken + [h.blocks[0]],
           delivered := h.delivered + [result.event],
           seen := h.seen + [result.event], plain := h.plain + h.blocks[0])
    case LocalOp(input) => h.(seen := h.seen + [input], plain := h.plain + [input])
  }

  predicate AllStand(entries: seq<UiEvent>, blocks: seq<seq<UiEvent>>)
    ensures AllStand(entries, blocks) ==> |entries| == |blocks|
  {
    |entries| == |blocks| && forall i :: 0 <= i < |entries| ==> Stands(entries[i], blocks[i])
  }

  lemma OneMoreStands(entries: seq<UiEvent>, blocks: seq<seq<UiEvent>>, entry: UiEvent, block: seq<UiEvent>)
    requires AllStand(entries, blocks) && Stands(entry, block)
    ensures AllStand(entries + [entry], blocks + [block])
  {
  }

  lemma PartsStand(entries: seq<UiEvent>, blocks: seq<seq<UiEvent>>)
    requires AllStand(entries, blocks) && entries != []
    ensures AllStand(entries[1..], blocks[1..]) && Stands(entries[0], blocks[0])
    ensures var n := |entries| - 1; AllStand(entries[..n], blocks[..n]) && Stands(entries[n], blocks[n])
  {
  }

  /** Delivered and queued entries, in order, stand for the sent stream cut into blocks. */
  predicate Lossless(h: History) {
    && Bounded(h.queue)
    && AllStand(h.queue.events, h.blocks) && AllStand(h.delivered, h.taken)
    && Flatten(h.taken) + Flatten(h.blocks) == h.sent
  }

  lemma {:induction false} FlattenOne(block: seq<UiEvent>)
    ensures Flatten([block]) == block
  {
    assert [block][..0] == [];
    assert Flatten([]) == [];
  }

  lemma FlattenGrowsLast(blocks: seq<seq<UiEvent>>, event: UiEvent)
    requires blocks != []
    ensures var n := |blocks| - 1;
      Flatten(blocks[..n] + [blocks[n] + [event]]) == Flatten(blocks) + [event]
  {
    var n := |blocks| - 1;
    assert (blocks[..n] + [blocks[n] + [event]])[..n] == blocks[..n];
    assert Flatten(blocks[..n]) + (blocks[n] + [event]) == (Flatten(blocks[..n]) + blocks[n]) + [event];
  }

  lemma FlattenAppends(blocks: seq<seq<UiEvent>>, block: seq<UiEvent>)
    ensures Flatten(blocks + [block]) == Flatten(blocks) + block
  {
    assert (blocks + [block])[..|blocks|] == blocks;
  }

  /** A merged entry stands for the longer run. */
  lemma MergeStands(last: UiEvent, block: seq<UiEvent>, event: UiEvent)
    requires Stands(last, block) && IsProgressEvent(last) && IsProgressEvent(event) && IsExact(event)
    requires event.delivery.event.eventSequence == last.delivery.event.eventSequence + 1
    ensures Stands(Engine(Merge(last.delivery, event.delivery)), block + [event])
  {
  }

  lemma JoiningKeepsLossless(h: History, event: UiEvent)
    requires Lossless(h) && IsExact(event) && Send(h.queue, event).1 == Sent && JoinsLast(h.queue.events, event)
    ensures Lossless(After(h, SendOp(event)))
  {
    hide Stands;
    hide AllStand;
    hide Flatten;
    hide Bounded;
    SendKeepsBound(h.queue, event);
    var n := |h.blocks| - 1;
    PartsStand(h.queue.events, h.blocks);
    MergeStands(h.queue.events[n], h.blocks[n], event);
    OneMoreStands(h.queue.events[..n], h.blocks[..n],
                  Engine(Merge(h.queue.events[n].delivery, event.delivery)), h.blocks[n] + [event]);
    FlattenGrowsLast(h.blocks, event);
    ConcatAssociates(Flatten(h.taken), Flatten(h.blocks), [event]);
  }

  lemma AfterAppending(h: History, event: UiEvent)
    requires Bounded(h.queue) && AllStand(h.queue.events, h.blocks)
    requires Send(h.queue, event).1 == Sent && !JoinsLast(h.queue.events, event)
    ensures var queue := Send(h.queue, event).0;
      && Bounded(queue) && queue.events == h.queue.events + [event]
      && After(h, SendOp(event)) == h.(queue := queue, sent := h.sent + [event], blocks := h.blocks + [[event]])
  {
    SendKeepsBound(h.queue, event);
    hide Bounded;
    hide AllStand;
  }

  lemma AppendingKeepsLossless(h: History, event: UiEvent)
    requires Lossless(h) && IsExact(event) && Send(h.queue, event).1 == Sent && !JoinsLast(h.queue.events, event)
    ensures Lossless(After(h, SendOp(event)))
  {
    assert Stands(event, [event]);
    hide Stands;
    hide AllStand;
    hide Flatten;
    hide Bounded;
    AfterAppending(h, event);
    hide After;
    hide Send;
    OneMoreStands(h.queue.events, h.blocks, event, [event]);
    FlattenAppends(h.blocks, [event]);
    ConcatAssociates(Flatten(h.taken), Flatten(h.blocks), [event]);
  }

  lemma SendKeepsLossless(h: History, event: UiEvent)
    requires Lossless(h) && IsExact(event)
    ensures Lossless(After(h, SendOp(event)))
  {
    hide Lossless;
    if Send(h.queue, event).1 == Sent {
      if JoinsLast(h.queue.events, event) {
        JoiningKeepsLossless(h, event);
      } else {
        AppendingKeepsLossless(h, event);
      }
    }
  }

  lemma PopKeepsLossless(h: History)
    requires Lossless(h)
    ensures Lossless(After(h, PopOp))
  {
    hide Stands;
    hide AllStand;
    hide Flatten;
    hide Bounded;
    PopKeepsBound(h.queue);
    if h.queue.events != [] {
      var first, rest := h.blocks[0], h.blocks[1..];
      PartsStand(h.queue.events, h.blocks);
      OneMoreStands(h.delivered, h.taken, h.queue.events[0], first);
      assert h.blocks == [first] + rest;
      FlattenConcat([first], rest);
      FlattenAppends(h.taken, first);
      FlattenOne(first);
      ConcatAssociates(Flatten(h.taken), first, Flatten(rest));
    }
  }

  lemma OpKeepsLossless(h: History, op: Op)
    requires Lossless(h) && (op.SendOp? ==> IsExact(op.event))
    ensures Lossless(After(h, op))
  {
    match op
    case SendOp(event) => SendKeepsLossless(h, event);
    case PopOp => PopKeepsLossless(h);
    case LocalOp(_) =>
  }

  function Begin(capacity: nat): History {
    History(Empty(capacity), [], [], [], [], [], [])
  }

  predicate Offered(ops: seq<Op>) {
    forall i :: 0 <= i < |ops| && ops[i].SendOp? ==> IsExact(ops[i].event)
  }

  /** The history after a list of operations on a new queue. */
  ghost function HistoryOf(capacity: nat, ops: seq<Op>): (h: History)
    requires 0 < capacity && Offered(ops)
    ensures Lossless(h)
    decreases |ops|
  {
    if ops == [] then
      assert Flatten([]) == [];
      Begin(capacity)
    else
      var h := HistoryOf(capacity, ops[..|ops| - 1]);
      var op := ops[|ops| - 1];
      OpKeepsLossless(h, op);
      After(h, op)
  }

  // ------------------------------------------------------------- what follows

  function RawCount(entries: seq<UiEvent>): nat {
    if entries == [] then 0
    else RawCount(entries[..|entries| - 1])
         + (if entries[|entries| - 1].Engine? then 1 + entries[|entries| - 1].delivery.skipped else 0)
  }

  function EngineCount(events: seq<UiEvent>): nat {
    if events == [] then 0
    else EngineCount(events[..|events| - 1]) + if events[|events| - 1].Engine? then 1 else 0
  }

  lemma {:induction false} EngineCountConcat(a: seq<UiEvent>, b: seq<UiEvent>)
    ensures EngineCount(a + b) == EngineCount(a) + EngineCount(b)
    decreases |b|
  {
    if b == [] {
      assert a + b == a;
    } else {
      assert (a + b)[..|a + b| - 1] == a + b[..|b| - 1];
      EngineCountConcat(a, b[..|b| - 1]);
    }
  }

  lemma {:induction false} EngineCountOfRun(block: seq<UiEvent>)
    requires forall i :: 0 <= i < |block| ==> block[i].Engine?
    ensures EngineCount(block) == |block|
    decreases |block|
  {
    if block != [] {
      EngineCountOfRun(block[..|block| - 1]);
    }
  }

  lemma {:induction false} EntriesAccountForBlocks(entries: seq<UiEvent>, blocks: seq<seq<UiEvent>>)
    requires AllStand(entries, blocks)
    ensures RawCount(entries) == EngineCount(Flatten(blocks))
    decreases |entries|
  {
    if entries != [] {
      var n := |entries| - 1;
      EntriesAccountForBlocks(entries[..n], blocks[..n]);
      EngineCountConcat(Flatten(blocks[..n]), blocks[n]);
      if entries[n].Engine? {
        EngineCountOfRun(blocks[n]);
      } else {
        assert blocks[n][..0] == [] && EngineCount([]) == 0;
      }
    }
  }

  /** Conservation: no engine event is lost or counted twice, at any moment. */
  lemma EveryEngineEventIsAccountedFor(capacity: nat, ops: seq<Op>)
    requires 0 < capacity && Offered(ops)
    ensures var h := HistoryOf(capacity, ops);
      && RawCount(h.delivered) + RawCount(h.queue.events) == EngineCount(h.sent)
      && |h.queue.events| <= 2 * capacity + 1
      && NoAdjacentProgress(h.queue.events)
  {
    var h := HistoryOf(capacity, ops);
    EntriesAccountForBlocks(h.delivered, h.taken);
    EntriesAccountForBlocks(h.queue.events, h.blocks);
    EngineCountConcat(Flatten(h.taken), Flatten(h.blocks));
    LengthIsBounded(h.queue);
    CapacityIsFixed(capacity, ops);
  }

  /** The last operation of a history. */
  lemma HistoryEndsWith(capacity: nat, ops: seq<Op>)
    requires 0 < capacity && ops != [] && Offered(ops)
    ensures var before, op := HistoryOf(capacity, ops[..|ops| - 1]), ops[|ops| - 1];
      Bounded(before.queue) && |before.blocks| == |before.queue.events| && HistoryOf(capacity, ops) == After(before, op)
  {
    hide After;
    hide Flatten;
    hide Stands;
  }

  lemma {:induction false} CapacityIsFixed(capacity: nat, ops: seq<Op>)
    requires 0 < capacity && Offered(ops)
    ensures HistoryOf(capacity, ops).queue.semanticCapacity == capacity
    decreases |ops|
  {
    hide Lossless;
    hide Flatten;
    if ops != [] {
      HistoryEndsWith(capacity, ops);
      CapacityIsFixed(capacity, ops[..|ops| - 1]);
      hide HistoryOf;
    }
  }

  lemma {:induction false} EffectsConcat(app: App, a: seq<UiEvent>, b: seq<UiEvent>)
    ensures EffectsOf(app, a + b) == EffectsOf(app, a) + EffectsOf(ReduceAll(app, a), b)
    decreases |a|
  {
    hide Reduce;
    if a == [] {
      assert a + b == b;
    } else {
      assert (a + b)[0] == a[0] && (a + b)[1..] == a[1..] + b;
      EffectsConcat(Reduce(app, a[0]).0, a[1..], b);
    }
  }

  /** The refinement. Take any timing of sends, deliveries and key presses, and let the display
      start anywhere. If no event, delivered on its own, makes the reducer stop the driver, then
      reducing the coalesced deliveries instead gives the very same state and the same effects. */
  lemma {:induction false} CoalescingRefinesPlainDelivery(app: App, capacity: nat, ops: seq<Op>)
    requires 0 < capacity && Offered(ops)
    requires StopDriver !in EffectsOf(app, HistoryOf(capacity, ops).plain)
    ensures var h := HistoryOf(capacity, ops);
      ReduceAll(app, h.seen) == ReduceAll(app, h.plain) && EffectsOf(app, h.seen) == EffectsOf(app, h.plain)
    decreases |ops|
  {
    hide *;
    if ops == [] {
      NothingSeenYet(capacity, ops);
    } else {
      OfferedBefore(ops);
      var before, op := HistoryOf(capacity, ops[..|ops| - 1]), ops[|ops| - 1];
      HistoryEndsWith(capacity, ops);
      var block, seen := OneOpShows(before, op);
      EffectsConcat(app, before.plain, block);
      CoalescingRefinesPlainDelivery(app, capacity, ops[..|ops| - 1]);
      if seen == [] {
        assert before.plain + block == before.plain && before.seen + seen == before.seen;
      } else {
        assert seen == [seen[0]];
        OneMoreEntryRefines(app, before.plain, before.seen, block, seen[0]);
      }
    }
  }

  /** Every run of progress that was delivered as one entry names one request. */
  predicate OneOriginEach(h: History)
    requires AllStand(h.delivered, h.taken)
  {
    forall i :: 0 <= i < |h.delivered| && IsProgressEvent(h.delivered[i]) ==>
      (assert Stands(h.delivered[i], h.taken[i]); SameOrigin(h.taken[i]))
  }

  /** And back: when every run that was merged names one request, the coalesced deliveries stop the
      driver only if plain delivery does. Together: the reducer refuses the one stream if and only
      if it refuses the other. */
  lemma {:induction false} CoalescingReflectsRefusals(app: App, capacity: nat, ops: seq<Op>)
    requires 0 < capacity && Offered(ops) && OneOriginEach(HistoryOf(capacity, ops))
    ensures var h := HistoryOf(capacity, ops);
      StopDriver in EffectsOf(app, h.seen) <==> StopDriver in EffectsOf(app, h.plain)
    decreases |ops|
  {
    var h := HistoryOf(capacity, ops);
    if StopDriver !in EffectsOf(app, h.plain) {
      CoalescingRefinesPlainDelivery(app, capacity, ops);
    } else if ops == [] {
      NothingSeenYet(capacity, ops);
    } else {
      hide *;
      OfferedBefore(ops);
      var before, op := HistoryOf(capacity, ops[..|ops| - 1]), ops[|ops| - 1];
      HistoryEndsWith(capacity, ops);
      OriginsBefore(before, op);
      CoalescingReflectsRefusals(app, capacity, ops[..|ops| - 1]);
      var block, seen := OneOpShows(before, op);
      EffectsConcat(app, before.plain, block);
      EffectsConcat(app, before.seen, seen);
      if StopDriver !in EffectsOf(app, h.seen) {
        CoalescingRefinesPlainDelivery(app, capacity, ops[..|ops| - 1]);
        LastOpReflects(ReduceAll(app, before.plain), before, op, block, seen);
      }
    }
  }

  lemma OriginsBefore(h: History, op: Op)
    requires Lossless(h) && Lossless(After(h, op)) && OneOriginEach(After(h, op))
    ensures OneOriginEach(h)
  {
    hide SameOrigin;
    hide Bounded;
    hide Flatten;
    var t := After(h, op);
    forall i | 0 <= i < |h.delivered| && IsProgressEvent(h.delivered[i])
      ensures ProgressRun(h.taken[i]) && SameOrigin(h.taken[i])
    {
      assert t.delivered[i] == h.delivered[i] && t.taken[i] == h.taken[i];
      assert Stands(h.delivered[i], h.taken[i]);
    }
  }

  lemma OfferedBefore(ops: seq<Op>)
    requires Offered(ops) && ops != []
    ensures Offered(ops[..|ops| - 1])
  {
  }

  lemma NothingSeenYet(capacity: nat, ops: seq<Op>)
    requires 0 < capacity && Offered(ops) && ops == []
    ensures HistoryOf(capacity, ops).seen == [] && HistoryOf(capacity, ops).plain == []
  {
  }

  /** What one operation adds to what the display saw, and to the raw events behind it. */
  lemma OneOpShows(h: History, op: Op) returns (block: seq<UiEvent>, seen: seq<UiEvent>)
    requires Lossless(h)
    ensures After(h, op).plain == h.plain + block && After(h, op).seen == h.seen + seen
    ensures (seen == [] && block == []) || (|seen| == 1 && (Stands(seen[0], block) || block == [seen[0]]))
    ensures seen != [] && block != seen ==>
      After(h, op).delivered == h.delivered + seen && After(h, op).taken == h.taken + [block]
  {
    hide Stands;
    hide AllStand;
    hide Flatten;
    hide SemanticCount;
    hide NoAdjacentProgress;
    block, seen := [], [];
    if op.PopOp? && h.queue.events != [] {
      PartsStand(h.queue.events, h.blocks);
      block, seen := h.blocks[0], [h.queue.events[0]];
    } else if op.LocalOp? {
      block, seen := [op.input], [op.input];
    } else {
      assert h.plain + [] == h.plain && h.seen + [] == h.seen;
    }
  }

  lemma LastOpReflects(app: App, h: History, op: Op, block: seq<UiEvent>, seen: seq<UiEvent>)
    requires Lossless(h) && Lossless(After(h, op)) && OneOriginEach(After(h, op))
    requires (seen == [] && block == []) || (|seen| == 1 && (Stands(seen[0], block) || block == [seen[0]]))
    requires seen != [] && block != seen ==>
      After(h, op).delivered == h.delivered + seen && After(h, op).taken == h.taken + [block]
    requires StopDriver !in EffectsOf(app, seen)
    ensures StopDriver !in EffectsOf(app, block)
  {
    hide Reduce;
    hide After;
    hide Bounded;
    hide Flatten;
    if seen != [] && block != seen {
      var t, n := After(h, op), |h.delivered|;
      assert t.delivered[n] == seen[0] && t.taken[n] == block;
      assert seen == [seen[0]];
      OneEvent(app, seen[0]);
      EntryReflects(app, seen[0], block);
    }
  }

  lemma OneMoreEntryRefines(app: App, plain: seq<UiEvent>, seen: seq<UiEvent>, block: seq<UiEvent>, entry: UiEvent)
    requires Stands(entry, block) || block == [entry]
    requires StopDriver !in EffectsOf(app, plain + block)
    requires ReduceAll(app, seen) == ReduceAll(app, plain) && EffectsOf(app, seen) == EffectsOf(app, plain)
    ensures ReduceAll(app, seen + [entry]) == ReduceAll(app, plain + block)
    ensures EffectsOf(app, seen + [entry]) == EffectsOf(app, plain + block)
  {
    hide Reduce;
    ReduceAllConcat(app, plain, block);
    ReduceAllConcat(app, seen, [entry]);
    EffectsConcat(app, plain, block);
    EffectsConcat(app, seen, [entry]);
    OneEvent(ReduceAll(app, plain), entry);
    if block != [entry] {
      EntryRefines(ReduceAll(app, plain), entry, block);
    }
  }
}
