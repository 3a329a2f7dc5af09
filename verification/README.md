# Diskplan in Dafny

This project models five parts of Diskplan and proves what they are for.

1. **The scan-control loop.** The engine's `ScanSession` and its ready loop, the client's `AppState`
   and reducer, the bounded event queue that coalesces progress, the driver thread between them, and
   the composition of all of these as one transition system over every interleaving.
2. **The transactional publisher** `generated-source-publish`: staging, publishing by one atomic
   rename, rolling back in reverse, finishing, and deleting only through quarantine, with every file
   system call free to fail and, where stated, another process free to change anything between two
   operations.
3. **`canonical-binary-v1`**: the strict encoding of an evidence record, its encoder, and the two
   decoders (remaining slice in Rust, offset in Swift).
4. **The length-prefixed frames** that carry the protocol, read from a source that delivers bytes in
   any pieces.
5. **The attribute buffer** that the kernel packs for one file: the C parser, the fixed record it
   writes, and the evidence Swift reads from that record.

## How it is built

Code that changes state is a class or a method with loops, proved against functions on values; the
properties are lemmas about those functions. What those functions answer is also stated apart from them,
in the codes, numbers and bytes of the protocol (`SessionTable`, `FailClosed`, `KeyMap`,
`CanonicalLayout`, `CanonicalFaults`, `ItemFacts`), so that a wrong branch in a function and the same
one in its method do not agree unnoticed.

| files | part |
|---|---|
| `Wrappers` | options and results |
| `ScanProtocol`, `ScanSession`, `SessionTable`, `ReadyLoop` | protocol values, the engine, its answers as a table |
| `ClientReducer`, `AppState`, `ReducerInvariants`, `FailClosed` | the client, and which events it accepts as tables |
| `EventQueue`, `Coalescing` | the queue and its refinement |
| `ControlLoop`, `EngineReplies`, `LoopSafety`, `LoopInvariant`, `LoopProgress` | the composed system |
| `KeyMap`, `QueueEnd` | what a key leads to there, and how the display learns of the end |
| `Counterexamples` | runs from start-up in which a promise fails |
| `PublishModel`, `PublishSteps`, `PublishInvariant` | disks, one target's steps and the run's invariant, on values |
| `PublishVolume`, `PublishTarget`, `PublishRun`, `PublishCommand` | the volume, a target, the loops, the command |
| `Numbers`, `CanonicalCodec`, `CanonicalLabels`, `CanonicalRecord`, `CanonicalLaws` | the record and its laws |
| `CanonicalSteps`, `CanonicalEncoder`, `CanonicalDecoders`, `CanonicalOffsets` | encoder and decoders |
| `CanonicalLayout`, `CanonicalFaults` | the record byte by byte, and what each bad field is refused for |
| `Framing`, `FrameReaders` | frames |
| `ItemWire`, `ItemBuffer`, `ItemFacts` | the attribute buffer, its record, and both in offsets, bits and codes |

`dafny verify dfyconfig.toml` checks everything.

## Modelling choices

- **Scan control.** Enumerations travel as integers and are decoded as the generated bindings do, so
  unknown codes are possible. Identifiers and event sequences are naturals; the checked additions of
  the client are modelled against 2^64 - 1. The client's failure texts are values of a datatype, one
  for each failing branch, and texts sent by the engine are values too. One action of the composed
  system is one critical section of the source: a key press with its effects, the driver taking a
  command or forwarding an event, the engine answering one request, the display taking one entry. An
  action that is not enabled leaves the system as it is, so a statement about all lists of actions is
  one about all schedules. A producer that must wait for space is a send that is not enabled yet. The
  engine's Swift counter traps on overflow: a call that would need more numbers than are left has no
  result, the ready loop ends there, and in the composed system the engine's step is not enabled. What
  the ready loop reads is a list of payloads, each either undecodable or an envelope with its body.
- **Publisher.** A slot is a directory and a name; an object has a kind, bytes and access state with
  the mode in it. Each call of the volume may fail at any time and is then counted. A failing write may
  leave any bytes in the file. Checks of the directory's trust, `fsync` and descriptor duplication are
  calls that may fail and change nothing. The volume's log has the state it starts in and the state
  after every change, with whose change it was and, for an unlink, the seal the object was held to; the
  last state in it is the present one, and in every step of the publisher itself an object loses its
  last name only if it is, at that moment, as that seal says. A ghost `holds` says
  which bindings a target answers for; the run's invariant says that no two targets answer for one
  name, and that every name nobody answers for is bound as at the start.
- **Canonical record.** Text is its UTF-8 bytes, and which bytes are valid UTF-8 (section 4 of RFC
  3629) is a parameter, and so is SHA-256. Swift's shift-and-or fold is modelled on bit patterns that
  drop what no longer fits.
- **Frames.** A source is a list of deliveries: non-empty chunks, interruptions, or a failure. Swift's
  file handle may hide an interruption or report it as an error, at each one anew. A write may fail
  after any number of bytes.
- **Attribute buffer.** Masks and flags are tested bit by bit, at the positions of Darwin's
  `sys/attr.h` and `sys/stat.h`, and integers are stored least significant byte first, as on the
  platforms the source supports.

## What the proofs found

- A key that asks for a control after the driver has returned, while its last events are still on
  their way to the display, turns a cancelled run into a failed one. `KeyFailsExactlyWhen` says this
  and running out of identifiers are the only ways a key can do that, and `PauseAfterTheDriverReturned`
  has a run from start-up in which it happens.
- The queue does not compare request identifiers when it merges two progress events, so coalescing can
  hide an event the reducer would have refused. `BlockRefines` says exactly when:
  a dropped event names another request than the one kept. `CoalescingCanHideARejection` has a run of
  the queue after a real start. It never turns an accepted stream into a rejected one, and when every
  merged run names one request it hides nothing (`CoalescingReflectsRefusals`).
- `NonCanonicalEncoding` cannot be reached: both decoders are already strict.
- The early check of the label count refuses nothing that the label loop would accept, but whenever it
  fires it changes the error: it blames the count where the loop would have blamed a label
  (`EarlyCheckShowsExactlyWhen`), even one that is invalid text before the bytes run out
  (`EarlyCheckCanChangeTheError`).
- A negative size other than -1 is reported as an overflow, not as negative (`BadSize`).
- A destination may have the name that the stage of another destination of the same run is given. All
  or nothing holds even then: nothing in `PublishTargets` is assumed against it. Only such a
  destination, if it did not exist before, can show another one's file, while the run is under way or
  after an incomplete cleanup (`Excused`).

## Model

| member | source | states |
|---|---|---|
| ScanEngine.HandleMeetsContract | swift/Sources/DiskplanCore/ScanSession.swift:16-178 | every call numbers its events consecutively under the caller's identifier, acknowledges exactly once and first, changes nothing when it rejects, and accepts only an identifier above all consumed before |
| ScanEngine.ServeMeetsContract | swift/Sources/DiskplanCore/ScanSession.swift:259-269 | over any list of requests the event sequences run on without gap or repeat, accepted identifiers strictly increase and the state between calls is settled |
| ScanEngine.ScanSession.Start | swift/Sources/DiskplanCore/ScanSession.swift:16-44 | the new state and the events are those of the transition table, whenever the event counter has room for the events of this very answer |
| ScanEngine.ScanSession.Control | swift/Sources/DiskplanCore/ScanSession.swift:46-141 | the same, for every control code in every state |
| ScanEngine.ScanSession.RejectMalformed | swift/Sources/DiskplanCore/ScanSession.swift:143-162 | a malformed request is refused under its own identifier and consumes it; one event number must be left |
| SessionTable.EveryRequestByTheTable | swift/Sources/DiskplanCore/ScanSession.swift:16-178 | in codes: which request is granted in which state, the state and plan it leads to and the events it gets; every other is refused with the code its fault has (2 used before, 3 zero, malformed or repeated differently, 1 not possible in the state) and changes nothing; granted or not, an identifier above the mark is used up and no other moves the mark |
| ReadyLoop.RunReadyLoop | swift/Sources/DiskplanEngine/main.swift:57-114 | for any frames at all the loop writes one answer for each frame it reads, in their order: the one to four events of a scan request, or one refusal under the frame's sequence, 0 for an undecodable one, as business-unsupported exactly for business bodies and as malformed otherwise; it reads all frames unless it leaves after a cancelling control or meets a request that would exhaust the event counter; the events are those of the session |
| ReadyLoop.EveryFrameIsAnswered | swift/Sources/DiskplanEngine/main.swift:57-114 | the same of the answers on values, from any settled session |
| ReadyLoop.OtherFramesDoNotMatter | swift/Sources/DiskplanEngine/main.swift:57-114 | undecodable and unexpected frames, wherever they come, change neither the events of the scan nor whether the loop leaves |
| AppStateObject.AppState.Reduce | rust/crates/diskplan-cli/src/tui/reducer.rs:8-31 | the state updated in place and the effects are those of the reducer on values, for every event; which those are for a key is said by `KeyMap` and for an engine event by `FailClosed` |
| KeyMap.KeysAsk | rust/crates/diskplan-cli/src/tui/reducer.rs:33-82 | in a live state: q sends a cancel; on the scan screen Space sends a pause when running and a resume when paused, p sends a plan request in both; r sends a resume when paused or on the plan screen; each under the next identifier, once, or the run fails for want of identifiers |
| KeyMap.OtherKeysAreQuiet | rust/crates/diskplan-cli/src/tui/reducer.rs:33-66 | every other press, a key held or let go, and any key once the run has ended send nothing and change nothing; ? everywhere and / on the scan screen flip the help and nothing else |
| KeyMap.KeyTakesEffect | rust/crates/diskplan-cli/src/tui/reducer.rs:33-82 | in the composed system, from any reachable state at rest and for any order of steps in which it comes to rest again: Space in a running scan leaves engine and display paused, and in a paused one running; p leaves both with a plan ready, r running, q cancelled |
| KeyMap.KeySettles | rust/crates/diskplan-cli/src/tui/driver.rs:93-124 | such an order of steps exists, when the event counter has room for the answer |
| AppStateObject.AppState.ReduceEngineEvent | rust/crates/diskplan-cli/src/tui/reducer.rs:84-249 | the same for an engine delivery: sequence check with the skipped events, acknowledgements, facts |
| FailClosed.OnlyFittingDeliveriesPass | rust/crates/diskplan-cli/src/tui/reducer.rs:84-439 | in codes: which delivery is accepted, by its number, what waits under its identifier, and the phase, state and plan; what exactly the display shows then; every other delivery ends the run as a protocol error, stops the driver and shows nothing of itself, its number at most |
| AppStateObject.AppState.ReduceOriginEvent | rust/crates/diskplan-cli/src/tui/reducer.rs:282-439 | the same for an event about the active request |
| AppStateObject.AppState.RequestOnce | rust/crates/diskplan-cli/src/tui/reducer.rs:68-82 | the same for a control a key asks for |
| AppStateObject.AppState.TakePending | rust/crates/diskplan-cli/src/tui/model.rs:103-109 | removes the waiting control with this identifier, and only it |
| ClientReducer.FailureIsFinal | rust/crates/diskplan-cli/src/tui/reducer.rs:459-464 | no event leads out of a failed state |
| ReducerInvariants.EveryReachableStateIsSound | rust/crates/diskplan-cli/src/tui/reducer.rs:8-439 | under any events at all: the plan screen is shown iff a plan is held; waiting identifiers increase, are not zero, lie below the next one and are one per kind; `cancel_requested` iff a cancel waits or is active; the phase fits the state shown |
| ReducerInvariants.SentIdsAreConsecutive | rust/crates/diskplan-cli/src/tui/model.rs:86-95 | over any run the identifiers sent are consecutive, so they strictly increase, and the counter has advanced by their number |
| ReducerInvariants.CancelIsFinal | rust/crates/diskplan-cli/src/tui/reducer.rs:326-346 | once a cancel is acknowledged nothing changes the plan or the progress or ends the run as finished |
| ReducerInvariants.CancelTerminates | rust/crates/diskplan-cli/src/tui/reducer.rs:403-423 | without further keys at most three plus the number of waiting controls engine events are consumed before the run has ended |
| EventQueue.EventQueueState.TrySend | rust/crates/diskplan-cli/src/tui/event.rs:116-179 | a send blocks, fails, appends or merges as the queue on values does, and keeps its bound |
| EventQueue.SendingWaitsExactlyWhen | rust/crates/diskplan-cli/src/tui/event.rs:116-179 | progress never waits; another event waits iff the queue holds as many such events as its capacity and the receiver is there; a send that does not succeed changes nothing |
| EventQueue.EventQueueState.TryNext | rust/crates/diskplan-cli/src/tui/event.rs:195-216 | the oldest entry is taken, and the rest stays; with none the source is closed iff the producer has closed, and else the consumer waits |
| EventQueue.TakingAnswers | rust/crates/diskplan-cli/src/tui/event.rs:195-216 | the same of the queue on values |
| QueueEnd.ClosedSourceIsTheEnd | rust/crates/diskplan-cli/src/tui/event.rs:195-216 | in every interleaving the display meets a closed source iff the driver has reported and all it sent was taken, and by then the display has shown the exit; it waits iff nothing is queued before the report |
| EventQueue.LengthIsBounded | rust/crates/diskplan-cli/src/tui/event.rs:55-63 | no two progress entries are adjacent, so the length is at most twice the capacity plus one |
| Coalescing.HistoryOf | rust/crates/diskplan-cli/src/tui/event.rs:116-216 | over any interleaving of sends and takes, the delivered and queued entries, in order, stand for the sent stream cut into blocks: other events exactly, each run of progress by its last event and the count of those before it |
| Coalescing.BlockRefines | rust/crates/diskplan-cli/src/tui/reducer.rs:84-108 | a merged entry is accepted and has the effect of its block exactly when the block is accepted, provided every dropped event names the same request; this condition is exact |
| Coalescing.EveryEngineEventIsAccountedFor | rust/crates/diskplan-cli/src/tui/event.rs:116-216 | at any moment one plus the skipped count, summed over delivered and queued entries, is the number of engine events sent |
| Coalescing.CoalescingRefinesPlainDelivery | rust/crates/diskplan-cli/src/tui/event.rs:136-168 | for any timing of sends, deliveries and keys, from any state: if no event delivered on its own makes the reducer stop the driver, the coalesced deliveries give the same state and the same effects; runs that end with an engine failure or a driver error are included |
| Coalescing.CoalescingReflectsRefusals | rust/crates/diskplan-cli/src/tui/event.rs:136-168 | when each merged run of progress names one request, the coalesced deliveries stop the driver if and only if plain delivery does |
| Counterexamples.CoalescingCanHideARejection | rust/crates/diskplan-cli/src/tui/event.rs:136-168 | after a scan was started, a stray progress event and the next real one, sent through the queue before the display takes any, are merged and accepted, though one by one they stop the driver |
| EngineReplies.BatchIsAccepted | swift/Sources/DiskplanCore/ScanSession.swift:46-141 | a client that agrees with the engine accepts the whole answer to its next request and agrees again, or shows the cancellation |
| LoopSafety.AskingCommutes | rust/crates/diskplan-cli/src/tui/reducer.rs:68-108 | asking for a control before or after events in flight gives the same state |
| LoopInvariant.ForwardingKeepsProspect | rust/crates/diskplan-cli/src/tui/event.rs:116-179 | moving an event from the pipe to the queue, appended or coalesced, does not change what the display will show |
| LoopInvariant.EveryRunKeepsInvariant | rust/crates/diskplan-cli/src/tui/driver.rs:75-126 | in every interleaving: replaying the events in flight leads the client to the engine's state, and its waiting controls are the requests and acknowledgements in flight |
| LoopInvariant.NoEngineEventIsRefused | rust/crates/diskplan-cli/src/tui/reducer.rs:84-439 | in every interleaving the reducer never fails on an event of this engine, and the engine never blames a request as used up or malformed |
| LoopInvariant.KeyFailsExactlyWhen | rust/crates/diskplan-cli/src/tui/driver.rs:47-62 | in every reachable state, a key makes a run fail iff it is pressed, asks for a control that is not suppressed while the run is not over, and no identifier is left or the driver has returned |
| Counterexamples.PauseAfterTheDriverReturned | rust/crates/diskplan-cli/src/tui/driver.rs:93-124 | a run from start-up reaches a returned driver under a display that still shows a running scan, and there the pause key makes the run fail |
| LoopInvariant.QuiescenceMeansAgreement | rust/crates/diskplan-cli/src/tui/reducer.rs:110-165 | with nothing in flight and the run not over, client and engine have the same state, plan and event sequence, and no control waits |
| LoopProgress.NoDeadlock | rust/crates/diskplan-cli/src/tui/driver.rs:93-124 | unless everything is answered and shown, or the cancellation is, some step other than a key press changes the system |
| LoopProgress.SettlesWithinTheBound | rust/crates/diskplan-cli/src/tui/driver.rs:93-124 | left alone, a run that has not failed comes to rest within a computed number of steps |
| LoopProgress.NoScheduleOutlastsTheBound | rust/crates/diskplan-cli/src/tui/driver.rs:93-124 | no schedule without keys can take more effective steps than that bound |
| PublishTarget.Capture | rust/tools/generated-source-publish/src/main.rs:693-724 | a seal has the identity, bytes and access state of the open file; only a failing call or another kind of file prevents it |
| PublishTarget.ValidateSlot | rust/tools/generated-source-publish/src/main.rs:726-766 | succeeds only if the name is bound to the sealed object and the object is unaltered; otherwise a call failed or it is not |
| PublishTarget.QuarantineAndDelete | rust/tools/generated-source-publish/src/main.rs:1270-1322 | nothing moved, or the object waits under a new name, or it is deleted; deleted only after it matched the seal |
| PublishVolume.Volume.Unlink | rust/tools/generated-source-publish/src/main.rs:1435-1442 | may be called only on an object that matches a seal in identity, bytes and access; the seal goes into the log, and no other object loses its last name |
| PublishVolume.Volume.RenameSwap | rust/tools/generated-source-publish/src/main.rs:1413-1433 | exchanges two bindings, or fails and changes nothing; no object loses its last name |
| PublishTarget.Target.Stage | rust/tools/generated-source-publish/src/main.rs:310-425 | for any target, success means that the stage's name leads to a sealed regular file with the source's bytes and mode 0644; a prepared target is left as it was, or one new file is added under one new name, and nothing else changes |
| PublishTarget.Target.Publish | rust/tools/generated-source-publish/src/main.rs:427-500 | succeeds only with the sealed file in place of the sealed old one; fails unchanged, published, rolled back or half rolled back, and only because a call failed or a name was taken. In a directory someone else has altered it still touches no names but its own two and temporary ones, and no object loses its last name but the new file, held to a seal |
| PublishTarget.Target.Rollback | rust/tools/generated-source-publish/src/main.rs:502-581 | succeeds only with the old object back under its name, or the name free again, and the new file gone; the destination is whole in every state on the way; in an altered directory the same limits hold as for publishing |
| PublishTarget.Target.Finish | rust/tools/generated-source-publish/src/main.rs:583-626 | whatever fails, the new object stays in place in every state on the way; in any directory, altered or not, no names are touched but the target's own two and temporary ones, and no object loses its last name but one that matches the seal of the old object |
| PublishTarget.Target.DiscardStage | rust/tools/generated-source-publish/src/main.rs:628-690 | in any directory deletes at most the stage, by a held seal, and touches no other name; a published target is left alone |
| PublishSteps.PublishKeepsOrder | rust/tools/generated-source-publish/src/main.rs:458-470 | the one rename takes the target from staged to published, moves no other name, and keeps the old object linked |
| PublishSteps.RestoreKeepsOrder | rust/tools/generated-source-publish/src/main.rs:519-546 | the exchange back gives the destination its old object and the stage's name the new one |
| PublishSteps.TakingKeepsOrder | rust/tools/generated-source-publish/src/main.rs:1281-1321 | parking or deleting a name the target answers for disturbs nothing else |
| PublishSteps.TakingIsMoved | rust/tools/generated-source-publish/src/main.rs:1281-1321 | whatever the state of the directory, quarantining and deleting under a held seal touches that name and temporary ones, and takes the last name only from the object that matches the seal |
| PublishInvariant.StepKeepsInv | rust/tools/generated-source-publish/src/main.rs:1497-1546 | a step of one target keeps the run's invariant: the other targets stay in order, every name nobody answers for is as at the start |
| PublishInvariant.StepsAreWitnessed | rust/tools/generated-source-publish/src/main.rs:427-581 | in every state a step passes through each destination is whole; until all targets are published each old object has a name, and from then on each new object is in place |
| PublishInvariant.FairMeansSpares | rust/tools/generated-source-publish/src/main.rs:1270-1322 | over a whole history: if a run's own unlinks were held to seals of its targets, no step of its own takes the last name from anyone else's object, or from an old object that was altered |
| PublishInvariant.AllReleasedMeansUntouched | rust/tools/generated-source-publish/src/main.rs:1516-1535 | when no target answers for any name, every name is bound as at the start |
| PublishInvariant.AllDoneMeansPublished | rust/tools/generated-source-publish/src/main.rs:1541-1543 | when all targets are finished each destination is a regular file with its source's bytes and mode 0644, and no other name came, went or changed |
| PublishInvariant.AllWholeNow | rust/tools/generated-source-publish/src/main.rs:1497-1546 | in any state of a run each existing destination is the complete old or the complete new object, and each new one is absent or complete, unless its name is a temporary name of the same process |
| PublishInvariant.ForeignNamesKept | rust/tools/generated-source-publish/src/main.rs:1497-1546 | whatever has gone wrong, every name that is no destination is bound as at the start |
| PublishRun.StageAll | rust/tools/generated-source-publish/src/main.rs:1498-1514 | all targets are staged without a failing call, or all stages are discarded; no more of them are left than errors are counted, and more calls have failed than that: one made the staging fail and each counted error had its own |
| PublishRun.PublishAll | rust/tools/generated-source-publish/src/main.rs:1515-1540 | all targets are published without a failing call, or all are given back but at most as many as errors are counted, and more calls have failed than that |
| PublishRun.FinishAll | rust/tools/generated-source-publish/src/main.rs:1541-1543 | a failure leaves every destination with its new object |
| PublishRun.PublishTargets | rust/tools/generated-source-publish/src/main.rs:1497-1546 | all or nothing under every pattern of failing calls: all new, exactly when no call failed; or given back but for at most as many destinations as errors were met, each of which took a failing call besides the one that ended the run, so one failing call leaves exactly the names of before; in every recorded state and after any outcome each destination is whole; every other name ends bound as before and no file of before is altered; up to a moment of the run each old object has a name, and that moment is the end of a run that was given up, and else all targets are published in it and in every later state; a failed run had a failing call or a taken name. Whoever else is at work: what lost its last name in a step of the run was a file that a step of the run had made, or an old object that still was as it was sealed |
| PublishCommand.PrepareAll | rust/tools/generated-source-publish/src/main.rs:1466-1488 | prepares one target for each pair, with the source's bytes and the seal of what the destination held then, without changing anything; refuses only because a call failed, a destination is named twice, a source is not a readable regular file or a destination is something else |
| PublishCommand.Run | rust/tools/generated-source-publish/src/main.rs:1459-1551 | the same for a whole command line: a refusal has one of those causes, verification says yes only if every destination holds its source's bytes, and no only if one does not or a call failed, publishing is all or nothing with the sources' contents as they were read, succeeds iff no call failed, and after one failing call in staging or publishing leaves the names of before, and, whoever else is at work, what the run removed it had made, or found in a destination and left unaltered until then |
| CanonicalCodec.BothIsLawful | rust/crates/diskplan-core/src/canonical.rs:145-204 | reading one field after another reads back, is strict, and reports truncation, when each field does |
| CanonicalRecord.EarlyCheckRefusesNothingMore | rust/crates/diskplan-core/src/canonical.rs:178-185 | a label count that the early check refuses is one the label loop would refuse |
| CanonicalRecord.EarlyCheckShowsExactlyWhen | rust/crates/diskplan-core/src/canonical.rs:178-185 | the reader with the check accepts what the one without it accepts, and their answers differ iff four bytes are there and the count they hold exceeds a quarter of the bytes that follow |
| CanonicalRecord.EarlyCheckCanChangeTheError | rust/crates/diskplan-core/src/canonical.rs:178-185 | an input for which the check reports truncation though the loop would have met invalid text first |
| CanonicalLaws.DecodeIsStrict | rust/crates/diskplan-core/src/canonical.rs:145-204 | whatever the decoder accepts is exactly the encoding of what it returns |
| CanonicalLaws.RoundTrip | swift/Sources/DiskplanCore/CanonicalBinary.swift:194-198 | every binding that encodes decodes to itself with labels sorted and deduplicated |
| CanonicalLaws.EncodingIdentifies | swift/Sources/DiskplanCore/CanonicalBinary.swift:102-127 | two bindings have the same encoding iff they differ only in label order and repetition |
| CanonicalLaws.PrefixIsTruncated | rust/crates/diskplan-core/src/canonical.rs:247-254 | every proper prefix of an accepted record is reported as truncated |
| CanonicalLaws.AppendingIsTrailing | rust/crates/diskplan-core/src/canonical.rs:192-194 | anything appended to an accepted record is reported as trailing bytes |
| CanonicalLaws.EncodeIsFields | rust/crates/diskplan-core/src/canonical.rs:102-135 | encoding succeeds iff nanoseconds, lengths and counts are in range, and then gives the fields of the canonical form |
| CanonicalLayout.DecodesExactlyTheLayouts | rust/crates/diskplan-core/src/canonical.rs:145-204 | an input is decoded to a binding iff the binding is storable and the input is its layout, written out byte by byte: `DPCB`, 1, lengths and numbers most significant byte first, negative seconds plus 2^64, the codes of the variants, labels in strict lexicographic order |
| CanonicalLayout.EncodingIsLaidOut | rust/crates/diskplan-core/src/canonical.rs:102-135 | what is encoded is the layout of the binding with its labels sorted and each kept once |
| CanonicalLayout.SecondsAreTwosComplement | swift/Sources/DiskplanCore/CanonicalBinary.swift:102-192 | in every record that decodes, the eight bytes of the seconds, as a number, differ from the seconds by a multiple of 2^64 |
| CanonicalLayout.SharedRecord | rust/crates/diskplan-core/tests/canonical_golden.rs:31-82 | the shared fixture, its labels out of order and repeated, encodes to its hundred bytes, and these decode to it with the labels in order |
| CanonicalLayout.DomainIsText | rust/crates/diskplan-core/src/canonical.rs:206-212 | the separator of the digest is `diskplan/evidence/v1` and a zero byte |
| CanonicalFaults.BadStart | rust/crates/diskplan-core/src/canonical.rs:145-153 | anything but `DPCB` is an invalid magic, any version but 1 is unsupported and named, and an input too short for either is truncated there |
| CanonicalFaults.BadIdentifier | rust/crates/diskplan-core/src/canonical.rs:154 | an identifier that is not UTF-8 is blamed, whatever follows |
| CanonicalFaults.BadPresence | rust/crates/diskplan-core/src/canonical.rs:157-175 | after any well-formed head a presence byte above 1 is an unknown variant |
| CanonicalFaults.BadNanoseconds | rust/crates/diskplan-core/src/canonical.rs:159-168 | a second or more of nanoseconds is refused, whatever the seconds and whatever follows |
| CanonicalFaults.BadCode | rust/crates/diskplan-core/src/canonical.rs:176-177 | an activity above 3 and a coverage above 4 are unknown variants of that field |
| CanonicalFaults.BadCount | rust/crates/diskplan-core/src/canonical.rs:178-181 | a label count for which fewer than four bytes a label follow is truncation of the count |
| CanonicalFaults.BadOrder | rust/crates/diskplan-core/src/canonical.rs:182-191 | well-formed labels of which one is not below the next are not canonical, whatever follows |
| CanonicalLabels.SortAndDeduplicate | swift/Sources/DiskplanCore/CanonicalBinary.swift:211-225 | the loop gives the one strictly ascending list with the same labels |
| CanonicalLabels.CanonicalFormIdentifies | rust/crates/diskplan-core/src/canonical.rs:126-129 | two lists have the same canonical form iff they have the same labels |
| CanonicalEncoder.EncodeEvidence | rust/crates/diskplan-core/src/canonical.rs:102-135 | appending field by field gives the encoding, which is the layout of `CanonicalLayout`, or the error of the first field out of range |
| CanonicalSteps.DecodeIsFieldByField | rust/crates/diskplan-core/src/canonical.rs:145-204 | the composed decoder and the one that stops at the first failing field are the same function |
| CanonicalDecoders.DecodeEvidenceRecord | rust/crates/diskplan-core/src/canonical.rs:145-204 | the slice decoder gives the specified value or error on every input; which these are is said by `CanonicalLayout` and `CanonicalFaults` |
| CanonicalDecoders.VerifyEvidence | rust/crates/diskplan-core/src/canonical.rs:137-143 | verification gives what decoding gives, and never reports a non-canonical encoding |
| CanonicalDecoders.EvidenceDigest | rust/crates/diskplan-core/src/canonical.rs:206-212 | a record has a digest iff it decodes, and then it is the hash of the domain prefix and the record; otherwise the decoder's error |
| CanonicalOffsets.DecodeEvidence | swift/Sources/DiskplanCore/CanonicalBinary.swift:129-192 | the offset decoder gives the same value or the same error, kind and field, as the slice decoder on every input, so it too reads exactly the layouts |
| CanonicalOffsets.OffsetDecoder.Integer | swift/Sources/DiskplanCore/CanonicalBinary.swift:280-283 | the shift-and-or fold reads the big-endian number |
| CanonicalOffsets.BindEvidence | swift/Sources/DiskplanCore/CanonicalBinary.swift:194-198 | binding returns the canonical binding, its encoding and its digest, or the encoder's error |
| CanonicalOffsets.VerifyReceived | swift/Sources/DiskplanCore/CanonicalBinary.swift:200-209 | a received record gives its binding, its own bytes and the same digest as in Rust, or the decoder's error |
| Numbers.ShiftAndOrIsValue | swift/Sources/DiskplanCore/CanonicalBinary.swift:280-283 | folding bytes with shift and or in a fixed width is big-endian decoding |
| Numbers.SignedIsCongruent | swift/Sources/DiskplanCore/CanonicalBinary.swift:114-146 | a signed 64-bit integer and its pattern differ by a multiple of 2^64, and each is in its range |
| Framing.FramesAreReadBack | rust/crates/diskplan-core/src/framing.rs:19-61 | reading concatenated frames gives exactly the payloads and then the clean end |
| Framing.EveryCutIsReported | rust/crates/diskplan-core/src/framing.rs:19-48 | for every cut of the stream the reader's answers are determined by the cut alone |
| Framing.CutGivesTheCompleteFrames | rust/crates/diskplan-core/src/framing.rs:19-48 | they are the complete frames, then the clean end, a truncated prefix or a truncated payload with the exact counts |
| Framing.PrefixDecides | rust/crates/diskplan-core/src/framing.rs:19-48 | the four bytes of the prefix, as a number, decide: above 16 MiB it is oversized with that length, whatever follows; else the payload of that length, or how much of it is there |
| Framing.EncodedIsLaidOut | rust/crates/diskplan-core/src/framing.rs:50-61 | a frame is four bytes of length, the most significant first, and the payload |
| FrameReaders.ReadFrameIntoBuffers | rust/crates/diskplan-core/src/framing.rs:19-48 | the answer depends on the bytes delivered, not on their pieces or on interruptions; an oversized length is refused with only its four bytes taken |
| FrameReaders.ReadFrames | rust/crates/diskplan-cli/src/lib.rs:131-139 | reading until something else than a frame comes: whatever the pieces, and wherever a stream of frames is cut, the answer is the complete frames and the report for that cut |
| FrameReaders.ReadUntilEof | rust/crates/diskplan-core/src/framing.rs:63-74 | fills the buffer with the next bytes, as many as there are |
| FrameReaders.ReadFrameFromChunks | swift/Sources/DiskplanCore/Framing.swift:26-43 | the Swift reader gives the same answer for the same bytes, or an I/O error if there was an interruption; it too leaves an oversized payload unread |
| FrameReaders.ReadFramesFromChunks | swift/Sources/DiskplanEngine/main.swift:57-60 | reading frames with the Swift reader gives, for any pieces and any cut, the complete frames and the report for that cut; only a reported interruption ends it earlier, with the frames read so far |
| FrameReaders.ReadExactly | swift/Sources/DiskplanCore/Framing.swift:60-74 | collects the next bytes, as many as were asked for and are there; fails when the source breaks before that, and otherwise only at an interruption |
| FrameReaders.Sink.WriteFrame | rust/crates/diskplan-core/src/framing.rs:50-61 | writes nothing iff the payload is too long; otherwise one encoded frame, or, when writing or flushing fails, some first part of it |
| ItemBuffer.ParseItemBuffer | swift/Sources/CDiskplanMacOS/diskplan_macos.c:99-247 | accepts exactly the buffers whose declared length is that of their layout and whose masks were requested; writes the record of the buffer, all its bytes, or leaves it alone |
| ItemBuffer.StoreRecord | swift/Sources/CDiskplanMacOS/diskplan_macos.c:203-245 | every claimed fact is at its place, unclaimed ones are zero and so is the record from byte 96 on |
| ItemFacts.RecordIsLaidOut | swift/Sources/CDiskplanMacOS/diskplan_macos.c:161-245 | slot by slot, in offsets and bits: each slot of the record has what its slot of the buffer has if its bit is set, the device widened with its sign, and else zero |
| ItemWire.WireIsReported | swift/Sources/DiskplanMacOS/ItemEvidence.swift:74-195 | an accepted buffer is reported with each fact known exactly when its bit is set and equal to its slot, with the object's kind and the sharing, dataless and sync-root flags read from theirs; or it is refused for the first claimed size that is negative or overflows |
| ItemFacts.EvidenceIsPlain | swift/Sources/DiskplanMacOS/ItemEvidence.swift:74-195 | in offsets, bits and codes of the buffer: each fact of the evidence; the device is the signed reading of its 32 bits, and a regular file, a directory and a symbolic link have the codes 1, 2 and 5; it is refused iff a claimed size has its top bit set |
| ItemFacts.BadSizeIsReported | swift/Sources/DiskplanMacOS/ItemEvidence.swift:194-203 | the first such size is blamed, as negative if it is all ones and else as an overflow |
| ItemFacts.LoadsLeastFirst | swift/Sources/DiskplanMacOS/ItemEvidence.swift:205-217 | numbers are read least significant byte first |
| ItemWire.UnclaimedSlotsDoNotMatter | swift/Sources/CDiskplanMacOS/diskplan_macos.c:161-201 | a buffer that differs only in slots it does not claim is accepted too, and the evidence read from its record is the same |
| ItemWire.SameClaimsAreAccepted | swift/Sources/CDiskplanMacOS/diskplan_macos.c:161-201 | a buffer with the same header and claimed slots is accepted too, with the same layout |
| ItemWire.SmallestIsAccepted | swift/Sources/CDiskplanMacOS/diskplan_macos.c:99-201 | a directory's buffer with nothing claimed is accepted, so what is said about accepted buffers is about some |

## Left out

- LoopProgress.NoDeadlock: assumes room in the engine's 64-bit event counter for the answers still due, where the Swift code would trap.
- PublishTarget.Target.Finish: what a failed run has made durable is not modelled; `fsync` can fail but has no other effect.
- PublishRun.PublishTargets: another process acts between two target operations, not inside one, so an object exchanged between its validation and its removal is not covered.
- Process supervision, signals, reaper threads, timeouts and the handshake of the engine session.
- Pipes that break, also under the ready loop's responses: a request written to an engine that has exited counts as discarded.
- Rendering, key decoding, terminal handling, and the text of banners and error messages.
- Waking up of waiting threads: a critical section is one atomic step.
- Protobuf serialisation: an envelope is a datatype.
- Directory trust, access-control lists, path resolution and the check that a destination lies in the repository: calls that may fail.
- Names that differ as text but mean the same file, as on a case-insensitive volume.
- The rules of UTF-8 and of SHA-256 themselves, and Swift strings beyond their UTF-8 bytes.
- Facts an item's evidence always gives as unavailable, and its texts for why a fact is.
- Null pointers passed to the C parser, and the system call that fills its buffer.
- Volume probes, the materialization policy, journals and the file provider probe.
