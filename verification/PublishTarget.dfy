/** One destination and the operations that stage, publish, roll back, finish or discard it. */
module PublishTarget {
  import opened Wrappers
  import opened PublishModel
  import opened PublishSteps
  import opened PublishVolume

  // -------------------------------------------------------------------- file seals

  /** Reads an open file twice and captures it if nothing moved in between. */
  method Capture(vol: Volume, handle: Inode) returns (seal: Option<Seal>)
    requires vol.Valid() && handle in vol.objects
    modifies vol`faults
    ensures vol.faults >= old(vol.faults)
    ensures seal.Some? ==> vol.faults == old(vol.faults)
    ensures seal.Some? ==> seal.value.identity == handle && Matches(vol.objects[handle], seal.value)
    ensures seal.None? ==> vol.faults > old(vol.faults) || !vol.objects[handle].regular
  {
    var access := vol.Inspect(handle);
    if access.None? { return None; }
    var bytes := vol.Read(handle);
    if bytes.None? { return None; }
    var again := vol.Inspect(handle);
    if again.None? || again != access { return None; }
    var reread := vol.Read(handle);
    if reread.None? || reread != bytes { return None; }
    return Some(Seal(handle, access.value, bytes.value));
  }

  method ValidateHandle(vol: Volume, seal: Seal) returns (ok: bool)
    requires vol.Valid() && seal.identity in vol.objects
    modifies vol`faults
    ensures vol.faults >= old(vol.faults)
    ensures ok ==> vol.faults == old(vol.faults)
    ensures ok ==> Matches(vol.objects[seal.identity], seal)
    ensures !ok ==> vol.faults > old(vol.faults) || !Matches(vol.objects[seal.identity], seal)
  {
    var access := vol.Inspect(seal.identity);
    if access.None? || access.value != seal.access { return false; }
    var duplicated := vol.Attempt();
    if !duplicated { return false; }
    var bytes := vol.Read(seal.identity);
    return bytes.Some? && bytes.value == seal.bytes;
  }

  /** The name is bound to the sealed object, and the object is as it was sealed. */
  method ValidateSlot(vol: Volume, s: Slot, seal: Seal) returns (ok: bool)
    requires vol.Valid() && seal.identity in vol.objects
    modifies vol`faults
    ensures vol.faults >= old(vol.faults)
    ensures ok ==> vol.faults == old(vol.faults)
    ensures ok ==> At(vol.State(), s, seal)
    ensures !ok ==> vol.faults > old(vol.faults) || !At(vol.State(), s, seal)
  {
    ok := ValidateHandle(vol, seal);
    if !ok { return; }
    var present := vol.Open(s);
    if present.None? { return false; }
    var access := vol.Inspect(present.value);
    if access.None? || present.value != seal.identity || access.value != seal.access { return false; }
    var bytes := vol.Read(present.value);
    if bytes.None? || bytes.value != seal.bytes { return false; }
    var named := vol.Identify(s);
    return named == Found(seal.identity);
  }

  method EnsureMissing(vol: Volume, s: Slot) returns (ok: bool)
    requires vol.Valid()
    modifies vol`faults, vol`clashes
    ensures vol.faults >= old(vol.faults) && vol.clashes >= old(vol.clashes)
    ensures ok ==> vol.faults == old(vol.faults) && vol.clashes == old(vol.clashes)
    ensures ok ==> s !in vol.slots && vol.clashes == old(vol.clashes)
    ensures !ok ==> vol.faults + vol.clashes > old(vol.faults) + old(vol.clashes)
  {
    var found := vol.Identify(s);
    if s in vol.slots {
      vol.clashes := vol.clashes + 1;
    }
    return found == Missing;
  }

  // ---------------------------------------------------------- quarantine and delete

  /** The name leaves the live namespace first. Only then is its object compared with the seal, and
      only an object that matches in identity, bytes and access is unlinked. */
  method QuarantineAndDelete(vol: Volume, s: Slot, seal: Seal, ghost v: View, ghost linked: bool)
    returns (ok: bool, ghost q: Quarantined)
    requires vol.Valid() && seal.identity in vol.objects
    modifies vol
    ensures vol.Valid() && QuarantineStep(old(vol.State()), vol.State(), s, q, vol.process)
    ensures ok <==> q.Deleted?
    ensures vol.faults >= old(vol.faults) && vol.clashes >= old(vol.clashes)
    ensures ok ==> vol.faults == old(vol.faults) && vol.clashes == old(vol.clashes)
    ensures !ok ==> vol.faults + vol.clashes > old(vol.faults) + old(vol.clashes) || !At(old(vol.State()), s, seal)
    ensures ok ==> At(old(vol.State()), s, seal)
    ensures Extends(old(vol.log), vol.log)
    ensures AllTaking(old(vol.State()), vol.log, |old(vol.log)|, s, seal, vol.process)
    ensures MayTake(v, old(vol.State()), s, linked) ==>
      && SeenAll(v, old(vol.State()), vol.log, |old(vol.log)|, linked)
      && Kept(v, v.(holds := TakenFrom(v.holds, s, q)), old(vol.State()), vol.State())
  {
    hide Kept;
    hide Seen;
    hide SeenAll;
    hide AllTaking;
    hide Extends;
    hide MayTake;
    hide Temporary;
    hide Volume.Valid;
    ghost var before, log, fine := vol.State(), vol.log, MayTake(v, vol.State(), s, linked);
    q := Untouched;
    NothingTakenYet(v, before, log, s, seal, vol.process, linked);
    if fine { TakingKeepsOrder(v, before, before, s, q, vol.process, linked); }
    ok := vol.Attempt();
    if !ok { return; }
    var parked := Marked(s, QUARANTINE_MARK, vol.process, vol.quarantineCounter);
    assert Temporary(parked, vol.process) by { IsTemporary(s, vol.process, vol.quarantineCounter); }
    vol.quarantineCounter := vol.quarantineCounter + 1;
    ok := vol.RenameExclusive(s, parked);
    if !ok { return; }
    q := Parked(parked);
    TakenNow(v, before, log, log, Own(vol.State(), None), s, seal, q, vol.process, linked);
    ok := ValidateSlot(vol, parked, seal);
    if !ok { return; }
    ok := vol.Attempt();
    if !ok { return; }
    ghost var midLog := vol.log;
    ok := vol.Unlink(parked, seal);
    if ok {
      q := Deleted;
      assert vol.slots == before.slots - {s};
      TakenNow(v, before, log, midLog, Own(vol.State(), Some(seal)), s, seal, q, vol.process, linked);
    }
  }

  lemma IsTemporary(t: Slot, process: string, n: nat)
    ensures Temporary(Marked(t, STAGE_MARK, process, n), process)
    ensures Temporary(Marked(t, QUARANTINE_MARK, process, n), process)
  {
  }

  lemma NothingTakenYet(v: View, before: Disk, log: seq<Entry>, s: Slot, seal: Seal, process: string, linked: bool)
    ensures SeenAll(v, before, log, |log|, linked) && Extends(log, log)
    ensures AllTaking(before, log, |log|, s, seal, process)
  {
  }

  lemma TakenNow(v: View, before: Disk, start: seq<Entry>, log: seq<Entry>, e: Entry, s: Slot, seal: Seal,
                 q: Quarantined, process: string, linked: bool)
    requires Extends(start, log) && AllTaking(before, log, |start|, s, seal, process)
    requires QuarantineStep(before, e.disk, s, q, process) && e.Own? && (e.removed.None? || e.removed == Some(seal))
    ensures Extends(start, log + [e]) && AllTaking(before, log + [e], |start|, s, seal, process)
    ensures MayTake(v, before, s, linked) && SeenAll(v, before, log, |start|, linked) ==>
      && SeenAll(v, before, log + [e], |start|, linked)
      && Kept(v, v.(holds := TakenFrom(v.holds, s, q)), before, e.disk)
  {
    hide Seen;
    hide Kept;
    hide QuarantineStep;
    assert Taking(before, e, s, seal, process);
    hide Taking;
    if MayTake(v, before, s, linked) && SeenAll(v, before, log, |start|, linked) {
      TakingKeepsOrder(v, before, e.disk, s, q, process, linked);
      TakingIsSeen(v, before, e.disk, s, q, process, linked);
      OneMoreSeen(v, before, start, log, e, linked);
    }
  }

  // ------------------------------------------------------------------- the target

  class Target {
    const slot: Slot
    const sourceBytes: Bytes
    var stageName: Option<Slot>
    var provisionalStage: Option<Provisional>
    var staged: Option<Seal>
    var previous: Option<Seal>
    var published: bool
    ghost const original: Option<Seal>
    ghost var made: Option<Inode>
    ghost var holds: Bindings
    ghost var finished: bool

    ghost function Value(): View
      reads this
    {
      View(slot, sourceBytes, stageName, provisionalStage, staged, previous, published,
           original, made, holds, finished)
    }

    /** What every operation needs and keeps, whoever else is at work. */
    ghost predicate Usable(vol: Volume)
      reads this, vol
    {
      vol.Valid() && FieldsFit(Value()) && HandlesOpen(Value(), vol.objects)
    }

    constructor (slot: Slot, sourceBytes: Bytes, previous: Option<Seal>)
      ensures Value() == View(slot, sourceBytes, None, None, None, previous, false, previous, None, map[], false)
    {
      this.slot, this.sourceBytes, this.previous, this.original := slot, sourceBytes, previous, previous;
      stageName, provisionalStage, staged, published := None, None, None, false;
      made, holds, finished := None, map[], false;
    }

    /** Whether the destination holds the source's bytes, as one reads it by name. */
    method Verify(vol: Volume) returns (ok: bool)
      requires vol.Valid()
      modifies vol`faults
      ensures vol.faults >= old(vol.faults)
      ensures ok ==> vol.faults == old(vol.faults)
      ensures ok ==> slot in vol.slots && vol.slots[slot] in vol.objects
                     && vol.objects[vol.slots[slot]].regular && vol.objects[vol.slots[slot]].bytes == sourceBytes
      ensures (slot in vol.slots && vol.objects[vol.slots[slot]].regular
               && vol.objects[vol.slots[slot]].bytes == sourceBytes) ==> ok || vol.faults > old(vol.faults)
    {
      ok := vol.Attempt();
      if !ok { return; }
      var found := vol.Identify(slot);
      if !found.Found? { return false; }
      var handle := vol.Open(slot);
      if handle.None? { return false; }
      var access := vol.Inspect(handle.value);
      if access.None? { return false; }
      var bytes := vol.Read(handle.value);
      return bytes.Some? && bytes.value == sourceBytes;
    }

    /** Fills the new stage and reads it back. Only the stage's own bytes and mode change. */
    method WriteStage(vol: Volume, handle: Inode) returns (ok: bool)
      requires vol.Valid() && handle in vol.objects && vol.objects[handle].regular
      modifies this`provisionalStage, vol`objects, vol`faults, vol`log
      ensures vol.Valid() && vol.faults >= old(vol.faults)
      ensures ok ==> vol.faults == old(vol.faults)
      ensures handle in vol.objects && vol.objects[handle].regular
      ensures Only(handle, old(vol.objects), vol.objects)
      ensures Extends(old(vol.log), vol.log)
      ensures forall k :: |old(vol.log)| <= k < |vol.log| ==>
        vol.log[k].Own? && vol.log[k].removed.None? && vol.log[k].disk.slots == vol.slots
        && Only(handle, old(vol.objects), vol.log[k].disk.objects)
      ensures ok ==>
        IsNew(vol.objects[handle], sourceBytes) && provisionalStage == Some(Provisional(handle, Some(handle)))
      ensures !ok ==>
        && vol.faults > old(vol.faults)
        && (provisionalStage == old(provisionalStage) || provisionalStage == Some(Provisional(handle, Some(handle))))
    {
      hide Volume.Valid;
      ok := vol.Attempt();
      if !ok { return; }
      provisionalStage := Some(Provisional(handle, Some(handle)));
      ok := vol.Write(handle, sourceBytes);
      if !ok { return; }
      ok := vol.SetMode(handle, STAGE_MODE);
      if !ok { return; }
      ok := vol.Attempt();
      if !ok { return; }
      var verified := vol.Read(handle);
      if verified.None? || verified.value != sourceBytes { return false; }
      ok := vol.Attempt();
    }

    /** Captures the stage through its handle and checks that its name still leads to it. */
    method SealStage(vol: Volume, name: Slot, handle: Inode) returns (ok: bool)
      requires vol.Valid() && provisionalStage == Some(Provisional(handle, Some(handle)))
      requires Binding(vol.slots, name) == Some(handle) && IsNew(vol.objects[handle], sourceBytes)
      modifies this`provisionalStage, this`staged, vol`faults
      ensures vol.faults >= old(vol.faults)
      ensures ok ==> vol.faults == old(vol.faults)
      ensures ok ==>
        && provisionalStage.None? && staged.Some? && staged.value.identity == handle
        && staged.value.bytes == sourceBytes && staged.value.access.mode == STAGE_MODE
        && Matches(vol.objects[handle], staged.value)
      ensures !ok ==> vol.faults > old(vol.faults) && staged == old(staged) && provisionalStage == old(provisionalStage)
    {
      ok := vol.Attempt();
      if !ok { return; }
      var seal := Capture(vol, handle);
      if seal.None? || provisionalStage.value.identity != Some(seal.value.identity) { return false; }
      ok := ValidateSlot(vol, name, seal.value);
      if !ok { return; }
      provisionalStage := None;
      staged := seal;
    }

    /** Fills the new stage and seals it. */
    method FillAndSeal(vol: Volume, name: Slot, handle: Inode) returns (ok: bool)
      requires vol.Valid() && Binding(vol.slots, name) == Some(handle)
      requires handle in vol.objects && vol.objects[handle].regular
      modifies this`provisionalStage, this`staged, vol`objects, vol`faults, vol`log
      ensures vol.Valid() && vol.faults >= old(vol.faults)
      ensures ok ==> vol.faults == old(vol.faults)
      ensures handle in vol.objects && vol.objects[handle].regular && Only(handle, old(vol.objects), vol.objects)
      ensures Extends(old(vol.log), vol.log)
      ensures forall k :: |old(vol.log)| <= k < |vol.log| ==>
        vol.log[k].Own? && vol.log[k].removed.None? && vol.log[k].disk.slots == vol.slots
        && Only(handle, old(vol.objects), vol.log[k].disk.objects)
      ensures ok ==>
        && provisionalStage.None? && staged.Some? && staged.value.identity == handle
        && staged.value.bytes == sourceBytes && staged.value.access.mode == STAGE_MODE
        && Matches(vol.objects[handle], staged.value)
      ensures !ok ==>
        && vol.faults > old(vol.faults) && staged == old(staged)
        && (provisionalStage == old(provisionalStage) || provisionalStage == Some(Provisional(handle, Some(handle))))
    {
      hide Only;
      hide Extends;
      hide Matches;
      hide Volume.Valid;
      ok := WriteStage(vol, handle);
      if ok {
        ok := SealStage(vol, name, handle);
      }
    }

    /** Creates the stage beside the destination. */
    method MakeStage(vol: Volume) returns (ok: bool)
      requires vol.Valid()
      modifies this, vol
      ensures vol.Valid()
      ensures vol.faults >= old(vol.faults) && vol.clashes >= old(vol.clashes)
      ensures ok ==> vol.faults == old(vol.faults) && vol.clashes == old(vol.clashes)
      ensures !ok ==> vol.faults + vol.clashes > old(vol.faults) + old(vol.clashes)
      ensures !ok ==> Value() == old(Value()) && vol.State() == old(vol.State()) && vol.log == old(vol.log)
      ensures ok ==>
        && stageName.Some? && made.Some?
        && Value() == old(Value()).(stage := stageName, made := made,
                                    provisional := Some(Provisional(made.value, None)),
                                    holds := map[stageName.value := made.value])
        && Created(old(vol.State()), vol.State(), stageName.value, made.value)
        && |stageName.value.name| > |slot.name| && Temporary(stageName.value, vol.process)
        && vol.log == old(vol.log) + [Own(vol.State(), None)]
    {
      hide Volume.Valid;
      hide Temporary;
      ok := vol.Attempt();
      if !ok { return; }
      var name := Marked(slot, STAGE_MARK, vol.process, vol.stageCounter);
      IsTemporary(slot, vol.process, vol.stageCounter);
      vol.stageCounter := vol.stageCounter + 1;
      var handle := vol.CreateExclusive(name);
      if handle.None? { return false; }
      stageName := Some(name);
      provisionalStage := Some(Provisional(handle.value, None));
      made, holds := handle, map[name := handle.value];
    }

    /** Creates the stage beside the destination, fills it and seals it. */
    method Stage(vol: Volume) returns (ok: bool)
      requires vol.Valid()
      modifies this, vol
      ensures vol.Valid()
      ensures Unstaged(old(Value())) ==> StageEffect(old(Value()), Value(), old(vol.State()), vol.State(), ok)
      ensures ok ==>
        && stageName.Some? && staged.Some? && provisionalStage.None? && At(vol.State(), stageName.value, staged.value)
        && staged.value.bytes == sourceBytes && staged.value.access.mode == STAGE_MODE
      ensures vol.faults >= old(vol.faults) && vol.clashes >= old(vol.clashes)
      ensures ok ==> vol.faults == old(vol.faults) && vol.clashes == old(vol.clashes)
      ensures !ok ==> vol.faults + vol.clashes > old(vol.faults) + old(vol.clashes)
      ensures Extends(old(vol.log), vol.log)
      ensures AllGrown(old(vol.State()), vol.log, |old(vol.log)|, slot, vol.process)
      ensures Grown(old(vol.State()), vol.State(), slot, vol.process)
      ensures made == old(made) || MadeHere(made, vol.log, |old(vol.log)|)
    {
      hide AllGrown;
      hide Grown;
      hide Matches;
      hide Only;
      hide Extends;
      hide Temporary;
      hide MadeHere;
      ghost var before, log := vol.State(), vol.log;
      ok := MakeStage(vol);
      if !ok {
        NothingGrown(before, log, slot, vol.process);
        return;
      }
      var handle := provisionalStage.value.handle;
      ghost var mid, midLog := vol.State(), vol.log;
      assert MadeHere(made, midLog, |log|) by { JustMade(before, mid, log, handle); }
      hide Volume.Valid;
      ok := FillAndSeal(vol, stageName.value, handle);
      GrowthGoesOn(before, log, mid, midLog, vol.log, slot, stageName.value, handle, vol.process);
      FilledIsGrown(before, mid, vol.State(), slot, stageName.value, handle, vol.process);
      MadeStays(made, midLog, vol.log, |log|);
    }

    /** The stage is as it was sealed, and the destination as it was prepared. */
    method ReadyToPublish(vol: Volume) returns (ok: bool)
      requires Usable(vol)
      modifies vol`faults, vol`clashes
      ensures vol.faults >= old(vol.faults) && vol.clashes >= old(vol.clashes)
      ensures ok ==> vol.faults == old(vol.faults) && vol.clashes == old(vol.clashes)
      ensures ok ==>
        && stageName.Some? && staged.Some? && At(vol.State(), stageName.value, staged.value)
        && (if previous.Some? then At(vol.State(), slot, previous.value) else slot !in vol.slots)
      ensures InOrder(Value(), vol.State()) && StagedUp(Value()) && staged.Some? && !ok ==>
        vol.faults + vol.clashes > old(vol.faults) + old(vol.clashes)
    {
      hide InOrder;
      hide Volume.Valid;
      ghost var d := vol.State();
      ok := vol.Attempt();
      if !ok { return; }
      if stageName.None? || staged.None? { return false; }
      if InOrder(Value(), d) && StagedUp(Value()) { StageIsSealed(Value(), d); }
      ok := ValidateSlot(vol, stageName.value, staged.value);
      if !ok { return; }
      if previous.Some? {
        ok := ValidateSlot(vol, slot, previous.value);
      } else {
        ok := EnsureMissing(vol, slot);
      }
    }

    /** The one atomic step: an exchange with an existing destination, an exclusive move to a new one. */
    method TakeDestination(vol: Volume) returns (ok: bool)
      requires Usable(vol) && stageName.Some? && staged.Some?
      requires stageName.value in vol.slots && (previous.Some? <==> slot in vol.slots)
      modifies this`published, this`holds, vol`slots, vol`faults, vol`clashes, vol`log
      ensures Usable(vol) && vol.faults >= old(vol.faults) && vol.clashes >= old(vol.clashes)
      ensures ok ==> vol.faults == old(vol.faults) && vol.clashes == old(vol.clashes)
      ensures !ok ==>
        && Value() == old(Value()) && vol.State() == old(vol.State()) && vol.log == old(vol.log)
        && vol.faults + vol.clashes > old(vol.faults) + old(vol.clashes)
      ensures ok ==>
        && Value() == Swapped(old(Value())) && vol.log == old(vol.log) + [Own(vol.State(), None)]
        && vol.slots == if previous.Some? then Exchanged(old(vol.slots), stageName.value, slot)
                        else MovedTo(old(vol.slots), stageName.value, slot)
    {
      hide Volume.Valid;
      if previous.Some? {
        ok := vol.RenameSwap(stageName.value, slot);
      } else {
        ok := vol.RenameExclusive(stageName.value, slot);
      }
      if ok {
        published, holds := true, PublishedHolds(Value());
      }
    }

    /** The new object has the destination's name, and the old one the stage's. */
    method BothInPlace(vol: Volume) returns (ok: bool)
      requires Usable(vol) && published
      modifies vol`faults
      ensures vol.faults >= old(vol.faults)
      ensures ok ==> vol.faults == old(vol.faults)
      ensures ok ==>
        && At(vol.State(), slot, staged.value)
        && (previous.Some? ==> At(vol.State(), stageName.value, previous.value))
      ensures InOrder(Value(), vol.State()) && Intact(Value()) && !ok ==> vol.faults > old(vol.faults)
    {
      hide InOrder;
      hide Volume.Valid;
      if InOrder(Value(), vol.State()) && Intact(Value()) { PublishedIsSealed(Value(), vol.State()); }
      ok := ValidateSlot(vol, slot, staged.value);
      if !ok { return; }
      if previous.Some? {
        ok := ValidateSlot(vol, stageName.value, previous.value);
      }
    }

    /** Deletes a sealed slot through quarantine and syncs the directory. */
    method Dispose(vol: Volume, s: Slot, seal: Seal, ghost linked: bool) returns (ok: bool)
      requires Usable(vol) && seal.identity in vol.objects && Held(Value(), seal, linked) && OwnName(Value(), s)
      modifies this`holds, vol
      ensures Usable(vol) && vol.objects == old(vol.objects)
      ensures Value() == old(Value()).(holds := holds)
      ensures ok ==> At(old(vol.State()), s, seal) && vol.slots == old(vol.slots) - {s}
      ensures vol.faults >= old(vol.faults) && vol.clashes >= old(vol.clashes)
      ensures ok ==> vol.faults == old(vol.faults) && vol.clashes == old(vol.clashes)
      ensures !ok ==> vol.faults + vol.clashes > old(vol.faults) + old(vol.clashes) || !At(old(vol.State()), s, seal)
      ensures Moved(old(Value()), old(SceneOf(vol)), SceneOf(vol), linked)
      ensures MayTake(old(Value()), old(vol.State()), s, linked) ==>
        && Kept(old(Value()), Value(), old(vol.State()), vol.State())
        && SeenAll(old(Value()), old(vol.State()), vol.log, |old(vol.log)|, linked)
        && (ok ==> holds == old(holds) - {s})
        && (forall x :: x in old(holds) && x != s ==> x in holds && holds[x] == old(holds)[x])
        && (holds == old(holds) || (s !in holds && forall x :: x in holds && x !in old(holds) ==> x !in old(vol.slots)))
    {
      hide Kept;
      hide SeenAll;
      hide Extends;
      hide AllTaking;
      hide Held;
      hide Moved;
      hide InOrder;
      hide MayTake;
      hide Volume.Valid;
      ghost var q, v, before, c := Untouched, Value(), vol.State(), SceneOf(vol);
      ok, q := QuarantineAndDelete(vol, s, seal, v, linked);
      TakingIsMoved(v, c, SceneOf(vol), s, seal, q, linked);
      OthersStillHeld(v, before, s, q, linked);
      if s in holds {
        holds := TakenFrom(holds, s, q);
      }
      if ok {
        ok := vol.Attempt();
      }
    }

    /** The exchange that restores the old object, and the two checks after it. */
    method GiveBack(vol: Volume) returns (ok: bool)
      requires Usable(vol) && published && previous.Some?
      requires At(vol.State(), slot, staged.value) && At(vol.State(), stageName.value, previous.value)
      modifies this`holds, vol`slots, vol`faults, vol`log
      ensures Usable(vol) && vol.faults >= old(vol.faults) && (!ok ==> vol.faults > old(vol.faults))
      ensures ok ==> vol.faults == old(vol.faults)
      ensures ok ==> At(vol.State(), slot, previous.value) && At(vol.State(), stageName.value, staged.value)
      ensures ok || Value() != old(Value()) || vol.slots != old(vol.slots) || vol.log != old(vol.log) ==>
        && Value() == Restored(old(Value())) && vol.log == old(vol.log) + [Own(vol.State(), None)]
        && vol.slots == Exchanged(old(vol.slots), stageName.value, slot)
    {
      hide Volume.Valid;
      ok := vol.RenameSwap(stageName.value, slot);
      if !ok { return; }
      holds := map[stageName.value := made.value];
      ok := ValidateSlot(vol, slot, previous.value);
      if !ok { return; }
      ok := ValidateSlot(vol, stageName.value, staged.value);
    }

    /** The old object takes its name again and the new one is deleted through quarantine. */
    method RestoreOld(vol: Volume) returns (ok: bool)
      requires Usable(vol) && published && previous.Some?
      requires At(vol.State(), slot, staged.value) && At(vol.State(), stageName.value, previous.value)
      modifies this`holds, vol
      ensures Usable(vol) && vol.objects == old(vol.objects) && Value() == old(Value()).(holds := holds)
      ensures ok ==> At(vol.State(), slot, previous.value) && stageName.value !in vol.slots
      ensures vol.faults >= old(vol.faults) && vol.clashes >= old(vol.clashes)
      ensures ok ==> vol.faults == old(vol.faults) && vol.clashes == old(vol.clashes)
      ensures Moved(old(Value()), old(SceneOf(vol)), SceneOf(vol), true)
      ensures InOrder(old(Value()), old(vol.State())) && Intact(old(Value())) ==>
        && Kept(old(Value()), Value(), old(vol.State()), vol.State())
        && SeenAll(old(Value()), old(vol.State()), vol.log, |old(vol.log)|, true)
        && (if ok then holds == map[] else Value() == old(Value()) || HalfRolledBack(Value()))
        && (!ok ==> vol.faults + vol.clashes > old(vol.faults) + old(vol.clashes))
    {
      hide InOrder;
      hide Kept;
      hide Seen;
      hide SeenAll;
      hide Moved;
      hide MayTake;
      hide Volume.Valid;
      ghost var v, before, c, log := Value(), vol.State(), SceneOf(vol), vol.log;
      ghost var fine := InOrder(v, before) && Intact(v);
      NothingSeen(v, before, log, true);
      ok := GiveBack(vol);
      ghost var w, mid, midLog := Value(), vol.State(), vol.log;
      ghost var m := SceneOf(vol);
      GivenBack(v, w, before, mid, log, midLog);
      if m == c { NothingMoved(v, c, true); } else { ExchangeIsMoved(v, c, m, true); }
      if !ok { return; }
      assert slot !in holds;
      ok := Dispose(vol, stageName.value, staged.value, true);
      MovedAgain(v, w, c, m, SceneOf(vol), true);
      MovedOn(w, m, SceneOf(vol), true);
      if fine {
        MoreSeen(v, w, before, mid, log, midLog, vol.log, true);
        KeptAgain(v, w, Value(), before, mid, vol.State());
      }
    }

    /** The new object leaves the destination, to the old one or to no other. */
    method TakeBack(vol: Volume) returns (ok: bool)
      requires Usable(vol) && published && At(vol.State(), slot, staged.value)
      requires previous.Some? ==> At(vol.State(), stageName.value, previous.value)
      modifies this`holds, vol
      ensures Usable(vol) && vol.objects == old(vol.objects) && Value() == old(Value()).(holds := holds)
      ensures ok ==> if previous.Some? then At(vol.State(), slot, previous.value) else slot !in vol.slots
      ensures vol.faults >= old(vol.faults) && vol.clashes >= old(vol.clashes)
      ensures ok ==> vol.faults == old(vol.faults) && vol.clashes == old(vol.clashes)
      ensures Moved(old(Value()), old(SceneOf(vol)), SceneOf(vol), true)
      ensures InOrder(old(Value()), old(vol.State())) && Intact(old(Value())) ==>
        && Kept(old(Value()), Value(), old(vol.State()), vol.State())
        && SeenAll(old(Value()), old(vol.State()), vol.log, |old(vol.log)|, true)
        && (if ok then holds == map[] else Value() == old(Value()) || HalfRolledBack(Value()))
        && (!ok ==> vol.faults + vol.clashes > old(vol.faults) + old(vol.clashes))
    {
      hide InOrder;
      hide Kept;
      hide Seen;
      hide SeenAll;
      hide Moved;
      hide MayTake;
      hide Volume.Valid;
      if previous.Some? {
        ok := RestoreOld(vol);
      } else {
        if InOrder(Value(), vol.State()) { NewMayGo(Value(), vol.State()); }
        ok := Dispose(vol, slot, staged.value, true);
      }
    }

    /** Gives the destination back: to the old object, or, where there was none, to nothing. */
    method Rollback(vol: Volume) returns (ok: bool)
      requires Usable(vol)
      modifies this, vol
      ensures Usable(vol) && vol.objects == old(vol.objects) && made == old(made)
      ensures ok ==> if previous.Some? then At(vol.State(), slot, previous.value) else slot !in vol.slots
      ensures vol.faults >= old(vol.faults) && vol.clashes >= old(vol.clashes)
      ensures ok ==> vol.faults == old(vol.faults) && vol.clashes == old(vol.clashes)
      ensures Moved(old(Value()), old(SceneOf(vol)), SceneOf(vol), true)
      ensures InOrder(old(Value()), old(vol.State())) && (Intact(old(Value())) || HalfRolledBack(old(Value()))) ==>
        && Kept(old(Value()), Value(), old(vol.State()), vol.State())
        && SeenAll(old(Value()), old(vol.State()), vol.log, |old(vol.log)|, true)
        && (if ok then Intact(old(Value())) && Value() == Cleared(old(Value()))
            else Value() == old(Value()) || HalfRolledBack(Value()))
        && (Intact(old(Value())) && !ok ==> vol.faults + vol.clashes > old(vol.faults) + old(vol.clashes))
    {
      hide InOrder;
      hide At;
      hide Kept;
      hide Seen;
      hide SeenAll;
      hide Moved;
      hide Volume.Valid;
      ghost var v, before := Value(), vol.State();
      ghost var fine := InOrder(v, before) && (Intact(v) || HalfRolledBack(v));
      NothingSeen(v, before, vol.log, true);
      NothingMoved(v, SceneOf(vol), true);
      if fine { NothingKept(v, before); }
      ok := vol.Attempt();
      if !ok { return; }
      if !published || staged.None? { return false; }
      if fine && !Intact(v) { RestoredIsNotPublished(v, before); }
      ok := BothInPlace(vol);
      if !ok { return; }
      ok := TakeBack(vol);
      if ok {
        if fine { ClearedIsKept(v, Value(), before, vol.State()); }
        ForgetPublication();
      }
    }

    method ForgetPublication()
      requires FieldsFit(Value()) && published
      modifies this`stageName, this`staged, this`published
      ensures FieldsFit(Value())
      ensures holds == map[] ==> Value() == Cleared(old(Value()))
    {
      stageName, staged, published := None, None, false;
    }

    /** The checks after the exchange. Only a failed sync or read-back is answered with a rollback
        here; any other failure is left to the caller. */
    method Settle(vol: Volume) returns (ok: bool)
      requires Usable(vol) && published
      modifies this, vol
      ensures Usable(vol) && vol.objects == old(vol.objects) && made == old(made)
      ensures vol.faults >= old(vol.faults) && vol.clashes >= old(vol.clashes)
      ensures ok ==> vol.faults == old(vol.faults) && vol.clashes == old(vol.clashes)
      ensures Moved(old(Value()), old(SceneOf(vol)), SceneOf(vol), true)
      ensures ok ==> Value() == old(Value()) && At(vol.State(), slot, staged.value)
      ensures InOrder(old(Value()), old(vol.State())) && Intact(old(Value())) ==>
        && Kept(old(Value()), Value(), old(vol.State()), vol.State())
        && SeenAll(old(Value()), old(vol.State()), vol.log, |old(vol.log)|, true)
        && (!ok ==> Value() == old(Value()) || Value() == Cleared(old(Value())) || HalfRolledBack(Value()))
        && (!ok ==> vol.faults + vol.clashes > old(vol.faults + vol.clashes) + Stuck(Value()))
    {
      hide InOrder;
      hide Kept;
      hide Seen;
      hide SeenAll;
      hide Moved;
      hide Volume.Valid;
      ghost var v, before := Value(), vol.State();
      NothingSeen(v, before, vol.log, true);
      NothingMoved(v, SceneOf(vol), true);
      if InOrder(v, before) && Intact(v) {
        NothingKept(v, before);
        PublishedIsSealed(v, before);
      }
      ok := BothInPlace(vol);
      if !ok { return; }
      ok := vol.Attempt();
      if ok {
        ok := Verify(vol);
      }
      if !ok {
        var rolledBack := Rollback(vol);
      }
    }

    /** The checks before the exchange, and the exchange. */
    method Exchange(vol: Volume) returns (ok: bool)
      requires Usable(vol)
      modifies this`published, this`holds, vol`slots, vol`faults, vol`clashes, vol`log
      ensures Usable(vol) && Moved(old(Value()), old(SceneOf(vol)), SceneOf(vol), true)
      ensures vol.faults >= old(vol.faults) && vol.clashes >= old(vol.clashes)
      ensures ok ==> vol.faults == old(vol.faults) && vol.clashes == old(vol.clashes)
      ensures ok ==> published && stageName.Some? && made.Some? && Value() == Swapped(old(Value()))
      ensures ok ==>
        && At(old(vol.State()), stageName.value, staged.value)
        && (if previous.Some? then At(old(vol.State()), slot, previous.value) else slot !in old(vol.slots))
      ensures !ok ==> Value() == old(Value()) && vol.State() == old(vol.State())
      ensures InOrder(old(Value()), old(vol.State())) && StagedUp(old(Value())) && staged.Some? ==>
        && Kept(old(Value()), Value(), old(vol.State()), vol.State())
        && SeenAll(old(Value()), old(vol.State()), vol.log, |old(vol.log)|, true)
        && (ok ==> InOrder(Value(), vol.State()))
        && (!ok ==> vol.faults + vol.clashes > old(vol.faults) + old(vol.clashes))
    {
      hide InOrder;
      hide Kept;
      hide Seen;
      hide SeenAll;
      hide Moved;
      hide Volume.Valid;
      ghost var v, before, c, log := Value(), vol.State(), SceneOf(vol), vol.log;
      NothingSeen(v, before, log, true);
      NothingMoved(v, c, true);
      if InOrder(v, before) { NothingKept(v, before); }
      ok := ReadyToPublish(vol);
      if !ok { return; }
      ok := TakeDestination(vol);
      if !ok { return; }
      ExchangeIsMoved(v, c, SceneOf(vol), true);
      TakenPlace(v, before, vol.State(), log);
    }

    /** Puts the sealed stage in the destination's place. */
    method Publish(vol: Volume) returns (ok: bool)
      requires Usable(vol)
      modifies this, vol
      ensures Usable(vol) && vol.objects == old(vol.objects) && made == old(made)
      ensures vol.faults >= old(vol.faults) && vol.clashes >= old(vol.clashes)
      ensures ok ==> vol.faults == old(vol.faults) && vol.clashes == old(vol.clashes)
      ensures Moved(old(Value()), old(SceneOf(vol)), SceneOf(vol), true)
      ensures ok ==> staged.Some? && At(vol.State(), slot, staged.value) && staged.value.bytes == sourceBytes
      ensures ok ==> if previous.Some? then At(old(vol.State()), slot, previous.value) else slot !in old(vol.slots)
      ensures InOrder(old(Value()), old(vol.State())) && StagedUp(old(Value())) && old(staged).Some? ==>
        && Kept(old(Value()), Value(), old(vol.State()), vol.State())
        && SeenAll(old(Value()), old(vol.State()), vol.log, |old(vol.log)|, true)
        && (if ok then Value() == Swapped(old(Value()))
            else || Value() == old(Value()) || Value() == Swapped(old(Value()))
                 || Value() == Cleared(old(Value())) || HalfRolledBack(Value()))
        && (!ok ==> vol.faults + vol.clashes > old(vol.faults + vol.clashes) + Stuck(Value()))
    {
      hide InOrder;
      hide Kept;
      hide Seen;
      hide SeenAll;
      hide Moved;
      hide Volume.Valid;
      ghost var v, before, c, log := Value(), vol.State(), SceneOf(vol), vol.log;
      ok := Exchange(vol);
      if !ok { return; }
      ghost var w, mid, m, midLog := Value(), vol.State(), SceneOf(vol), vol.log;
      ok := Settle(vol);
      MovedAgain(v, w, c, m, SceneOf(vol), true);
      MovedOn(v, c, m, true);
      MovedOn(w, m, SceneOf(vol), true);
      if InOrder(v, before) && StagedUp(v) && v.staged.Some? {
        MoreSeen(v, w, before, mid, log, midLog, vol.log, true);
        KeptAgain(v, w, Value(), before, mid, vol.State());
      }
    }

    /** Deletes the old object, if there was one, and syncs the directory. */
    method DropBackup(vol: Volume) returns (ok: bool)
      requires Usable(vol) && published
      modifies this`holds, vol
      ensures Usable(vol) && vol.objects == old(vol.objects) && Value() == old(Value()).(holds := holds)
      ensures ok ==> vol.slots == if previous.Some? then old(vol.slots) - {stageName.value} else old(vol.slots)
      ensures vol.faults >= old(vol.faults) && vol.clashes >= old(vol.clashes)
      ensures ok ==> vol.faults == old(vol.faults) && vol.clashes == old(vol.clashes)
      ensures Moved(old(Value()), old(SceneOf(vol)), SceneOf(vol), false)
      ensures InOrder(old(Value()), old(vol.State())) && Intact(old(Value())) ==>
        && Kept(old(Value()), Value(), old(vol.State()), vol.State())
        && SeenAll(old(Value()), old(vol.State()), vol.log, |old(vol.log)|, false)
        && (if ok then holds == map[slot := made.value] else InPlace(Value()))
        && (!ok ==> vol.faults + vol.clashes > old(vol.faults) + old(vol.clashes))
    {
      hide InOrder;
      hide Kept;
      hide Seen;
      hide SeenAll;
      hide Moved;
      hide MayTake;
      hide Volume.Valid;
      ghost var v, before := Value(), vol.State();
      NothingSeen(v, before, vol.log, false);
      NothingMoved(v, SceneOf(vol), false);
      if InOrder(v, before) && Intact(v) {
        NothingKept(v, before);
        BackupMayGo(v, before);
      }
      if previous.Some? && stageName.Some? {
        ok := Dispose(vol, stageName.value, previous.value, false);
      } else {
        ok := vol.Attempt();
      }
    }

    /** Deletes the old object. From here on there is no way back. */
    method Finish(vol: Volume) returns (ok: bool)
      requires Usable(vol)
      modifies this, vol
      ensures Usable(vol) && vol.objects == old(vol.objects) && made == old(made)
      ensures ok ==> old(staged).Some? && At(vol.State(), slot, old(staged).value)
      ensures ok && old(previous).Some? ==> old(stageName).Some? && old(stageName).value !in vol.slots
      ensures vol.faults >= old(vol.faults) && vol.clashes >= old(vol.clashes)
      ensures ok ==> vol.faults == old(vol.faults) && vol.clashes == old(vol.clashes)
      ensures Moved(old(Value()), old(SceneOf(vol)), SceneOf(vol), false)
      ensures InOrder(old(Value()), old(vol.State())) && Intact(old(Value())) ==>
        && Kept(old(Value()), Value(), old(vol.State()), vol.State())
        && SeenAll(old(Value()), old(vol.State()), vol.log, |old(vol.log)|, false)
        && (if ok then Value() == Completed(old(Value())) else InPlace(Value()))
        && (!ok ==> vol.faults + vol.clashes > old(vol.faults) + old(vol.clashes))
    {
      hide InOrder;
      hide Matches;
      hide Kept;
      hide Seen;
      hide SeenAll;
      hide Moved;
      hide Volume.Valid;
      ghost var v, before := Value(), vol.State();
      NothingSeen(v, before, vol.log, false);
      NothingMoved(v, SceneOf(vol), false);
      if InOrder(v, before) && Intact(v) {
        NothingKept(v, before);
        BackupMayGo(v, before);
      }
      ok := vol.Attempt();
      if !ok { return; }
      if !published || staged.None? { return false; }
      ok := ValidateSlot(vol, slot, staged.value);
      if !ok { return; }
      ok := DropBackup(vol);
      if !ok { return; }
      if InOrder(v, before) && Intact(v) { CompletedIsKept(v, Value(), before, vol.State()); }
      MarkFinished();
    }

    method MarkFinished()
      requires FieldsFit(Value()) && made.Some?
      modifies this
      ensures FieldsFit(Value()) && Value() == Completed(old(Value()))
    {
      holds := map[slot := made.value];
      stageName, staged, previous, published, finished := None, None, None, false, true;
    }

    /** Deletes the stage of a target that is not published, by its seal or, when it was never
        sealed, by one taken through the handle that created it. */
    method DiscardStage(vol: Volume) returns (ok: bool)
      requires Usable(vol)
      modifies this, vol
      ensures Usable(vol) && vol.objects == old(vol.objects) && made == old(made)
      ensures ok && !old(published) && old(stageName).Some? ==> old(stageName).value !in vol.slots
      ensures vol.faults >= old(vol.faults) && vol.clashes >= old(vol.clashes)
      ensures ok ==> vol.faults == old(vol.faults) && vol.clashes == old(vol.clashes)
      ensures Moved(old(Value()), old(SceneOf(vol)), SceneOf(vol), true)
      ensures old(published) || old(stageName).None? ==>
        && Value() == old(Value()) && vol.State() == old(vol.State()) && vol.log == old(vol.log)
        && (!ok ==> vol.faults > old(vol.faults))
      ensures InOrder(old(Value()), old(vol.State())) && StagedUp(old(Value())) ==>
        && Kept(old(Value()), Value(), old(vol.State()), vol.State())
        && SeenAll(old(Value()), old(vol.State()), vol.log, |old(vol.log)|, true)
        && (if ok then Value() == Cleared(old(Value())) else Value() == old(Value()).(holds := holds))
        && (!ok ==> vol.faults + vol.clashes > old(vol.faults) + old(vol.clashes))
    {
      hide InOrder;
      hide Kept;
      hide Seen;
      hide SeenAll;
      hide Moved;
      hide MayTake;
      hide Volume.Valid;
      ghost var v, before := Value(), vol.State();
      ghost var fine := InOrder(v, before) && StagedUp(v);
      NothingSeen(v, before, vol.log, true);
      NothingMoved(v, SceneOf(vol), true);
      if fine {
        NothingKept(v, before);
        StageMayGo(v, before);
      }
      ok := vol.Attempt();
      if !ok || published || stageName.None? { return; }
      var seal := HeldSeal(vol);
      if seal.None? { return false; }
      ok := Dispose(vol, stageName.value, seal.value, true);
      if ok {
        if fine { ClearedIsKept(v, Value(), before, vol.State()); }
        ForgetStage();
      }
    }

    method ForgetStage()
      requires FieldsFit(Value()) && !published
      modifies this`stageName, this`provisionalStage, this`staged
      ensures FieldsFit(Value())
      ensures holds == map[] ==> Value() == Cleared(old(Value()))
    {
      stageName, provisionalStage, staged := None, None, None;
    }

    /** The seal of the stage, or one taken now through the handle that created it. */
    method HeldSeal(vol: Volume) returns (seal: Option<Seal>)
      requires Usable(vol)
      modifies vol`faults
      ensures vol.faults >= old(vol.faults)
      ensures seal.Some? ==> vol.faults == old(vol.faults)
      ensures seal.Some? ==>
        && Held(Value(), seal.value, true) && seal.value.identity in vol.objects
        && (staged.Some? ==> seal == staged)
        && (staged.None? ==> made == Some(seal.value.identity) && Matches(vol.objects[seal.value.identity], seal.value))
      ensures seal.None? && StagedUp(Value()) && made.Some? && made.value in vol.objects ==>
        vol.faults > old(vol.faults) || !vol.objects[made.value].regular
    {
      hide Volume.Valid;
      if staged.Some? { return staged; }
      if provisionalStage.None? { return None; }
      var ok := vol.Attempt();
      if !ok { return None; }
      seal := Capture(vol, provisionalStage.value.handle);
      if seal.Some? && provisionalStage.value.identity.Some?
         && provisionalStage.value.identity != Some(seal.value.identity) {
        return None;
      }
    }
  }

  lemma TakenPlace(v: View, before: Disk, after: Disk, log: seq<Entry>)
    requires v.made.Some? && v.stage.Some? && v.staged.Some? && FieldsFit(v)
    requires Extends(log, log) && SeenAll(v, before, log, |log|, true)
    requires v.stage.value in before.slots && (v.slot in before.slots <==> v.previous.Some?)
    requires after.objects == before.objects
    requires after.slots == if v.previous.Some? then Exchanged(before.slots, v.stage.value, v.slot)
                            else MovedTo(before.slots, v.stage.value, v.slot)
    ensures Extends(log, log + [Own(after, None)])
    ensures InOrder(v, before) && StagedUp(v) ==>
      && Kept(v, Swapped(v), before, after) && InOrder(Swapped(v), after)
      && SeenAll(v, before, log + [Own(after, None)], |log|, true)
  {
    hide Seen;
    hide Local;
    if InOrder(v, before) && StagedUp(v) {
      PublishKeepsOrder(v, before, after);
      OneMoreSeen(v, before, log, log, Own(after, None), true);
    }
  }

  lemma BackupMayGo(v: View, d: Disk)
    requires InOrder(v, d) && Intact(v)
    ensures At(d, v.slot, v.staged.value)
    ensures v.original.Some? ==> MayTake(v, d, v.stage.value, false) && At(d, v.stage.value, v.previous.value)
  {
    PublishedIsSealed(v, d);
  }

  lemma StageMayGo(v: View, d: Disk)
    requires InOrder(v, d) && StagedUp(v)
    ensures MayTake(v, d, v.stage.value, true)
    ensures d.slots[v.stage.value] == v.made.value && v.made.value in d.objects && d.objects[v.made.value].regular
    ensures v.staged.Some? ==> At(d, v.stage.value, v.staged.value)
  {
    assert v.stage.value in v.holds;
  }

  lemma OthersStillHeld(v: View, before: Disk, s: Slot, q: Quarantined, linked: bool)
    requires q.Parked? ==> q.at !in before.slots
    ensures MayTake(v, before, s, linked) ==>
      && s in v.holds
      && (forall x :: x in v.holds && x != s ==>
            x in TakenFrom(v.holds, s, q) && TakenFrom(v.holds, s, q)[x] == v.holds[x])
      && (TakenFrom(v.holds, s, q) == v.holds
          || (s !in TakenFrom(v.holds, s, q)
              && forall x :: x in TakenFrom(v.holds, s, q) && x !in v.holds ==> x !in before.slots))
  {
    hide Matches;
    hide HandlesOpen;
  }

  lemma GivenBack(v: View, u: View, before: Disk, after: Disk, log: seq<Entry>, midLog: seq<Entry>)
    requires Extends(log, log) && SeenAll(v, before, log, |log|, true)
    requires v.made.Some? && v.stage.Some?
    requires || (u == v && after == before && midLog == log)
             || (u == Restored(v) && midLog == log + [Own(after, None)] && after.objects == before.objects
                 && v.stage.value in before.slots && v.slot in before.slots
                 && after.slots == Exchanged(before.slots, v.stage.value, v.slot))
    ensures Extends(log, midLog)
    ensures InOrder(v, before) && Intact(v) && v.original.Some? ==>
      && Kept(v, u, before, after) && SeenAll(v, before, midLog, |log|, true)
      && (v.slot !in u.holds ==> MayTake(u, after, v.stage.value, true) && At(after, v.stage.value, v.staged.value))
  {
    hide Kept;
    hide Seen;
    hide Local;
    if InOrder(v, before) && Intact(v) && v.original.Some? {
      if u == v {
        assert v.slot in v.holds;
        NothingKept(v, before);
      } else {
        RestoreKeepsOrder(v, before, after);
        OneMoreSeen(v, before, log, log, Own(after, None), true);
      }
    }
  }

  lemma NewMayGo(v: View, d: Disk)
    requires InOrder(v, d)
    ensures Intact(v) && v.original.None? ==> MayTake(v, d, v.slot, true)
  {
  }

  ghost predicate Created(before: Disk, after: Disk, name: Slot, handle: Inode) {
    && name !in before.slots && handle !in before.objects
    && after.slots == before.slots[name := handle]
    && exists access :: after.objects == before.objects[handle := Object(true, [], access)]
  }

  lemma NothingGrown(before: Disk, log: seq<Entry>, slot: Slot, process: string)
    ensures AllGrown(before, log, |log|, slot, process) && Grown(before, before, slot, process) && Extends(log, log)
  {
  }

  lemma FilledIsGrown(before: Disk, mid: Disk, after: Disk, slot: Slot, name: Slot, handle: Inode, process: string)
    requires Created(before, mid, name, handle) && after.slots == mid.slots && Only(handle, mid.objects, after.objects)
    requires Temporary(name, process) && name != slot
    ensures Grown(before, after, slot, process)
  {
  }

  lemma GrowthGoesOn(before: Disk, log: seq<Entry>, mid: Disk, midLog: seq<Entry>, after: seq<Entry>,
                     slot: Slot, name: Slot, handle: Inode, process: string)
    requires Created(before, mid, name, handle) && midLog == log + [Own(mid, None)] && Extends(midLog, after)
    requires Temporary(name, process) && name != slot
    requires forall k :: |midLog| <= k < |after| ==>
      after[k].Own? && after[k].removed.None? && after[k].disk.slots == mid.slots
      && Only(handle, mid.objects, after[k].disk.objects)
    ensures Extends(log, after) && AllGrown(before, after, |log|, slot, process)
  {
    hide Temporary;
    assert after[|log|] == midLog[|log|];
    assert after[..|log|] == after[..|midLog|][..|log|];
    forall k | |log| <= k < |after|
      ensures after[k].Own? && after[k].removed.None? && Grown(before, after[k].disk, slot, process)
    {
      FilledIsGrown(before, mid, after[k].disk, slot, name, handle, process);
    }
  }

  lemma JustMade(before: Disk, mid: Disk, log: seq<Entry>, handle: Inode)
    requires log != [] && log[|log| - 1].disk == before && handle !in before.objects && handle in mid.objects
    ensures MadeHere(Some(handle), log + [Own(mid, None)], |log|)
  {
    assert AppearsAt(handle, log + [Own(mid, None)], |log|);
  }

  lemma MovedOn(v: View, c: Scene, e: Scene, linked: bool)
    requires Moved(v, c, e, linked)
    ensures Extends(c.log, e.log) && e.process == c.process
  {
  }

  /** At most this one file differs. */
  ghost predicate Only(handle: Inode, before: map<Inode, Object>, after: map<Inode, Object>) {
    && (forall i :: i in before ==> i in after)
    && (forall i :: i in after && i != handle ==> i in before && after[i] == before[i])
  }
}
