/** The file system calls the publisher makes. Each may fail at any time; a call that fails has no
    effect, except that a failed write may leave any bytes in the file being written.

    `faults` counts injected failures and `clashes` the times a name that had to be free was taken.
    `log` has the volume at first and after every change, so its last entry is the volume now. */
module PublishVolume {
  import opened Wrappers
  import opened PublishModel

  datatype Lookup = LookupFailed | Missing | Found(inode: Inode)

  class Volume {
    var slots: Bindings
    var objects: map<Inode, Object>
    var stageCounter: nat
    var quarantineCounter: nat
    const process: string
    const hostile: bool
    ghost var faults: nat
    ghost var clashes: nat
    ghost var log: seq<Entry>

    ghost function State(): Disk
      reads `slots, `objects
    {
      Disk(slots, objects)
    }

    ghost predicate Valid()
      reads `slots, `objects, `log
    {
      WellFormed(State()) && Fair(log) && log != [] && log[|log| - 1].disk == State()
    }

    constructor (slots: Bindings, objects: map<Inode, Object>, process: string, hostile: bool)
      requires WellFormed(Disk(slots, objects))
      ensures Valid() && State() == Disk(slots, objects)
      ensures this.hostile == hostile
      ensures faults == 0 && clashes == 0 && log == [Own(State(), None)]
    {
      this.slots, this.objects := slots, objects;
      this.process, this.hostile := process, hostile;
      stageCounter, quarantineCounter := 0, 0;
      faults, clashes, log := 0, 0, [Own(Disk(slots, objects), None)];
    }

    /** A call with no effect on the names or the files: a directory check, an fsync, a dup. */
    method Attempt() returns (ok: bool)
      modifies this`faults
      ensures faults == old(faults) + if ok then 0 else 1
    {
      ok := *;
      if !ok {
        faults := faults + 1;
      }
    }

    method Open(s: Slot) returns (handle: Option<Inode>)
      requires Valid()
      modifies this`faults
      ensures faults >= old(faults)
      ensures handle.Some? ==> faults == old(faults)
      ensures handle.Some? ==> s in slots && slots[s] == handle.value && handle.value in objects
      ensures handle.None? ==> s !in slots || faults > old(faults)
    {
      var ok := Attempt();
      return if ok && s in slots then Some(slots[s]) else None;
    }

    /** The pathname's own identity, as `fstatat` reports it; a non-regular occupant is an error. */
    method Identify(s: Slot) returns (r: Lookup)
      requires Valid()
      modifies this`faults
      ensures faults >= old(faults)
      ensures !r.LookupFailed? ==> faults == old(faults)
      ensures r.Missing? ==> s !in slots
      ensures r.Found? ==> s in slots && slots[s] == r.inode && r.inode in objects && objects[r.inode].regular
      ensures r.LookupFailed? ==>
        faults > old(faults) || (s in slots && slots[s] in objects && !objects[slots[s]].regular)
    {
      var ok := Attempt();
      if !ok || (s in slots && !objects[slots[s]].regular) {
        return LookupFailed;
      }
      return if s in slots then Found(slots[s]) else Missing;
    }

    /** The access state of an open regular file. */
    method Inspect(handle: Inode) returns (access: Option<Access>)
      requires handle in objects
      modifies this`faults
      ensures faults >= old(faults)
      ensures access.Some? ==> faults == old(faults)
      ensures access.Some? ==> objects[handle].regular && objects[handle].access == access.value
      ensures access.None? ==> faults > old(faults) || !objects[handle].regular
    {
      var ok := Attempt();
      return if ok && objects[handle].regular then Some(objects[handle].access) else None;
    }

    method Read(handle: Inode) returns (bytes: Option<Bytes>)
      requires handle in objects
      modifies this`faults
      ensures faults >= old(faults)
      ensures bytes.Some? ==> faults == old(faults)
      ensures bytes.Some? ==> objects[handle].bytes == bytes.value
      ensures bytes.None? ==> faults > old(faults)
    {
      var ok := Attempt();
      return if ok then Some(objects[handle].bytes) else None;
    }

    /** `openat` with `O_CREAT | O_EXCL`, mode 0600. Identifiers of files are not used twice. */
    method CreateExclusive(s: Slot) returns (handle: Option<Inode>)
      requires Valid()
      modifies this`slots, this`objects, this`faults, this`clashes, this`log
      ensures Valid()
      ensures handle.Some? ==>
        && s !in old(slots) && handle.value !in old(objects)
        && slots == old(slots)[s := handle.value]
        && (exists access :: objects == old(objects)[handle.value := Object(true, [], access)])
        && log == old(log) + [Own(State(), None)] && faults == old(faults) && clashes == old(clashes)
      ensures handle.None? ==>
        && State() == old(State()) && log == old(log)
        && faults >= old(faults) && clashes >= old(clashes)
        && faults + clashes > old(faults) + old(clashes)
    {
      var ok := Attempt();
      if !ok {
        return None;
      }
      if s in slots {
        clashes := clashes + 1;
        return None;
      }
      var inode := Unused(objects.Keys);
      var access := Access(0x180, 0, 0, 0, []);
      ghost var before := State();
      slots := slots[s := inode];
      objects := objects[inode := Object(true, [], access)];
      CreatingLosesNothing(before, State(), s, inode);
      StaysFair(log, Own(State(), None));
      log := log + [Own(State(), None)];
      return Some(inode);
    }

    static method Unused(taken: set<Inode>) returns (inode: Inode)
      ensures inode !in taken
    {
      var rest := taken;
      var bound: nat := 0;
      while rest != {}
        invariant rest <= taken
        invariant forall i :: i in taken && i !in rest ==> i < bound
        decreases rest
      {
        var i :| i in rest;
        rest := rest - {i};
        bound := if bound <= i then i + 1 else bound;
      }
      return bound;
    }

    /** Write all bytes and sync. A failure may leave anything in the file. */
    method Write(handle: Inode, bytes: Bytes) returns (ok: bool)
      requires Valid() && handle in objects
      modifies this`objects, this`faults, this`log
      ensures Valid() && log == old(log) + [Own(State(), None)]
      ensures ok ==> objects == old(objects)[handle := old(objects)[handle].(bytes := bytes)] && faults == old(faults)
      ensures !ok ==>
        && faults > old(faults)
        && exists written :: objects == old(objects)[handle := old(objects)[handle].(bytes := written)]
    {
      ok := Attempt();
      var written: Bytes := *;
      if ok {
        written := bytes;
      }
      objects := objects[handle := objects[handle].(bytes := written)];
      StaysFair(log, Own(State(), None));
      log := log + [Own(State(), None)];
    }

    method SetMode(handle: Inode, mode: nat) returns (ok: bool)
      requires Valid() && handle in objects
      modifies this`objects, this`faults, this`log
      ensures Valid()
      ensures ok ==>
        && faults == old(faults) && log == old(log) + [Own(State(), None)]
        && objects == old(objects)[
             handle := old(objects)[handle].(access := old(objects)[handle].access.(mode := mode))]
      ensures !ok ==> faults > old(faults) && log == old(log) && objects == old(objects)
    {
      ok := Attempt();
      if ok {
        objects := objects[handle := objects[handle].(access := objects[handle].access.(mode := mode))];
        StaysFair(log, Own(State(), None));
        log := log + [Own(State(), None)];
      }
    }

    /** `renameatx_np` with `RENAME_SWAP`: both names exist and exchange their objects. */
    method RenameSwap(from: Slot, to: Slot) returns (ok: bool)
      requires Valid()
      modifies this`slots, this`faults, this`log
      ensures Valid()
      ensures ok ==>
        && from in old(slots) && to in old(slots) && faults == old(faults)
        && slots == old(slots)[from := old(slots)[to]][to := old(slots)[from]]
        && log == old(log) + [Own(State(), None)]
      ensures !ok ==>
        && slots == old(slots) && log == old(log)
        && (faults > old(faults) || from !in slots || to !in slots)
    {
      ok := Attempt();
      if !ok || from !in slots || to !in slots {
        return false;
      }
      ghost var before := State();
      slots := slots[from := slots[to]][to := slots[from]];
      RenamingLosesNothing(before, State(), from, to);
      StaysFair(log, Own(State(), None));
      log := log + [Own(State(), None)];
    }

    /** `renameatx_np` with `RENAME_EXCL`: the new name must be free. */
    method RenameExclusive(from: Slot, to: Slot) returns (ok: bool)
      requires Valid()
      modifies this`slots, this`faults, this`clashes, this`log
      ensures Valid()
      ensures clashes >= old(clashes) && faults >= old(faults)
      ensures ok ==>
        && from in old(slots) && to !in old(slots) && faults == old(faults) && clashes == old(clashes)
        && slots == (old(slots) - {from})[to := old(slots)[from]]
        && log == old(log) + [Own(State(), None)]
      ensures !ok ==>
        && slots == old(slots) && log == old(log)
        && (faults > old(faults) || clashes > old(clashes) || from !in slots)
    {
      ok := Attempt();
      if !ok || from !in slots {
        return false;
      }
      if to in slots {
        clashes := clashes + 1;
        return false;
      }
      ghost var before := State();
      slots := (slots - {from})[to := slots[from]];
      RenamingLosesNothing(before, State(), from, to);
      StaysFair(log, Own(State(), None));
      log := log + [Own(State(), None)];
    }

    /** `unlinkat`. The object must be the one the seal was taken of, unaltered. */
    method Unlink(s: Slot, ghost seal: Seal) returns (ok: bool)
      requires Valid() && At(State(), s, seal)
      modifies this`slots, this`faults, this`log
      ensures Valid()
      ensures ok ==>
        && s in old(slots) && slots == old(slots) - {s} && faults == old(faults)
        && log == old(log) + [Own(State(), Some(seal))]
      ensures !ok ==>
        && slots == old(slots) && log == old(log)
        && (faults > old(faults) || s !in slots)
    {
      ok := Attempt();
      if !ok || s !in slots {
        return false;
      }
      ghost var before := State();
      slots := slots - {s};
      RemovingLosesOne(before, State(), s);
      StaysFair(log, Own(State(), Some(seal)));
      log := log + [Own(State(), Some(seal))];
    }

    /** Between two operations of the publisher another process may rename, replace, rewrite or
        remove anything. Open files keep existing and keep their kind. */
    method Interfere()
      requires Valid()
      modifies this`slots, this`objects, this`log
      ensures Valid()
      ensures !hostile ==> State() == old(State()) && log == old(log)
      ensures (State() == old(State()) && log == old(log)) || log == old(log) + [Foreign(State())]
      ensures forall i :: i in old(objects) ==> i in objects && objects[i].regular == old(objects)[i].regular
    {
      if hostile {
        var names: Bindings := *;
        var contents: map<Inode, Object> := *;
        if (forall s :: s in names ==> names[s] in contents)
           && (forall i :: i in objects ==> i in contents && contents[i].regular == objects[i].regular) {
          slots, objects := names, contents;
          StaysFair(log, Foreign(State()));
          log := log + [Foreign(State())];
        }
      }
    }
  }

  ghost function SceneOf(vol: Volume): Scene
    reads vol
  {
    Scene(vol.State(), vol.log, vol.process)
  }

  lemma CreatingLosesNothing(before: Disk, after: Disk, s: Slot, inode: Inode)
    requires s !in before.slots && after.slots == before.slots[s := inode]
    ensures forall i :: Linked(before, i) ==> Linked(after, i)
  {
    forall i | Linked(before, i) ensures Linked(after, i) {
      var x :| x in before.slots && before.slots[x] == i;
      assert after.slots[x] == i;
    }
  }

  lemma RenamingLosesNothing(before: Disk, after: Disk, from: Slot, to: Slot)
    requires from in before.slots
    requires after.slots == if to in before.slots then before.slots[from := before.slots[to]][to := before.slots[from]]
                            else (before.slots - {from})[to := before.slots[from]]
    ensures forall i :: Linked(before, i) ==> Linked(after, i)
  {
    forall i | Linked(before, i) ensures Linked(after, i) {
      var x :| x in before.slots && before.slots[x] == i;
      assert after.slots[if x == from then to else if x == to then from else x] == i;
    }
  }

  lemma RemovingLosesOne(before: Disk, after: Disk, s: Slot)
    requires s in before.slots && after.slots == before.slots - {s}
    ensures forall i :: Linked(before, i) && i != before.slots[s] ==> Linked(after, i)
  {
    forall i | Linked(before, i) && i != before.slots[s] ensures Linked(after, i) {
      var x :| x in before.slots && before.slots[x] == i;
      assert after.slots[x] == i;
    }
  }
}
