/** What holds of all targets of a run together. */
module PublishInvariant {
  import opened Wrappers
  import opened PublishModel
  import opened PublishSteps

  /** Some target answers for the name. */
  ghost predicate Owned(vs: seq<View>, s: Slot) {
    exists i :: 0 <= i < |vs| && s in vs[i].holds
  }

  /** No two targets answer for the same name or made the same file. */
  ghost predicate Apart(v: View, w: View) {
    && v.slot != w.slot && v.holds.Keys !! w.holds.Keys
    && (v.made.Some? ==> v.made != w.made)
  }

  /** The target's own part: it is in order, the file it made is new, and the names it answers for
      were free at the start, its destination aside. */
  ghost predicate Rooted(v: View, start: Disk, d: Disk) {
    && InOrder(v, d)
    && (v.made.Some? ==> v.made.value !in start.objects)
    && Binding(start.slots, v.slot) == Binding(Was(v), v.slot)
    && (forall s :: s in v.holds ==> Binding(start.slots, s) == Binding(Was(v), s))
  }

  /** Every name no target answers for is bound as at the start, and every file of the start is as
      it was. */
  ghost predicate Inv(vs: seq<View>, start: Disk, d: Disk) {
    && WellFormed(start)
    && (forall i :: 0 <= i < |vs| ==> Rooted(vs[i], start, d))
    && (forall i, j :: 0 <= i < |vs| && 0 <= j < |vs| && i != j ==> Apart(vs[i], vs[j]))
    && (forall s :: !Owned(vs, s) ==> Binding(d.slots, s) == Binding(start.slots, s))
    && (forall i :: i in start.objects ==> i in d.objects && d.objects[i] == start.objects[i])
  }

  // ------------------------------------------------------------ one target's step

  lemma StepStaysApart(v: View, u: View, w: View, start: Disk, before: Disk, after: Disk)
    requires Rooted(v, start, before) && Rooted(w, start, before) && Apart(v, w) && Apart(w, v)
    requires Kept(v, u, before, after)
    ensures Apart(u, w) && Apart(w, u)
  {
    forall s | s in w.holds ensures s !in u.holds {
      assert s !in v.holds && Binding(before.slots, s) == Some(w.holds[s]);
    }
  }

  /** The target's own names keep their bindings, its file gets no other name, and, while its old
      object is in place, the destination is left alone. */
  ghost predicate NamesKeptFor(w: View, before: Bindings, after: Bindings, s: Slot) {
    && (s in w.holds ==> Binding(after, s) == Binding(before, s))
    && (w.made.Some? && Binding(after, s) == w.made ==> Binding(before, s) == w.made)
    && (w.original.Some? && w.slot !in w.holds && s == w.slot ==> Binding(after, s) == Binding(before, s))
  }

  /** The names of another target, and of the file it made, are where they were. */
  lemma OtherNamesKept(v: View, u: View, w: View, start: Disk, before: Disk, after: Disk, s: Slot)
    requires Rooted(v, start, before) && Rooted(w, start, before) && Apart(v, w) && Apart(u, w)
    requires WellFormed(start) && Kept(v, u, before, after)
    requires forall i :: i in start.objects ==> i in before.objects
    ensures NamesKeptFor(w, before.slots, after.slots, s)
  {
    hide HandlesOpen;
    hide Matches;
    if s in u.holds {
      assert Binding(after.slots, s) == Some(u.holds[s]);
    } else if s in v.holds {
      assert Binding(after.slots, s) == Binding(Was(v), s);
    } else {
      assert Binding(after.slots, s) == Binding(before.slots, s);
    }
    if w.original.Some? && w.slot !in w.holds && s == w.slot {
      assert Binding(Was(v), s) == None;
      assert s !in v.holds && s !in u.holds;
    }
  }

  lemma StillInOrder(w: View, before: Disk, after: Disk)
    requires InOrder(w, before) && forall s :: NamesKeptFor(w, before.slots, after.slots, s)
    requires forall i :: i in before.objects ==> i in after.objects && after.objects[i] == before.objects[i]
    ensures InOrder(w, after)
  {
    hide Matches;
    assert NamesKeptFor(w, before.slots, after.slots, w.slot);
    forall s ensures && (s in w.holds ==> Binding(after.slots, s) == Some(w.holds[s]))
                     && (w.made.Some? && Binding(after.slots, s) == w.made ==> s in w.holds) {
      assert NamesKeptFor(w, before.slots, after.slots, s);
      assert Binding(before.slots, s) == w.made && w.made.Some? ==> before.slots[s] == w.made.value;
    }
    assert forall s :: s in after.slots ==> Binding(after.slots, s) == Some(after.slots[s]);
  }

  lemma OtherStaysRooted(v: View, u: View, w: View, start: Disk, before: Disk, after: Disk)
    requires Rooted(v, start, before) && Rooted(w, start, before) && Apart(v, w) && Apart(u, w)
    requires WellFormed(start) && Kept(v, u, before, after)
    requires forall i :: i in start.objects ==> i in before.objects
    ensures Rooted(w, start, after)
  {
    hide InOrder;
    hide Local;
    hide Apart;
    forall s ensures NamesKeptFor(w, before.slots, after.slots, s) {
      OtherNamesKept(v, u, w, start, before, after, s);
    }
    StillInOrder(w, before, after);
  }

  lemma StepStaysRooted(v: View, u: View, start: Disk, before: Disk, after: Disk)
    requires Rooted(v, start, before) && Kept(v, u, before, after)
    requires forall s :: s !in v.holds && s in u.holds && s != v.slot ==>
      Binding(before.slots, s) == Binding(start.slots, s)
    requires forall i :: i in start.objects ==> i in before.objects
    ensures Rooted(u, start, after)
  {
  }

  lemma StepKeepsInv(vs: seq<View>, i: nat, u: View, start: Disk, before: Disk, after: Disk)
    requires i < |vs| && Inv(vs, start, before) && Kept(vs[i], u, before, after)
    ensures Inv(vs[i := u], start, after)
  {
    hide Rooted;
    hide Apart;
    hide InOrder;
    ghost var next := vs[i := u];
    forall j | 0 <= j < |vs| && j != i ensures Apart(u, vs[j]) && Apart(vs[j], u) && Rooted(vs[j], start, after) {
      StepStaysApart(vs[i], u, vs[j], start, before, after);
      OtherStaysRooted(vs[i], u, vs[j], start, before, after);
    }
    forall s | s !in vs[i].holds && s in u.holds && s != vs[i].slot
      ensures Binding(before.slots, s) == Binding(start.slots, s)
    {
      TakesFreeNames(vs, i, u, start, before, after, s);
    }
    StepStaysRooted(vs[i], u, start, before, after);
    forall s | !Owned(next, s) ensures Binding(after.slots, s) == Binding(start.slots, s) {
      UnownedStaysFree(vs, i, u, start, before, after, s);
    }
  }

  lemma TakesFreeNames(vs: seq<View>, i: nat, u: View, start: Disk, before: Disk, after: Disk, s: Slot)
    requires i < |vs| && Inv(vs, start, before) && Kept(vs[i], u, before, after)
    requires s !in vs[i].holds && s in u.holds && s != vs[i].slot
    ensures Binding(before.slots, s) == Binding(start.slots, s)
  {
    hide Apart;
    assert Binding(before.slots, s) == Binding(Was(vs[i]), s) == None;
    forall j | 0 <= j < |vs| ensures s !in vs[j].holds {
      assert Rooted(vs[j], start, before);
    }
  }

  lemma UnownedStaysFree(vs: seq<View>, i: nat, u: View, start: Disk, before: Disk, after: Disk, s: Slot)
    requires i < |vs| && Inv(vs, start, before) && Kept(vs[i], u, before, after) && !Owned(vs[i := u], s)
    ensures Binding(after.slots, s) == Binding(start.slots, s)
  {
    hide InOrder;
    hide Apart;
    ghost var next := vs[i := u];
    assert next[i] == u && s !in u.holds;
    if s in vs[i].holds {
      assert Rooted(vs[i], start, before);
    } else {
      forall j | 0 <= j < |vs| ensures s !in vs[j].holds {
        assert j != i ==> next[j] == vs[j];
      }
    }
  }

  // --------------------------------------------------------- the start and the end

  predicate Fresh(v: View) {
    Unstaged(v) && v.previous == v.original
  }

  /** The targets as they are prepared, before anything is staged. */
  ghost predicate Prepared(vs: seq<View>, d: Disk) {
    && (forall i :: 0 <= i < |vs| ==> Fresh(vs[i]))
    && (forall i, j :: 0 <= i < |vs| && 0 <= j < |vs| && i != j ==> vs[i].slot != vs[j].slot)
    && (forall i :: 0 <= i < |vs| ==>
          if vs[i].original.Some? then At(d, vs[i].slot, vs[i].original.value) else vs[i].slot !in d.slots)
  }

  lemma InvAtTheStart(vs: seq<View>, d: Disk)
    requires WellFormed(d) && Prepared(vs, d)
    ensures Inv(vs, d, d)
  {
  }

  /** No target answers for any name: every name is bound as at the start. */
  lemma AllReleasedMeansUntouched(vs: seq<View>, start: Disk, d: Disk)
    requires Inv(vs, start, d) && forall i :: 0 <= i < |vs| ==> vs[i].holds == map[]
    ensures d.slots == start.slots
    ensures forall i :: i in start.objects ==> i in d.objects && d.objects[i] == start.objects[i]
  {
    hide Rooted;
    hide Apart;
    forall s ensures Binding(d.slots, s) == Binding(start.slots, s) {
      assert !Owned(vs, s);
    }
    assert forall s :: s in d.slots <==> Binding(d.slots, s).Some?;
    assert forall s :: s in start.slots <==> Binding(start.slots, s).Some?;
    assert d.slots.Keys == start.slots.Keys;
    forall s | s in d.slots ensures d.slots[s] == start.slots[s] {
      assert Binding(d.slots, s) == Binding(start.slots, s);
    }
  }

  lemma InPlaceMeansPublished(vs: seq<View>, start: Disk, d: Disk, i: nat)
    requires Inv(vs, start, d) && i < |vs| && InPlace(vs[i])
    ensures Published(vs[i], d) && d.slots[vs[i].slot] !in start.objects
  {
    assert Rooted(vs[i], start, d);
  }

  /** Every target is finished: its destination holds the source's bytes and no other name has come,
      gone or changed. */
  lemma AllDoneMeansPublished(vs: seq<View>, start: Disk, d: Disk)
    requires Inv(vs, start, d) && forall i :: 0 <= i < |vs| ==> Done(vs[i])
    ensures forall i :: 0 <= i < |vs| ==> Published(vs[i], d)
    ensures forall s :: (forall i :: 0 <= i < |vs| ==> s != vs[i].slot) ==>
      Binding(d.slots, s) == Binding(start.slots, s)
  {
    hide Rooted;
    hide Apart;
    forall i | 0 <= i < |vs| ensures Published(vs[i], d) {
      InPlaceMeansPublished(vs, start, d, i);
    }
    forall s | forall i :: 0 <= i < |vs| ==> s != vs[i].slot ensures Binding(d.slots, s) == Binding(start.slots, s) {
      forall i | 0 <= i < |vs| ensures s !in vs[i].holds {
        assert vs[i].holds == map[vs[i].slot := vs[i].made.value];
      }
    }
  }

  // -------------------------------------------------------------- what is witnessed

  /** The targets as prepared: what they aim at never changes. */
  ghost predicate SameGoals(goals: seq<View>, vs: seq<View>) {
    |goals| == |vs| && forall i :: 0 <= i < |vs| ==>
      goals[i].slot == vs[i].slot && goals[i].source == vs[i].source && goals[i].original == vs[i].original
  }

  /** Every destination is whole. One that did not exist may have the name of another one's stage or of
      a quarantined file; until it is published nothing is said of it then. */
  ghost predicate AllWhole(goals: seq<View>, d: Disk, process: string) {
    forall i :: 0 <= i < |goals| ==> Whole(goals[i], d) || Excused(goals[i], process)
  }

  ghost predicate Excused(v: View, process: string) {
    v.original.None? && Temporary(v.slot, process)
  }

  ghost predicate AllOldLinked(goals: seq<View>, d: Disk) {
    forall i :: 0 <= i < |goals| ==> OldLinked(goals[i], d)
  }

  ghost predicate EachPublished(goals: seq<View>, d: Disk) {
    forall i :: 0 <= i < |goals| ==> Published(goals[i], d)
  }

  ghost predicate SafeEntry(goals: seq<View>, e: Entry, process: string, linked: bool) {
    e.Own? && AllWhole(goals, e.disk, process) && (linked ==> AllOldLinked(goals, e.disk))
  }

  /** No one else did anything, and after every step the destinations were whole, and, where it says
      so, the old objects had names. */
  ghost predicate Witnessed(goals: seq<View>, log: seq<Entry>, from: nat, process: string, linked: bool) {
    from <= |log| && forall k :: from <= k < |log| ==> SafeEntry(goals, log[k], process, linked)
  }

  /** From this moment on every destination has its new object. */
  ghost predicate Lasting(goals: seq<View>, log: seq<Entry>, steps: nat) {
    0 < steps <= |log| && forall k :: steps - 1 <= k < |log| ==> EachPublished(goals, log[k].disk)
  }

  /** The old object is where it was, or waits under the stage's name. */
  predicate Restorable(v: View) {
    v.slot in v.holds && v.original.Some? ==> Intact(v)
  }

  /** The names a target answers for are its destination's and temporary ones. */
  ghost predicate Named(v: View, process: string) {
    forall s :: s in v.holds ==> s == v.slot || Temporary(s, process)
  }

  lemma StaysNamed(v: View, u: View, before: Disk, after: Disk, process: string)
    requires Kept(v, u, before, after) && NewNames(before.slots, after.slots, v.slot, process) && Named(v, process)
    ensures Named(u, process)
  {
    hide InOrder;
    hide Temporary;
    assert InOrder(u, after) ==> forall s :: s in u.holds ==> Binding(after.slots, s) == Some(u.holds[s]);
    forall s | s in u.holds && s != u.slot ensures Temporary(s, process) {
      if s !in v.holds {
        assert Binding(before.slots, s) == Binding(Was(v), s) == None;
      }
    }
  }

  /** While one target's operation runs, another target's destination stays as it is. */
  lemma OtherStaysPut(v: View, w: View, start: Disk, before: Disk, d: Disk, linked: bool)
    requires WellFormed(start) && Rooted(v, start, before) && Rooted(w, start, before) && Apart(v, w)
    requires Seen(v, before, d, linked) && w.slot in before.slots && w.slot !in v.holds
    ensures w.slot in d.slots && d.slots[w.slot] == before.slots[w.slot]
    ensures before.slots[w.slot] in before.objects ==>
      && before.slots[w.slot] in d.objects && d.objects[before.slots[w.slot]] == before.objects[before.slots[w.slot]]
  {
    hide Matches;
    assert Binding(Was(v), w.slot) == None;
    assert v.made.Some? && before.slots[w.slot] == v.made.value ==> w.slot in v.holds;
  }

  lemma OtherStaysWhole(v: View, w: View, start: Disk, before: Disk, d: Disk, process: string, linked: bool)
    requires WellFormed(start) && Rooted(v, start, before) && Rooted(w, start, before) && Apart(v, w)
    requires Seen(v, before, d, linked) && Whole(w, before)
    requires NewNames(before.slots, d.slots, v.slot, process) && Named(v, process)
    ensures Whole(w, d) || Excused(w, process)
  {
    hide Seen;
    hide Temporary;
    assert Binding(Was(v), w.slot) == None;
    if w.slot in before.slots && w.slot !in v.holds {
      OtherStaysPut(v, w, start, before, d, linked);
    }
  }

  lemma OtherStaysLinked(v: View, w: View, start: Disk, before: Disk, d: Disk)
    requires WellFormed(start) && Rooted(v, start, before) && Rooted(w, start, before) && Apart(v, w)
    requires Seen(v, before, d, true) && Restorable(w)
    ensures OldLinked(w, d)
  {
    if w.original.Some? {
      assert Binding(Was(v), w.slot) == None && Binding(Was(w), w.slot) == Binding(start.slots, w.slot);
      assert w.slot !in v.holds;
      if w.slot in w.holds {
        assert w.stage.value in w.holds && w.stage.value !in v.holds;
        assert Binding(start.slots, w.stage.value) == None;
        assert d.slots[w.stage.value] == w.original.value.identity;
      } else {
        assert d.slots[w.slot] == w.original.value.identity;
      }
    }
  }

  lemma OtherStaysPublished(v: View, w: View, start: Disk, before: Disk, d: Disk, linked: bool)
    requires WellFormed(start) && Rooted(v, start, before) && Rooted(w, start, before) && Apart(v, w)
    requires Seen(v, before, d, linked) && InPlace(w)
    ensures Published(w, d)
  {
    hide Seen;
    assert w.slot in w.holds && w.slot in before.slots;
    OtherStaysPut(v, w, start, before, d, linked);
  }

  lemma TargetIsLinked(v: View, start: Disk, d: Disk)
    requires WellFormed(start) && Rooted(v, start, d) && Restorable(v)
    ensures OldLinked(v, d)
  {
    if v.original.Some? {
      if v.slot in v.holds {
        assert v.stage.value in v.holds;
        assert d.slots[v.stage.value] == v.original.value.identity;
      } else {
        assert d.slots[v.slot] == v.original.value.identity;
      }
    }
  }

  /** In any state of a run every destination is whole. */
  lemma TargetIsWhole(vs: seq<View>, start: Disk, d: Disk, process: string, i: nat)
    requires Inv(vs, start, d) && i < |vs| && forall j :: 0 <= j < |vs| ==> Named(vs[j], process)
    ensures Whole(vs[i], d) || Excused(vs[i], process)
  {
    hide Temporary;
    var v := vs[i];
    assert Rooted(v, start, d);
    if v.slot !in v.holds && v.original.None? && v.slot in d.slots {
      assert Binding(start.slots, v.slot) == None;
      assert Owned(vs, v.slot);
      var j :| 0 <= j < |vs| && v.slot in vs[j].holds;
      assert Named(vs[j], process) && (j != i ==> Apart(vs[i], vs[j]));
    }
  }

  lemma AllWholeNow(goals: seq<View>, vs: seq<View>, start: Disk, d: Disk, process: string)
    requires Inv(vs, start, d) && SameGoals(goals, vs) && forall j :: 0 <= j < |vs| ==> Named(vs[j], process)
    ensures AllWhole(goals, d, process)
  {
    hide Inv;
    hide Named;
    hide Temporary;
    forall j | 0 <= j < |vs| ensures Whole(goals[j], d) || Excused(goals[j], process) {
      TargetIsWhole(vs, start, d, process, j);
    }
  }

  lemma AllLinkedNow(goals: seq<View>, vs: seq<View>, start: Disk, d: Disk)
    requires Inv(vs, start, d) && SameGoals(goals, vs) && forall j :: 0 <= j < |vs| ==> Restorable(vs[j])
    ensures AllOldLinked(goals, d)
  {
    hide Rooted;
    hide Apart;
    hide Restorable;
    forall j | 0 <= j < |vs| ensures OldLinked(vs[j], d) {
      TargetIsLinked(vs[j], start, d);
    }
  }

  /** Every name of the start that is no destination keeps its binding, whatever has gone wrong. */
  lemma ForeignNamesKept(vs: seq<View>, start: Disk, d: Disk, s: Slot)
    requires Inv(vs, start, d) && s in start.slots && forall i :: 0 <= i < |vs| ==> s != vs[i].slot
    ensures Binding(d.slots, s) == Binding(start.slots, s)
  {
    hide InOrder;
    hide Apart;
    forall i | 0 <= i < |vs| ensures s !in vs[i].holds {
      assert Rooted(vs[i], start, d);
    }
  }

  /** As long as no target is published, every name of the start keeps its binding. */
  lemma UnpublishedNamesKept(vs: seq<View>, start: Disk, d: Disk, s: Slot)
    requires Inv(vs, start, d) && s in start.slots
    requires forall i :: 0 <= i < |vs| ==> !vs[i].published && !vs[i].finished
    ensures Binding(d.slots, s) == Binding(start.slots, s)
  {
    hide Apart;
    forall i | 0 <= i < |vs| ensures s !in vs[i].holds {
      assert Rooted(vs[i], start, d);
    }
  }

  /** Until the first old object is given up a run can still be undone. It cannot once all targets are
      published: `steps` is the length of the log then. */
  datatype Phase = Undoable | Final(steps: nat)

  /** What the reasoning remembers of the moment all targets were prepared. */
  datatype Origin = Origin(goals: seq<View>, start: Disk, past: seq<Entry>)

  /** A target in this phase: its names, and its old object restorable or its new one in place. */
  ghost predicate Stands(v: View, process: string, phase: Phase) {
    Named(v, process) && if phase.Undoable? then Restorable(v) else InPlace(v)
  }

  /** No one else is at work, and all is in order. */
  ghost predicate Fine(o: Origin, vs: seq<View>, c: Scene, phase: Phase) {
    && Inv(vs, o.start, c.d) && SameGoals(o.goals, vs)
    && Witnessed(o.goals, c.log, |o.past|, c.process, phase.Undoable?)
    && (forall j :: 0 <= j < |vs| ==> Stands(vs[j], c.process, phase))
    && (phase.Final? ==> Lasting(o.goals, c.log, phase.steps))
  }

  /** One target's operation among the others, as the log shows it. */
  ghost predicate Step(v: View, c: Scene, e: Scene, linked: bool) {
    && Extends(c.log, e.log) && e.process == c.process && NewNames(c.d.slots, e.d.slots, v.slot, c.process)
    && forall k :: |c.log| <= k < |e.log| ==> StepEntry(v, c, e.log[k], linked)
  }

  ghost predicate StepEntry(v: View, c: Scene, e: Entry, linked: bool) {
    e.Own? && Seen(v, c.d, e.disk, linked) && NewNames(c.d.slots, e.disk.slots, v.slot, c.process)
  }

  lemma EntryIsWhole(o: Origin, vs: seq<View>, i: nat, c: Scene, e: Entry, phase: Phase)
    requires i < |vs| && Fine(o, vs, c, phase) && StepEntry(vs[i], c, e, phase.Undoable?)
    ensures AllWhole(o.goals, e.disk, c.process)
  {
    hide Seen;
    hide Rooted;
    hide Apart;
    hide Temporary;
    hide Witnessed;
    assert forall j :: 0 <= j < |vs| ==> Stands(vs[j], c.process, phase);
    hide Restorable;
    hide InPlace;
    forall j | 0 <= j < |vs| ensures Whole(vs[j], e.disk) || Excused(vs[j], c.process) {
      TargetIsWhole(vs, o.start, c.d, c.process, j);
      if Whole(vs[j], c.d) {
        if j != i {
          OtherStaysWhole(vs[i], vs[j], o.start, c.d, e.disk, c.process, phase.Undoable?);
        } else {
          SeenMeansWhole(vs[i], c.d, e.disk, phase.Undoable?);
        }
      }
    }
  }

  lemma SeenMeansWhole(v: View, before: Disk, d: Disk, linked: bool)
    requires Seen(v, before, d, linked) && Whole(v, before)
    ensures Whole(v, d)
  {
  }

  lemma EntryIsLinked(o: Origin, vs: seq<View>, i: nat, c: Scene, e: Entry)
    requires i < |vs| && Fine(o, vs, c, Undoable) && StepEntry(vs[i], c, e, true)
    ensures AllOldLinked(o.goals, e.disk)
  {
    hide Rooted;
    hide Apart;
    hide Restorable;
    forall j | 0 <= j < |vs| ensures OldLinked(vs[j], e.disk) {
      assert Stands(vs[j], c.process, Undoable);
      if j != i {
        OtherStaysLinked(vs[i], vs[j], o.start, c.d, e.disk);
      }
    }
  }

  lemma EntryIsPublished(o: Origin, vs: seq<View>, i: nat, c: Scene, e: Entry, phase: Phase)
    requires i < |vs| && phase.Final? && Fine(o, vs, c, phase) && StepEntry(vs[i], c, e, false)
    ensures EachPublished(o.goals, e.disk)
  {
    hide Rooted;
    hide Apart;
    hide InPlace;
    forall j | 0 <= j < |vs| ensures Published(vs[j], e.disk) {
      assert Stands(vs[j], c.process, phase);
      if j != i {
        OtherStaysPublished(vs[i], vs[j], o.start, c.d, e.disk, false);
      }
    }
  }

  /** Each state a step passes through is safe, and once all targets are published it stays so. */
  lemma StepsAreWitnessed(o: Origin, vs: seq<View>, i: nat, c: Scene, e: Scene, phase: Phase)
    requires i < |vs| && Fine(o, vs, c, phase) && Step(vs[i], c, e, phase.Undoable?)
    ensures Witnessed(o.goals, e.log, |o.past|, c.process, phase.Undoable?)
    ensures phase.Final? ==> Lasting(o.goals, e.log, phase.steps)
  {
    hide StepEntry;
    hide SafeEntry;
    hide EachPublished;
    hide Inv;
    hide Stands;
    forall k | |o.past| <= k < |e.log| ensures SafeEntry(o.goals, e.log[k], c.process, phase.Undoable?) {
      if k < |c.log| {
        assert e.log[k] == e.log[..|c.log|][k];
      } else {
        EntryIsSafe(o, vs, i, c, e.log[k], phase);
      }
    }
    if phase.Final? {
      forall k | phase.steps - 1 <= k < |e.log| ensures EachPublished(o.goals, e.log[k].disk) {
        if k < |c.log| {
          assert e.log[k] == e.log[..|c.log|][k];
        } else {
          EntryIsPublished(o, vs, i, c, e.log[k], phase);
        }
      }
    }
  }

  lemma EntryIsSafe(o: Origin, vs: seq<View>, i: nat, c: Scene, e: Entry, phase: Phase)
    requires i < |vs| && Fine(o, vs, c, phase) && StepEntry(vs[i], c, e, phase.Undoable?)
    ensures SafeEntry(o.goals, e, c.process, phase.Undoable?)
  {
    hide Fine;
    hide AllWhole;
    hide AllOldLinked;
    EntryIsWhole(o, vs, i, c, e, phase);
    if phase.Undoable? { EntryIsLinked(o, vs, i, c, e); }
    assert e.Own?;
  }

  /** A target that has not given its old object up. */
  predicate Revocable(v: View) {
    (!v.published && !v.finished) || Intact(v) || HalfRolledBack(v)
  }

  lemma StillStands(v: View, u: View, c: Scene, e: Scene, phase: Phase)
    requires Kept(v, u, c.d, e.d) && NewNames(c.d.slots, e.d.slots, v.slot, c.process) && Stands(v, c.process, phase)
    requires if phase.Undoable? then Revocable(u) else InPlace(u)
    ensures Stands(u, c.process, phase)
  {
    hide NewNames;
    hide Local;
    hide Named;
    StaysNamed(v, u, c.d, e.d, c.process);
  }

  lemma SameGoalsNext(goals: seq<View>, vs: seq<View>, i: nat, u: View, before: Disk, after: Disk)
    requires SameGoals(goals, vs) && i < |vs| && Kept(vs[i], u, before, after)
    ensures SameGoals(goals, vs[i := u])
  {
    hide InOrder;
    hide Local;
  }

  lemma FineNext(o: Origin, vs: seq<View>, i: nat, u: View, c: Scene, e: Scene, phase: Phase)
    requires i < |vs| && Fine(o, vs, c, phase) && Stands(u, e.process, phase) && e.process == c.process
    requires Inv(vs[i := u], o.start, e.d) && SameGoals(o.goals, vs[i := u])
    requires Witnessed(o.goals, e.log, |o.past|, e.process, phase.Undoable?)
    requires phase.Final? ==> Lasting(o.goals, e.log, phase.steps)
    ensures Fine(o, vs[i := u], e, phase)
  {
    hide Inv;
    hide Witnessed;
    hide Lasting;
    hide Stands;
    hide SameGoals;
  }

  lemma FineMeans(o: Origin, vs: seq<View>, i: nat, c: Scene, phase: Phase)
    requires i < |vs| && Fine(o, vs, c, phase)
    ensures Inv(vs, o.start, c.d) && SameGoals(o.goals, vs) && Stands(vs[i], c.process, phase)
  {
  }

  lemma StepMeans(v: View, c: Scene, e: Scene, linked: bool)
    requires Step(v, c, e, linked)
    ensures NewNames(c.d.slots, e.d.slots, v.slot, c.process) && e.process == c.process
  {
  }

  lemma Advance(o: Origin, vs: seq<View>, i: nat, u: View, c: Scene, e: Scene, phase: Phase)
    requires i < |vs| && Fine(o, vs, c, phase)
    requires Kept(vs[i], u, c.d, e.d) && Step(vs[i], c, e, phase.Undoable?)
    requires if phase.Undoable? then Revocable(u) else InPlace(u)
    ensures Fine(o, vs[i := u], e, phase)
  {
    hide *;
    FineMeans(o, vs, i, c, phase);
    StepMeans(vs[i], c, e, phase.Undoable?);
    StepsAreWitnessed(o, vs, i, c, e, phase);
    StepKeepsInv(vs, i, u, o.start, c.d, e.d);
    StillStands(vs[i], u, c, e, phase);
    SameGoalsNext(o.goals, vs, i, u, c.d, e.d);
    FineNext(o, vs, i, u, c, e, phase);
  }

  // ------------------------------------------------------------- what the run unlinks

  /** A seal of a file the target made, or of its old object as it was prepared. */
  predicate Mine(v: View, seal: Seal) {
    v.made == Some(seal.identity) || v.original == Some(seal)
  }

  ghost predicate SomeonesOwn(vs: seq<View>, seal: Seal) {
    exists j :: 0 <= j < |vs| && Mine(vs[j], seal)
  }

  ghost predicate OnlyOwnRemoved(vs: seq<View>, log: seq<Entry>, from: nat) {
    forall k :: from <= k < |log| && log[k].Own? && log[k].removed.Some? ==> SomeonesOwn(vs, log[k].removed.value)
  }

  /** The object is the target's to remove: a file it made, or its old object, unaltered. */
  ghost predicate Yields(v: View, d: Disk, i: Inode) {
    || v.made == Some(i)
    || (v.original.Some? && v.original.value.identity == i && i in d.objects && Matches(d.objects[i], v.original.value))
  }

  ghost predicate SparesAt(vs: seq<View>, log: seq<Entry>, k: nat)
    requires 0 < k < |log|
  {
    log[k].Own? ==> forall i :: Linked(log[k - 1].disk, i) && !Linked(log[k].disk, i) ==>
      exists j :: 0 <= j < |vs| && Yields(vs[j], log[k - 1].disk, i)
  }

  /** In every step of the run's own, whatever lost its last name was some target's to remove. */
  ghost predicate Spares(vs: seq<View>, log: seq<Entry>, from: nat) {
    forall k :: 0 < k && from <= k < |log| ==> SparesAt(vs, log, k)
  }

  lemma FairMeansSpares(vs: seq<View>, log: seq<Entry>, from: nat)
    requires Fair(log) && OnlyOwnRemoved(vs, log, from)
    ensures Spares(vs, log, from)
  {
    forall k | 0 < k && from <= k < |log| ensures SparesAt(vs, log, k) {
      assert FairStep(log, k);
      if log[k].Own? && log[k].removed.Some? {
        var j :| 0 <= j < |vs| && Mine(vs[j], log[k].removed.value);
        forall i | Linked(log[k - 1].disk, i) && !Linked(log[k].disk, i) ensures Yields(vs[j], log[k - 1].disk, i) {
        }
      }
    }
  }

  ghost predicate AllMadeHere(vs: seq<View>, log: seq<Entry>, from: nat) {
    forall i :: 0 <= i < |vs| ==> MadeHere(vs[i].made, log, from)
  }

  // ------------------------------------------------------------------ the run's state

  /** Whoever else is at work, the targets' descriptors stay open, what they made was made by the run,
      and only their own objects are removed. When no one else is, all is in order. */
  ghost predicate Good(o: Origin, vs: seq<View>, c: Scene, hostile: bool, phase: Phase) {
    && (forall i :: 0 <= i < |vs| ==> FieldsFit(vs[i]) && HandlesOpen(vs[i], c.d.objects))
    && Extends(o.past, c.log) && OnlyOwnRemoved(vs, c.log, |o.past|) && AllMadeHere(vs, c.log, |o.past|)
    && (hostile || Fine(o, vs, c, phase))
  }

  lemma AllMadeStay(vs: seq<View>, log: seq<Entry>, longer: seq<Entry>, from: nat)
    requires AllMadeHere(vs, log, from) && Extends(log, longer)
    ensures AllMadeHere(vs, longer, from)
  {
    forall i | 0 <= i < |vs| ensures MadeHere(vs[i].made, longer, from) {
      MadeStays(vs[i].made, log, longer, from);
    }
  }

  lemma OwnAfterInterference(vs: seq<View>, log: seq<Entry>, d: Disk, from: nat)
    requires OnlyOwnRemoved(vs, log, from)
    ensures OnlyOwnRemoved(vs, log + [Foreign(d)], from)
  {
    hide SomeonesOwn;
  }

  lemma GoodAfterInterference(o: Origin, vs: seq<View>, c: Scene, e: Scene, hostile: bool, phase: Phase)
    requires Good(o, vs, c, hostile, phase) && (e.log == c.log || e.log == c.log + [Foreign(e.d)])
    requires forall i :: i in c.d.objects ==> i in e.d.objects
    requires hostile || e == c
    ensures Good(o, vs, e, hostile, phase)
  {
    assert Extends(c.log, e.log);
    ExtendsAgain(o.past, c.log, e.log);
    AllMadeStay(vs, c.log, e.log, |o.past|);
    OwnAfterInterference(vs, c.log, e.d, |o.past|);
    hide Extends;
    hide AllMadeHere;
    hide OnlyOwnRemoved;
    hide Fine;
    hide FieldsFit;
  }

  ghost predicate RemovesAs(v: View, log: seq<Entry>, from: nat) {
    forall k :: from <= k < |log| ==> log[k].Own? && (log[k].removed.Some? ==> Mine(v, log[k].removed.value))
  }

  lemma OwnAfterStep(vs: seq<View>, i: nat, u: View, earlier: seq<Entry>, log: seq<Entry>, from: nat)
    requires i < |vs| && Extends(earlier, log) && RemovesAs(vs[i], log, |earlier|)
    requires u.original == vs[i].original && (u.made == vs[i].made || vs[i].made.None?)
    requires OnlyOwnRemoved(vs, earlier, from)
    ensures OnlyOwnRemoved(vs[i := u], log, from)
  {
    ghost var next := vs[i := u];
    forall k | from <= k < |log| && log[k].Own? && log[k].removed.Some?
      ensures SomeonesOwn(next, log[k].removed.value)
    {
      if k < |earlier| {
        assert log[k] == log[..|earlier|][k];
        var j :| 0 <= j < |vs| && Mine(vs[j], earlier[k].removed.value);
        assert Mine(next[j], log[k].removed.value);
      } else {
        assert Mine(next[i], log[k].removed.value);
      }
    }
  }

  lemma MovedRemoves(v: View, c: Scene, e: Scene, linked: bool)
    requires FieldsFit(v) && Moved(v, c, e, linked)
    ensures Extends(c.log, e.log) && RemovesAs(v, e.log, |c.log|)
  {
    hide Handled;
    hide LostOnly;
    forall k | |c.log| <= k < |e.log|
      ensures e.log[k].Own? && (e.log[k].removed.Some? ==> Mine(v, e.log[k].removed.value))
    {
      assert Move(v, c.d, e.log[k], c.process, linked);
    }
  }

  lemma MovedIsStep(v: View, c: Scene, e: Scene, linked: bool)
    requires Moved(v, c, e, linked) && SeenAll(v, c.d, e.log, |c.log|, linked)
    ensures Step(v, c, e, linked)
  {
    hide Seen;
    hide LostOnly;
    hide NewNames;
    forall k | |c.log| <= k < |e.log| ensures StepEntry(v, c, e.log[k], linked) {
      assert Move(v, c.d, e.log[k], c.process, linked);
    }
  }

  lemma GoodAfterStep(o: Origin, vs: seq<View>, i: nat, u: View, c: Scene, e: Scene, hostile: bool, phase: Phase)
    requires i < |vs| && Good(o, vs, c, hostile, phase)
    requires FieldsFit(u) && HandlesOpen(u, e.d.objects) && e.d.objects == c.d.objects
    requires u.original == vs[i].original && u.made == vs[i].made
    requires Moved(vs[i], c, e, phase.Undoable?)
    requires hostile || (Kept(vs[i], u, c.d, e.d) && SeenAll(vs[i], c.d, e.log, |c.log|, phase.Undoable?))
    requires hostile || (if phase.Undoable? then Revocable(u) else InPlace(u))
    ensures Good(o, vs[i := u], e, hostile, phase)
  {
    MovedRemoves(vs[i], c, e, phase.Undoable?);
    hide Fine;
    hide OnlyOwnRemoved;
    hide AllMadeHere;
    hide FieldsFit;
    hide HandlesOpen;
    hide Moved;
    hide Extends;
    hide Kept;
    hide SeenAll;
    OwnAfterStep(vs, i, u, c.log, e.log, |o.past|);
    AllMadeStay(vs, c.log, e.log, |o.past|);
    SameMade(vs, i, u, e.log, |o.past|);
    ExtendsAgain(o.past, c.log, e.log);
    if !hostile {
      MovedIsStep(vs[i], c, e, phase.Undoable?);
      Advance(o, vs, i, u, c, e, phase);
    }
  }

  lemma SameMade(vs: seq<View>, i: nat, u: View, log: seq<Entry>, from: nat)
    requires i < |vs| && AllMadeHere(vs, log, from) && (u.made == vs[i].made || MadeHere(u.made, log, from))
    ensures AllMadeHere(vs[i := u], log, from)
  {
    hide MadeHere;
  }

  lemma InOrderWhenGood(o: Origin, vs: seq<View>, i: nat, c: Scene, phase: Phase)
    requires i < |vs| && Good(o, vs, c, false, phase)
    ensures InOrder(vs[i], c.d)
  {
    hide InOrder;
    assert Rooted(vs[i], o.start, c.d);
  }

  lemma GrownIsStep(v: View, c: Scene, e: Scene)
    requires InOrder(v, c.d) && v.holds == map[] && Extends(c.log, e.log) && e.process == c.process
    requires AllGrown(c.d, e.log, |c.log|, v.slot, c.process) && Grown(c.d, e.d, v.slot, c.process)
    ensures Step(v, c, e, true)
  {
    hide Seen;
    hide InOrder;
    hide NewNames;
    forall k | |c.log| <= k < |e.log| ensures StepEntry(v, c, e.log[k], true) {
      GrowthIsSeen(v, c.d, e.log[k].disk, c.process);
    }
  }

  lemma GrownRemovesNothing(v: View, c: Scene, e: Scene)
    requires AllGrown(c.d, e.log, |c.log|, v.slot, c.process)
    ensures RemovesAs(v, e.log, |c.log|)
  {
  }

  lemma GoodAfterStaging(o: Origin, vs: seq<View>, i: nat, u: View, c: Scene, e: Scene, ok: bool, hostile: bool)
    requires i < |vs| && Good(o, vs, c, hostile, Undoable) && Unstaged(vs[i]) && WellFormed(c.d)
    requires StageEffect(vs[i], u, c.d, e.d, ok) && Extends(c.log, e.log) && e.process == c.process
    requires AllGrown(c.d, e.log, |c.log|, vs[i].slot, c.process) && Grown(c.d, e.d, vs[i].slot, c.process)
    requires u.made == vs[i].made || MadeHere(u.made, e.log, |c.log|)
    ensures Good(o, vs[i := u], e, hostile, Undoable)
    ensures if ok then StagedUp(u) && u.staged.Some? else u == vs[i] || StagedUp(u)
  {
    hide Fine;
    hide OnlyOwnRemoved;
    hide AllMadeHere;
    hide MadeHere;
    hide InOrder;
    hide Kept;
    hide AllGrown;
    hide Extends;
    hide Matches;
    GrownRemovesNothing(vs[i], c, e);
    OwnAfterStep(vs, i, u, c.log, e.log, |o.past|);
    AllMadeStay(vs, c.log, e.log, |o.past|);
    MadeSince(u.made, vs[i].made, o.past, c.log, e.log);
    SameMade(vs, i, u, e.log, |o.past|);
    ExtendsAgain(o.past, c.log, e.log);
    if !hostile {
      InOrderWhenGood(o, vs, i, c, Undoable);
      StagingKeepsOrder(vs[i], u, c.d, e.d, ok);
      GrownIsStep(vs[i], c, e);
      Advance(o, vs, i, u, c, e, Undoable);
    }
  }

  lemma MadeSince(made: Option<Inode>, before: Option<Inode>, past: seq<Entry>, mid: seq<Entry>, log: seq<Entry>)
    requires Extends(past, mid) && (made == before || MadeHere(made, log, |mid|))
    ensures made == before || MadeHere(made, log, |past|)
  {
  }
}
