/** The renames and removals of one target, as steps on values. */
module PublishSteps {
  import opened Wrappers
  import opened PublishModel

  // ------------------------------------------------------------------------ staging

  /** Temporary names, not the destination's, and files were added; none was changed or removed. */
  ghost predicate Grown(before: Disk, after: Disk, slot: Slot, process: string) {
    && (forall s :: s in before.slots ==> s in after.slots && after.slots[s] == before.slots[s])
    && (forall i :: i in before.objects ==> i in after.objects && after.objects[i] == before.objects[i])
    && NewNames(before.slots, after.slots, slot, process) && (slot in after.slots ==> slot in before.slots)
  }

  ghost predicate AllGrown(before: Disk, log: seq<Entry>, from: nat, slot: Slot, process: string) {
    forall k :: from <= k < |log| ==> log[k].Own? && log[k].removed.None? && Grown(before, log[k].disk, slot, process)
  }

  /** Staging does nothing, or it makes one new file under one new name. When it succeeds the file
      is sealed and holds the source's bytes. */
  ghost predicate StageEffect(v: View, u: View, before: Disk, after: Disk, ok: bool) {
    if u.stage.None? then !ok && u == v && after == before
    else
      && u.made.Some? && u == v.(stage := u.stage, provisional := u.provisional, staged := u.staged,
                                 made := u.made, holds := map[u.stage.value := u.made.value])
      && u.stage.value !in before.slots && |u.stage.value.name| > |v.slot.name| && u.made.value !in before.objects
      && after.slots == before.slots[u.stage.value := u.made.value]
      && (forall i :: i in before.objects ==> i in after.objects && after.objects[i] == before.objects[i])
      && u.made.value in after.objects && after.objects[u.made.value].regular
      && (if ok
          then u.provisional.None? && u.staged.Some? && u.staged.value.identity == u.made.value
               && u.staged.value.bytes == u.source && u.staged.value.access.mode == STAGE_MODE
               && Matches(after.objects[u.made.value], u.staged.value)
          else u.staged.None? && u.provisional.Some? && u.provisional.value.handle == u.made.value
               && (u.provisional.value.identity.Some? ==> u.provisional.value.identity == u.made))
  }

  lemma StagingKeepsOrder(v: View, u: View, before: Disk, after: Disk, ok: bool)
    requires InOrder(v, before) && Unstaged(v) && WellFormed(before) && StageEffect(v, u, before, after, ok)
    ensures Kept(v, u, before, after) && (u == v || StagedUp(u))
  {
  }

  lemma GrowthIsSeen(v: View, before: Disk, d: Disk, process: string)
    requires InOrder(v, before) && v.holds == map[] && Grown(before, d, v.slot, process)
    ensures Seen(v, before, d, true)
  {
    assert v.original.Some? ==> d.slots[v.slot] == v.original.value.identity;
  }

  // --------------------------------------------------------------------- publishing

  function Exchanged(m: Bindings, a: Slot, b: Slot): Bindings
    requires a in m && b in m
  {
    m[a := m[b]][b := m[a]]
  }

  function MovedTo(m: Bindings, a: Slot, b: Slot): Bindings
    requires a in m
  {
    (m - {a})[b := m[a]]
  }

  lemma StageIsSealed(v: View, d: Disk)
    requires InOrder(v, d) && StagedUp(v) && v.staged.Some?
    ensures At(d, v.stage.value, v.staged.value)
    ensures v.previous.Some? ==> At(d, v.slot, v.previous.value)
  {
    assert v.stage.value in v.holds;
  }

  lemma PublishedIsSealed(v: View, d: Disk)
    requires InOrder(v, d) && Intact(v)
    ensures At(d, v.slot, v.staged.value) && IsNew(d.objects[v.made.value], v.source)
    ensures v.previous.Some? ==> At(d, v.stage.value, v.previous.value)
  {
    assert v.slot in v.holds;
    assert v.original.Some? ==> v.stage.value in v.holds;
  }

  /** A destination that was given back no longer passes for the published file. */
  lemma RestoredIsNotPublished(v: View, d: Disk)
    requires InOrder(v, d) && HalfRolledBack(v)
    ensures !At(d, v.slot, v.staged.value)
  {
  }

  /** The one atomic step, on values. */
  ghost predicate TakesPlace(v: View, before: Disk, after: Disk) {
    && v.stage.Some? && v.stage.value in before.slots && (v.slot in before.slots <==> v.original.Some?)
    && after.objects == before.objects
    && after.slots == if v.original.Some? then Exchanged(before.slots, v.stage.value, v.slot)
                      else MovedTo(before.slots, v.stage.value, v.slot)
  }

  lemma PublishIsSeen(v: View, before: Disk, after: Disk)
    requires InOrder(v, before) && StagedUp(v) && v.staged.Some? && TakesPlace(v, before, after)
    ensures Seen(v, before, after, true)
  {
    assert v.stage.value in v.holds;
    assert v.original.Some? ==> after.slots[v.stage.value] == v.original.value.identity;
  }

  lemma PublishKeepsOrder(v: View, before: Disk, after: Disk)
    requires InOrder(v, before) && StagedUp(v) && v.staged.Some? && TakesPlace(v, before, after)
    ensures Kept(v, Swapped(v), before, after) && Seen(v, before, after, true)
  {
    hide Seen;
    PublishIsSeen(v, before, after);
    assert v.stage.value in v.holds;
  }

  // -------------------------------------------------------------------- rolling back

  lemma RestoreKeepsOrder(v: View, before: Disk, after: Disk)
    requires InOrder(v, before) && Intact(v) && v.original.Some? && after.objects == before.objects
    requires v.stage.value in before.slots && v.slot in before.slots
    requires after.slots == Exchanged(before.slots, v.stage.value, v.slot)
    ensures Kept(v, Restored(v), before, after) && Seen(v, before, after, true)
    ensures At(after, v.slot, v.previous.value) && At(after, v.stage.value, v.staged.value)
  {
    assert v.slot in v.holds && v.stage.value in v.holds;
    assert after.slots[v.slot] == v.original.value.identity;
  }

  // ---------------------------------------------------------- quarantine and delete

  /** Where a sealed slot's object can be after an attempt to delete the slot. */
  datatype Quarantined = Untouched | Parked(at: Slot) | Deleted

  function TakenFrom(m: Bindings, s: Slot, q: Quarantined): Bindings
    requires s in m
  {
    match q
    case Untouched => m
    case Parked(at) => MovedTo(m, s, at)
    case Deleted => m - {s}
  }

  ghost predicate QuarantineStep(before: Disk, after: Disk, s: Slot, q: Quarantined, process: string) {
    && after.objects == before.objects
    && (q.Untouched? ==> after.slots == before.slots)
    && (!q.Untouched? ==> s in before.slots && after.slots == TakenFrom(before.slots, s, q))
    && (q.Parked? ==> q.at !in before.slots && |q.at.name| > |s.name| && Temporary(q.at, process))
  }

  /** A name the target may give up: the stage's, or that of a destination that did not exist. The old
      object has its name back by then, or the new one has the destination's for good. */
  ghost predicate MayTake(v: View, before: Disk, s: Slot, linked: bool) {
    && InOrder(v, before) && s in v.holds && s in before.slots && (s == v.slot ==> v.original.None?)
    && if linked then v.original.Some? ==> v.slot !in v.holds else InPlace(v) && s != v.slot
  }

  lemma TakingIsLocal(v: View, before: Disk, after: Disk, s: Slot, q: Quarantined, process: string, linked: bool)
    requires MayTake(v, before, s, linked) && QuarantineStep(before, after, s, q, process)
    ensures Local(Was(v), before.slots, after.slots, v.holds, TakenFrom(v.holds, s, q))
  {
    hide HandlesOpen;
    hide FieldsFit;
    hide Matches;
  }

  lemma HoldsDoNotMatter(v: View, holds: Bindings, objects: map<Inode, Object>)
    ensures FieldsFit(v.(holds := holds)) == FieldsFit(v)
    ensures HandlesOpen(v.(holds := holds), objects) == HandlesOpen(v, objects)
  {
  }

  lemma TakingIsInOrder(v: View, before: Disk, after: Disk, s: Slot, q: Quarantined, process: string, linked: bool)
    requires MayTake(v, before, s, linked) && QuarantineStep(before, after, s, q, process)
    ensures InOrder(v.(holds := TakenFrom(v.holds, s, q)), after)
  {
    hide Matches;
    hide IsNew;
    hide FieldsFit;
    hide HandlesOpen;
    hide Temporary;
    HoldsDoNotMatter(v, TakenFrom(v.holds, s, q), after.objects);
  }

  lemma TakingKeepsOrder(v: View, before: Disk, after: Disk, s: Slot, q: Quarantined, process: string, linked: bool)
    requires MayTake(v, before, s, linked) && QuarantineStep(before, after, s, q, process)
    ensures Kept(v, v.(holds := TakenFrom(v.holds, s, q)), before, after)
  {
    hide Local;
    hide InOrder;
    TakingIsLocal(v, before, after, s, q, process, linked);
    TakingIsInOrder(v, before, after, s, q, process, linked);
  }

  lemma TakingIsSeen(v: View, before: Disk, after: Disk, s: Slot, q: Quarantined, process: string, linked: bool)
    requires MayTake(v, before, s, linked) && QuarantineStep(before, after, s, q, process)
    ensures Seen(v, before, after, linked)
  {
  }

  /** An entry of the log while one name is being taken. */
  ghost predicate Taking(before: Disk, e: Entry, s: Slot, seal: Seal, process: string) {
    && e.Own? && (e.removed.None? || e.removed == Some(seal))
    && exists q: Quarantined :: QuarantineStep(before, e.disk, s, q, process)
  }

  ghost predicate AllTaking(before: Disk, log: seq<Entry>, from: nat, s: Slot, seal: Seal, process: string) {
    forall k :: from <= k < |log| ==> Taking(before, log[k], s, seal, process)
  }

  // --------------------------------------------------------------------- composition

  lemma KeptAgain(v: View, w: View, u: View, before: Disk, mid: Disk, after: Disk)
    requires Kept(v, w, before, mid) && Kept(w, u, mid, after)
    ensures Kept(v, u, before, after)
  {
    LocalIsTransitive(Was(v), before.slots, mid.slots, after.slots, v.holds, w.holds, u.holds);
  }

  lemma NothingKept(v: View, d: Disk)
    requires InOrder(v, d)
    ensures Kept(v, v, d, d)
  {
  }

  lemma WholeLater(v: View, w: View, before: Disk, mid: Disk)
    requires Kept(v, w, before, mid) && Whole(v, before)
    ensures Whole(w, mid)
  {
    if w.slot in w.holds || w.original.Some? {
    } else if w.slot in v.holds {
      assert Binding(mid.slots, w.slot) == Binding(Was(v), w.slot) == None;
    } else {
      assert Binding(mid.slots, w.slot) == Binding(before.slots, w.slot);
    }
  }

  lemma SeenLater(v: View, w: View, before: Disk, mid: Disk, d: Disk, linked: bool)
    requires Kept(v, w, before, mid) && Seen(w, mid, d, linked)
    ensures Seen(v, before, d, linked)
  {
    forall s | s in before.slots && s !in v.holds && s !in Was(v)
      ensures s in d.slots && d.slots[s] == before.slots[s]
    {
      assert Binding(Was(v), s) == None;
    }
    if Whole(v, before) { WholeLater(v, w, before, mid); }
    assert Whole(w, d) == Whole(v, d) && Published(w, d) == Published(v, d);
  }

  lemma ClearedIsKept(v: View, w: View, before: Disk, after: Disk)
    requires Kept(v, w, before, after) && w.holds == map[] && !w.finished
    ensures Kept(v, Cleared(w), before, after)
  {
  }

  lemma CompletedIsKept(v: View, w: View, before: Disk, after: Disk)
    requires Kept(v, w, before, after) && w.published && w.holds == map[w.slot := w.made.value]
    ensures Kept(v, Completed(w), before, after)
  {
  }

  // ---------------------------------------------------------------- the volume's log

  lemma ExtendsItself(log: seq<Entry>)
    ensures Extends(log, log)
  {
  }

  lemma ExtendsAgain(a: seq<Entry>, b: seq<Entry>, c: seq<Entry>)
    requires Extends(a, b) && Extends(b, c)
    ensures Extends(a, c)
  {
    assert c[..|a|] == c[..|b|][..|a|];
  }

  lemma MadeStays(made: Option<Inode>, log: seq<Entry>, longer: seq<Entry>, from: nat)
    requires MadeHere(made, log, from) && Extends(log, longer)
    ensures MadeHere(made, longer, from)
  {
    if made.Some? {
      var k :| 0 < k && from <= k < |log| && AppearsAt(made.value, log, k);
      assert log[k] == longer[..|log|][k] && log[k - 1] == longer[..|log|][k - 1];
      assert AppearsAt(made.value, longer, k);
    }
  }

  lemma NothingSeen(v: View, before: Disk, log: seq<Entry>, linked: bool)
    ensures SeenAll(v, before, log, |log|, linked) && Extends(log, log)
  {
  }

  lemma OneMoreSeen(v: View, before: Disk, start: seq<Entry>, log: seq<Entry>, e: Entry, linked: bool)
    requires Extends(start, log) && SeenAll(v, before, log, |start|, linked) && Seen(v, before, e.disk, linked)
    ensures Extends(start, log + [e]) && SeenAll(v, before, log + [e], |start|, linked)
  {
  }

  /** What an operation saw after `mid`, its caller saw from `before` on. */
  lemma MoreSeen(v: View, w: View, before: Disk, mid: Disk,
                 start: seq<Entry>, midLog: seq<Entry>, log: seq<Entry>, linked: bool)
    requires Extends(start, midLog) && SeenAll(v, before, midLog, |start|, linked)
    requires Extends(midLog, log) && SeenAll(w, mid, log, |midLog|, linked) && Kept(v, w, before, mid)
    ensures Extends(start, log) && SeenAll(v, before, log, |start|, linked)
  {
    hide Kept;
    hide Seen;
    ExtendsAgain(start, midLog, log);
    forall k | |start| <= k < |log| ensures Seen(v, before, log[k].disk, linked) {
      if k < |midLog| {
        assert log[k] == log[..|midLog|][k];
      } else {
        SeenLater(v, w, before, mid, log[k].disk, linked);
      }
    }
  }

  // --------------------------------------------------------- what becomes of the names

  lemma NothingMoved(v: View, c: Scene, linked: bool)
    ensures Moved(v, c, c, linked)
  {
    ExtendsItself(c.log);
  }

  lemma HandledAgain(v: View, w: View, a: Bindings, b: Bindings, c: Bindings, process: string)
    requires Handled(v, a, b, process) && Handled(w, b, c, process) && w.slot == v.slot && w.stage == v.stage
    ensures Handled(v, a, c, process)
  {
    forall s | s in c && (OwnName(v, s) || s !in a) ensures exists t :: t in a && OwnName(v, t) && a[t] == c[s] {
      if OwnName(w, s) || s !in b {
        var t :| t in b && OwnName(w, t) && b[t] == c[s];
        assert OwnName(v, t);
      } else {
        assert c[s] == b[s];
      }
    }
  }

  /** Two parts of one operation: the target keeps its names and its seals in between. */
  lemma MovedAgain(v: View, w: View, a: Scene, b: Scene, c: Scene, linked: bool)
    requires Moved(v, a, b, linked) && Moved(w, b, c, linked) && a.d.objects == b.d.objects
    requires w == v.(published := w.published, holds := w.holds)
    ensures Moved(v, a, c, linked)
  {
    ExtendsAgain(a.log, b.log, c.log);
    HandledAgain(v, w, a.d.slots, b.d.slots, c.d.slots, a.process);
    hide Handled;
    forall k | |a.log| <= k < |c.log| ensures Move(v, a.d, c.log[k], a.process, linked) {
      if k < |b.log| {
        assert c.log[k] == c.log[..|b.log|][k];
      } else {
        HandledAgain(v, w, a.d.slots, b.d.slots, c.log[k].disk.slots, a.process);
      }
    }
    hide Linked;
    hide Held;
    forall i | Linked(a.d, i) && !Linked(c.d, i)
      ensures exists seal: Seal ::
        Held(v, seal, linked) && seal.identity == i && i in a.d.objects && Matches(a.d.objects[i], seal)
    {
      if Linked(b.d, i) {
        var seal: Seal :|
          Held(w, seal, linked) && seal.identity == i && i in b.d.objects && Matches(b.d.objects[i], seal);
        HeldStays(v, w, seal, linked);
      }
    }
  }

  lemma HeldStays(v: View, w: View, seal: Seal, linked: bool)
    requires w == v.(published := w.published, holds := w.holds)
    ensures Held(w, seal, linked) == Held(v, seal, linked)
  {
  }

  /** Both names are the target's own, so they may exchange their objects, and one may move to the
      other. */
  lemma ExchangeIsMoved(v: View, c: Scene, e: Scene, linked: bool)
    requires v.stage.Some? && v.stage.value in c.d.slots && e.log == c.log + [Own(e.d, None)] && e.process == c.process
    requires e.d.slots == if v.slot in c.d.slots then Exchanged(c.d.slots, v.stage.value, v.slot)
                          else MovedTo(c.d.slots, v.stage.value, v.slot)
    ensures Moved(v, c, e, linked)
  {
    var a, b := v.stage.value, v.slot;
    assert Handled(v, c.d.slots, e.d.slots, c.process) by {
      assert OwnName(v, a) && OwnName(v, b);
    }
    forall i | Linked(c.d, i) ensures Linked(e.d, i) {
      var x :| x in c.d.slots && c.d.slots[x] == i;
      assert e.d.slots[if x == a then b else if x == b then a else x] == i;
    }
  }

  lemma TakingIsHandled(v: View, before: Disk, after: Disk, s: Slot, q: Quarantined, process: string)
    requires OwnName(v, s) && QuarantineStep(before, after, s, q, process)
    ensures Handled(v, before.slots, after.slots, process)
  {
    hide Temporary;
  }

  lemma TakingIsMoved(v: View, c: Scene, e: Scene, s: Slot, seal: Seal, q: Quarantined, linked: bool)
    requires OwnName(v, s) && Held(v, seal, linked) && e.process == c.process
    requires Extends(c.log, e.log) && AllTaking(c.d, e.log, |c.log|, s, seal, c.process)
    requires QuarantineStep(c.d, e.d, s, q, c.process) && (q.Deleted? ==> At(c.d, s, seal))
    ensures Moved(v, c, e, linked)
  {
    hide Handled;
    hide OwnName;
    hide Held;
    TakingIsHandled(v, c.d, e.d, s, q, c.process);
    forall k | |c.log| <= k < |e.log| ensures Move(v, c.d, e.log[k], c.process, linked) {
      var p: Quarantined :| QuarantineStep(c.d, e.log[k].disk, s, p, c.process);
      TakingIsHandled(v, c.d, e.log[k].disk, s, p, c.process);
    }
    forall i | Linked(c.d, i) && !Linked(e.d, i)
      ensures exists x: Seal :: Held(v, x, linked) && x.identity == i && i in c.d.objects && Matches(c.d.objects[i], x)
    {
      TakingLosesOne(c.d, e.d, s, q, i, c.process);
      assert Held(v, seal, linked) && seal.identity == i;
    }
  }

  lemma TakingLosesOne(before: Disk, after: Disk, s: Slot, q: Quarantined, i: Inode, process: string)
    requires QuarantineStep(before, after, s, q, process) && Linked(before, i)
    ensures Linked(after, i) || (q.Deleted? && before.slots[s] == i)
  {
    var x :| x in before.slots && before.slots[x] == i;
    if q.Untouched? || x != s {
      assert x in after.slots ==> after.slots[x] == i;
    } else if q.Parked? {
      assert after.slots[q.at] == i;
    }
  }
}
