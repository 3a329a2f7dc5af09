/** Directories, files and the facts the publisher reasons with, as values.

    A slot is a name in one directory; an inode is the object a slot is bound to. */
module PublishModel {
  import opened Wrappers

  type Inode = nat
  type Bytes = seq<nat>

  datatype Slot = Slot(directory: nat, name: string)

  datatype Access = Access(mode: nat, owner: nat, group: nat, flags: nat, extendedAcl: Bytes)

  datatype Object = Object(regular: bool, bytes: Bytes, access: Access)

  datatype Disk = Disk(slots: map<Slot, Inode>, objects: map<Inode, Object>)

  /** What was captured through an open descriptor: which object, its bytes and its access state. */
  datatype Seal = Seal(identity: Inode, access: Access, bytes: Bytes)

  predicate Matches(o: Object, seal: Seal) {
    o.regular && o.bytes == seal.bytes && o.access == seal.access
  }

  /** A file with exactly the source's bytes and the mode of a stage. */
  predicate IsNew(o: Object, source: Bytes) {
    o.regular && o.bytes == source && o.access.mode == STAGE_MODE
  }

  /** The slot is bound to the sealed object and the object is as it was sealed. */
  predicate At(d: Disk, s: Slot, seal: Seal) {
    s in d.slots && d.slots[s] == seal.identity && seal.identity in d.objects
    && Matches(d.objects[seal.identity], seal)
  }

  ghost predicate WellFormed(d: Disk) {
    forall s :: s in d.slots ==> d.slots[s] in d.objects
  }

  ghost predicate Linked(d: Disk, i: Inode) {
    exists s :: s in d.slots && d.slots[s] == i
  }

  // ------------------------------------------------------------------ what happened

  /** The volume after one change: of the publisher's own, with the seal its unlinked object was held
      to, if it unlinked one, or of another process. */
  datatype Entry = Own(disk: Disk, removed: Option<Seal>) | Foreign(disk: Disk)

  /** A step of the publisher takes the last name from no object but one that, at that moment, is as
      the step's seal says. */
  ghost predicate FairStep(log: seq<Entry>, k: nat)
    requires 0 < k < |log|
  {
    var before, e := log[k - 1].disk, log[k];
    e.Own? ==> forall i :: Linked(before, i) && !Linked(e.disk, i) ==>
      && e.removed.Some? && e.removed.value.identity == i
      && i in before.objects && Matches(before.objects[i], e.removed.value)
  }

  ghost predicate Fair(log: seq<Entry>) {
    forall k :: 0 < k < |log| ==> FairStep(log, k)
  }

  lemma StaysFair(log: seq<Entry>, e: Entry)
    requires log != [] && Fair(log) && FairStep(log + [e], |log|)
    ensures Fair(log + [e])
  {
    forall k | 0 < k < |log| ensures FairStep(log + [e], k) {
      assert FairStep(log, k);
    }
  }

  /** The volume, its history, and the name of the process that publishes. */
  datatype Scene = Scene(d: Disk, log: seq<Entry>, process: string)

  /** The mode a stage is given before it is sealed: 0644. */
  const STAGE_MODE: nat := 0x1A4

  // ------------------------------------------------------------------------ names

  function DecimalText(n: nat): string {
    if n < 10 then [('0' as int + n) as char] else DecimalText(n / 10) + [('0' as int + n % 10) as char]
  }

  const STAGE_MARK := ".diskplan-stage."
  const QUARANTINE_MARK := ".diskplan-quarantine."

  function Marked(s: Slot, mark: string, process: string, counter: nat): (r: Slot)
    requires mark != ""
    ensures r.directory == s.directory && |r.name| > |s.name|
  {
    Slot(s.directory, s.name + mark + process + "." + DecimalText(counter))
  }

  /** A name that a process uses for stages or in quarantine. */
  ghost predicate Temporary(s: Slot, process: string) {
    exists t: Slot, n: nat ::
      s == Marked(t, STAGE_MARK, process, n) || s == Marked(t, QUARANTINE_MARK, process, n)
  }

  // ------------------------------------------------- bindings a target answers for

  type Bindings = map<Slot, Inode>

  function Binding(m: Bindings, s: Slot): Option<Inode> {
    if s in m then Some(m[s]) else None
  }

  /** One target's step on the names: `holds` are the bindings it answers for before, `next` after.
      What it takes up was as in `was`, what it gives up is as in `was` again, and every other name
      keeps its binding. */
  ghost predicate Local(was: Bindings, before: Bindings, after: Bindings, holds: Bindings, next: Bindings) {
    && (forall s :: s !in holds && s !in next ==> Binding(before, s) == Binding(after, s))
    && (forall s :: s in next ==> Binding(after, s) == Some(next[s]))
    && (forall s :: s in holds && s !in next ==> Binding(after, s) == Binding(was, s))
    && (forall s :: s in next && s !in holds ==> Binding(before, s) == Binding(was, s))
  }

  lemma LocalIsTransitive(was: Bindings, a: Bindings, b: Bindings, c: Bindings,
                          holds: Bindings, mid: Bindings, next: Bindings)
    requires Local(was, a, b, holds, mid) && Local(was, b, c, mid, next)
    ensures Local(was, a, c, holds, next)
  {
  }

  // ----------------------------------------------------- a target's fields, as a value

  /** The open handle of a stage that is not sealed yet, with its identity once that is known. */
  datatype Provisional = Provisional(handle: Inode, identity: Option<Inode>)

  /** The last three parts exist only in the reasoning: what the destination held when the target
      was prepared, the file made for it, and the bindings the target answers for. */
  datatype View = View(
    slot: Slot,
    source: Bytes,
    stage: Option<Slot>,
    provisional: Option<Provisional>,
    staged: Option<Seal>,
    previous: Option<Seal>,
    published: bool,
    original: Option<Seal>,
    made: Option<Inode>,
    holds: Bindings,
    finished: bool)

  function Was(v: View): Bindings {
    if v.original.Some? then map[v.slot := v.original.value.identity] else map[]
  }

  /** The bindings of a target whose new object has taken the destination's name. */
  function PublishedHolds(v: View): Bindings
    requires v.made.Some? && v.stage.Some?
  {
    if v.original.Some? then map[v.slot := v.made.value, v.stage.value := v.original.value.identity]
    else map[v.slot := v.made.value]
  }

  /** The descriptors the target keeps open refer to existing objects. */
  ghost predicate HandlesOpen(v: View, objects: map<Inode, Object>) {
    && (v.staged.Some? ==> v.staged.value.identity in objects)
    && (v.previous.Some? ==> v.previous.value.identity in objects)
    && (v.original.Some? ==> v.original.value.identity in objects)
    && (v.provisional.Some? ==> v.provisional.value.handle in objects)
    && (v.made.Some? ==> v.made.value in objects)
  }

  /** The fields fit one another, whatever has happened to the directory. */
  predicate FieldsFit(v: View) {
    && (v.staged.Some? ==>
          && v.made == Some(v.staged.value.identity) && v.staged.value.bytes == v.source
          && v.staged.value.access.mode == STAGE_MODE && v.provisional.None?)
    && (v.provisional.Some? ==> v.made == Some(v.provisional.value.handle))
    && (v.provisional.Some? && v.provisional.value.identity.Some? ==> v.provisional.value.identity == v.made)
    && (v.stage.Some? ==> v.stage.value != v.slot && v.made.Some? && (v.staged.Some? || v.provisional.Some?))
    && (v.published ==> v.stage.Some? && v.staged.Some?)
    && (v.finished ==> v.stage.None? && v.made.Some?)
    && (if v.finished then v.previous.None? else v.previous == v.original)
    && (v.made.Some? && v.original.Some? ==> v.made.value != v.original.value.identity)
  }

  /** The target and the volume agree: no one else has touched what the target relies on. */
  ghost predicate InOrder(v: View, d: Disk) {
    && FieldsFit(v) && HandlesOpen(v, d.objects)
    && (forall s :: s in v.holds ==> Binding(d.slots, s) == Some(v.holds[s]))
    && (forall s :: s in v.holds ==>
          v.made == Some(v.holds[s]) || (v.original.Some? && v.holds[s] == v.original.value.identity))
    && (forall s :: s in v.holds ==> |s.name| >= |v.slot.name|)
    && (v.made.Some? ==> forall s :: s in d.slots && d.slots[s] == v.made.value ==> s in v.holds)
    && (v.original.Some? && v.slot !in v.holds ==> Binding(d.slots, v.slot) == Some(v.original.value.identity))
    && (v.original.Some? ==> Matches(d.objects[v.original.value.identity], v.original.value))
    && (v.staged.Some? ==> Matches(d.objects[v.staged.value.identity], v.staged.value))
    && (v.published || v.finished ==> IsNew(d.objects[v.made.value], v.source))
    && (v.made.Some? ==> d.objects[v.made.value].regular)
    && (v.slot in v.holds ==> v.made == Some(v.holds[v.slot]) && (v.published || v.finished))
  }

  // ------------------------------------------------------- the life of a target

  predicate Unstaged(v: View) {
    && v.stage.None? && v.made.None? && v.staged.None? && v.provisional.None?
    && !v.published && !v.finished && v.holds == map[]
  }

  /** The stage file lies beside the destination, sealed or not. */
  predicate StagedUp(v: View) {
    v.stage.Some? && v.made.Some? && !v.published && !v.finished && v.holds == map[v.stage.value := v.made.value]
  }

  /** The new object has the destination's name and the old one, if any, the stage's. */
  predicate Intact(v: View) {
    v.published && v.made.Some? && v.stage.Some? && v.holds == PublishedHolds(v)
  }

  /** A rollback gave the destination back but went no further. */
  predicate HalfRolledBack(v: View) {
    v.published && v.slot !in v.holds
  }

  /** A rollback that got stuck half way is one more failure, besides the one it answered. */
  function Stuck(v: View): nat {
    if HalfRolledBack(v) then 1 else 0
  }

  predicate Released(v: View) {
    v.stage.None? && v.staged.None? && v.provisional.None? && !v.published && !v.finished && v.holds == map[]
  }

  predicate Done(v: View) {
    v.finished && v.made.Some? && !v.published && v.holds == map[v.slot := v.made.value]
  }

  /** The new object is in the destination's place, whatever became of the old one. */
  predicate InPlace(v: View) {
    (v.published || v.finished) && v.made.Some? && v.slot in v.holds && v.holds[v.slot] == v.made.value
  }

  function Swapped(v: View): View
    requires v.made.Some? && v.stage.Some?
  {
    v.(published := true, holds := PublishedHolds(v))
  }

  function Restored(v: View): View
    requires v.made.Some? && v.stage.Some?
  {
    v.(holds := map[v.stage.value := v.made.value])
  }

  function Cleared(v: View): View {
    v.(stage := None, provisional := None, staged := None, published := false, holds := map[])
  }

  function Completed(v: View): View
    requires v.made.Some?
  {
    v.(stage := None, staged := None, previous := None, published := false, finished := true,
       holds := map[v.slot := v.made.value])
  }

  // ------------------------------------------------ what is seen on the way

  /** The new object is in the destination's place. */
  ghost predicate Published(v: View, d: Disk) {
    v.slot in d.slots && d.slots[v.slot] in d.objects && IsNew(d.objects[d.slots[v.slot]], v.source)
  }

  /** A destination that existed is bound to the complete old object or to a complete new one: never
      absent, never torn. One that did not exist is absent, or bound to a complete new object. */
  ghost predicate Whole(v: View, d: Disk) {
    || (if v.original.Some? then At(d, v.slot, v.original.value) else v.slot !in d.slots)
    || Published(v, d)
  }

  /** The old object still has a name. */
  ghost predicate OldLinked(v: View, d: Disk) {
    v.original.Some? ==> Linked(d, v.original.value.identity)
  }

  /** Every name but the target's own is as it was, and so is every file but the one it made. A name
      is the target's own while it answers for it, and the destination's when it existed. */
  ghost predicate OthersKept(v: View, before: Disk, after: Disk) {
    && (forall s :: s in before.slots && s !in v.holds && s !in Was(v) ==>
          s in after.slots && after.slots[s] == before.slots[s])
    && (forall i :: i in before.objects && v.made != Some(i) ==>
          i in after.objects && after.objects[i] == before.objects[i])
  }

  /** A state the volume passes through while one target's operation runs. Until the old objects are
      given up they have names; from then on the new object is in its place. */
  ghost predicate Seen(v: View, before: Disk, d: Disk, linked: bool) {
    && OthersKept(v, before, d) && (Whole(v, before) ==> Whole(v, d))
    && if linked then OldLinked(v, d) else Published(v, d)
  }

  ghost predicate SeenAll(v: View, before: Disk, log: seq<Entry>, from: nat, linked: bool) {
    forall k :: from <= k < |log| ==> Seen(v, before, log[k].disk, linked)
  }

  /** One target's step: no existing file changes, at most one is made, and the names move only as
      far as the target answers for them. */
  ghost predicate Kept(v: View, u: View, before: Disk, after: Disk) {
    && u.slot == v.slot && u.source == v.source && u.original == v.original
    && (u.made == v.made || (v.made.None? && u.made.Some? && u.made.value !in before.objects))
    && (forall i :: i in before.objects ==> i in after.objects && after.objects[i] == before.objects[i])
    && InOrder(u, after) && Local(Was(v), before.slots, after.slots, v.holds, u.holds)
  }

  // -------------------------------------- one target's operation, whoever else is at work

  predicate OwnName(v: View, s: Slot) {
    s == v.slot || v.stage == Some(s)
  }

  /** Names that appear are the destination's or temporary ones. */
  ghost predicate NewNames(before: Bindings, after: Bindings, slot: Slot, process: string) {
    forall s :: s in after && s !in before && s != slot ==> Temporary(s, process)
  }

  /** The target's own two names have the objects the two had before, or none; so do names that
      appear. All other names are left alone. */
  ghost predicate Handled(v: View, before: Bindings, after: Bindings, process: string) {
    && (forall s :: s in before && !OwnName(v, s) ==> s in after && after[s] == before[s])
    && (forall s :: s in after && (OwnName(v, s) || s !in before) ==>
          exists t :: t in before && OwnName(v, t) && before[t] == after[s])
    && NewNames(before, after, v.slot, process)
  }

  /** What a target may unlink: as long as the old object is needed the new file only, held to the
      seal of the stage or to one taken through the handle that created it; then the old one only. */
  predicate Held(v: View, seal: Seal, linked: bool) {
    if linked then v.staged == Some(seal) || (v.provisional.Some? && v.provisional.value.handle == seal.identity)
    else v.previous == Some(seal)
  }

  ghost predicate LostOnly(v: View, before: Disk, after: Disk, linked: bool) {
    forall i :: Linked(before, i) && !Linked(after, i) ==> exists seal: Seal ::
      Held(v, seal, linked) && seal.identity == i && i in before.objects && Matches(before.objects[i], seal)
  }

  ghost predicate Move(v: View, before: Disk, e: Entry, process: string, linked: bool) {
    && e.Own? && (e.removed.Some? ==> Held(v, e.removed.value, linked))
    && Handled(v, before.slots, e.disk.slots, process)
  }

  ghost predicate Extends(before: seq<Entry>, after: seq<Entry>) {
    |before| <= |after| && after[..|before|] == before
  }

  /** What an operation does to the names, even in a directory that someone else has altered. */
  ghost predicate Moved(v: View, c: Scene, e: Scene, linked: bool) {
    && Extends(c.log, e.log) && e.process == c.process
    && (forall k :: |c.log| <= k < |e.log| ==> Move(v, c.d, e.log[k], c.process, linked))
    && Handled(v, c.d.slots, e.d.slots, c.process) && LostOnly(v, c.d, e.d, linked)
  }

  /** The file appeared in a step of the publisher's own. */
  ghost predicate MadeHere(made: Option<Inode>, log: seq<Entry>, from: nat) {
    made.Some? ==> exists k :: 0 < k && from <= k < |log| && AppearsAt(made.value, log, k)
  }

  ghost predicate AppearsAt(i: Inode, log: seq<Entry>, k: nat)
    requires 0 < k < |log|
  {
    log[k].Own? && i !in log[k - 1].disk.objects && i in log[k].disk.objects
  }
}
