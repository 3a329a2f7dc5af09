/** The whole command: prepare, stage, publish and finish every target, or give everything back. */
module PublishRun {
  import opened PublishModel
  import opened PublishSteps
  import opened PublishVolume
  import opened PublishTarget
  import opened PublishInvariant

  ghost function Views(ts: seq<Target>): (vs: seq<View>)
    reads ts
  {
    seq(|ts|, i requires 0 <= i < |ts| reads ts => ts[i].Value())
  }

  predicate Distinct(ts: seq<Target>) {
    forall i, j :: 0 <= i < j < |ts| ==> ts[i] != ts[j]
  }

  ghost predicate Sane(o: Origin, ts: seq<Target>, vol: Volume, phase: Phase)
    reads ts, vol
  {
    Distinct(ts) && vol.Valid() && Good(o, Views(ts), SceneOf(vol), vol.hostile, phase)
  }

  twostate predicate Later(vol: Volume)
    reads vol
  {
    vol.faults >= old(vol.faults) && vol.clashes >= old(vol.clashes)
  }

  /** How many calls have failed, or found a name taken that had to be free. */
  twostate function Failures(vol: Volume): int
    reads vol
  {
    vol.faults + vol.clashes - old(vol.faults) - old(vol.clashes)
  }

  /** Every call succeeded. */
  twostate predicate Flawless(vol: Volume)
    reads vol
  {
    vol.faults == old(vol.faults) && vol.clashes == old(vol.clashes)
  }

  twostate predicate Worse(vol: Volume)
    reads vol
  {
    vol.faults + vol.clashes > old(vol.faults) + old(vol.clashes)
  }

  // ---------------------------------------------------- one target among the others

  /** Another process may act before the operation starts. */
  method Await(ts: seq<Target>, vol: Volume, ghost o: Origin, ghost phase: Phase)
    requires Sane(o, ts, vol, phase)
    modifies vol`slots, vol`objects, vol`log
    ensures Sane(o, ts, vol, phase) && Extends(old(vol.log), vol.log)
    ensures forall i :: 0 <= i < |ts| ==> ts[i].Usable(vol)
    ensures !vol.hostile ==>
      && SceneOf(vol) == old(SceneOf(vol))
      && forall i :: 0 <= i < |ts| ==> InOrder(ts[i].Value(), vol.State())
  {
    hide InOrder;
    hide Fine;
    hide Extends;
    hide AllMadeHere;
    hide OnlyOwnRemoved;
    ghost var before := SceneOf(vol);
    vol.Interfere();
    assert Extends(before.log, vol.log) by { InterferenceExtends(before.log, vol.log, vol.State()); }
    GoodAfterInterference(o, Views(ts), before, SceneOf(vol), vol.hostile, phase);
    forall i | 0 <= i < |ts| ensures ts[i].Usable(vol) && (!vol.hostile ==> InOrder(ts[i].Value(), vol.State())) {
      assert Views(ts)[i] == ts[i].Value();
      if !vol.hostile { InOrderWhenGood(o, Views(ts), i, SceneOf(vol), phase); }
    }
  }

  lemma InterferenceExtends(log: seq<Entry>, after: seq<Entry>, d: Disk)
    requires after == log || after == log + [Foreign(d)]
    ensures Extends(log, after)
  {
  }

  method StageAt(ts: seq<Target>, i: nat, vol: Volume, ghost o: Origin) returns (ok: bool)
    requires i < |ts| && Sane(o, ts, vol, Undoable) && Unstaged(ts[i].Value())
    modifies ts[i], vol
    ensures Sane(o, ts, vol, Undoable) && Later(vol) && if ok then Flawless(vol) else Worse(vol)
    ensures if ok then StagedUp(ts[i].Value()) && ts[i].staged.Some?
            else Unstaged(ts[i].Value()) || StagedUp(ts[i].Value())
  {
    hide Good;
    hide AllGrown;
    hide Grown;
    hide MadeHere;
    hide StageEffect;
    hide InOrder;
    Await(ts, vol, o, Undoable);
    ghost var vs, c := Views(ts), SceneOf(vol);
    assert WellFormed(c.d);
    hide Volume.Valid;
    ok := ts[i].Stage(vol);
    assert Views(ts) == vs[i := ts[i].Value()];
    GoodAfterStaging(o, vs, i, ts[i].Value(), c, SceneOf(vol), ok, vol.hostile);
  }

  method PublishAt(ts: seq<Target>, i: nat, vol: Volume, ghost o: Origin) returns (ok: bool)
    requires i < |ts| && Sane(o, ts, vol, Undoable)
    requires vol.hostile || (StagedUp(ts[i].Value()) && ts[i].staged.Some?)
    modifies ts[i], vol
    ensures Sane(o, ts, vol, Undoable) && Later(vol) && (ok ==> Flawless(vol))
    ensures ok ==> Published(ts[i].Value(), vol.State())
    ensures vol.hostile || (if ok then Intact(ts[i].Value())
                            else Failures(vol) > Stuck(ts[i].Value())
                                 && (StagedUp(ts[i].Value()) || Intact(ts[i].Value())
                                     || Released(ts[i].Value()) || HalfRolledBack(ts[i].Value())))
  {
    hide Good;
    hide InOrder;
    hide Moved;
    hide Kept;
    hide SeenAll;
    hide Extends;
    hide Volume.Valid;
    Await(ts, vol, o, Undoable);
    ghost var vs, c := Views(ts), SceneOf(vol);
    ok := ts[i].Publish(vol);
    assert Views(ts) == vs[i := ts[i].Value()];
    GoodAfterStep(o, vs, i, ts[i].Value(), c, SceneOf(vol), vol.hostile, Undoable);
  }

  method RollbackAt(ts: seq<Target>, i: nat, vol: Volume, ghost o: Origin) returns (ok: bool)
    requires i < |ts| && Sane(o, ts, vol, Undoable)
    requires vol.hostile || Intact(ts[i].Value()) || HalfRolledBack(ts[i].Value())
    modifies ts[i], vol
    ensures Sane(o, ts, vol, Undoable) && Later(vol) && (ok ==> Flawless(vol))
    ensures vol.hostile || (if ok then Released(ts[i].Value())
                            else ts[i].Value() == old(ts[i].Value()) || HalfRolledBack(ts[i].Value()))
    ensures vol.hostile || ok || old(HalfRolledBack(ts[i].Value())) || Worse(vol)
  {
    hide Good;
    hide InOrder;
    hide Moved;
    hide Kept;
    hide SeenAll;
    hide Extends;
    hide Volume.Valid;
    Await(ts, vol, o, Undoable);
    ghost var vs, c := Views(ts), SceneOf(vol);
    ok := ts[i].Rollback(vol);
    assert Views(ts) == vs[i := ts[i].Value()];
    GoodAfterStep(o, vs, i, ts[i].Value(), c, SceneOf(vol), vol.hostile, Undoable);
  }

  method DiscardAt(ts: seq<Target>, i: nat, vol: Volume, ghost o: Origin) returns (ok: bool)
    requires i < |ts| && Sane(o, ts, vol, Undoable)
    requires vol.hostile || Revocable(ts[i].Value())
    requires vol.hostile || ts[i].published || ts[i].stageName.None? || StagedUp(ts[i].Value())
    modifies ts[i], vol
    ensures Sane(o, ts, vol, Undoable) && Later(vol) && (ok ==> Flawless(vol))
    ensures vol.hostile || (if old(StagedUp(ts[i].Value())) then ok ==> Released(ts[i].Value())
                            else ts[i].Value() == old(ts[i].Value()))
    ensures vol.hostile || ok || Worse(vol)
    ensures vol.hostile || old(ts[i].published || ts[i].finished) || (!ts[i].published && !ts[i].finished)
  {
    hide Good;
    hide InOrder;
    hide Moved;
    hide Kept;
    hide SeenAll;
    hide Extends;
    hide Volume.Valid;
    Await(ts, vol, o, Undoable);
    ghost var vs, c := Views(ts), SceneOf(vol);
    if !vol.hostile {
      NothingKept(vs[i], c.d);
      NothingSeen(vs[i], c.d, c.log, true);
    }
    ok := ts[i].DiscardStage(vol);
    assert Views(ts) == vs[i := ts[i].Value()];
    GoodAfterStep(o, vs, i, ts[i].Value(), c, SceneOf(vol), vol.hostile, Undoable);
  }

  method FinishAt(ts: seq<Target>, i: nat, vol: Volume, ghost o: Origin, ghost phase: Phase) returns (ok: bool)
    requires i < |ts| && phase.Final? && Sane(o, ts, vol, phase)
    requires vol.hostile || Intact(ts[i].Value())
    modifies ts[i], vol
    ensures Sane(o, ts, vol, phase) && Later(vol) && Extends(old(vol.log), vol.log) && (ok ==> Flawless(vol))
    ensures vol.hostile || (if ok then Done(ts[i].Value()) else InPlace(ts[i].Value()) && Worse(vol))
  {
    hide Good;
    hide InOrder;
    hide Moved;
    hide Kept;
    hide SeenAll;
    hide Extends;
    hide Volume.Valid;
    Await(ts, vol, o, phase);
    ghost var vs, c, log := Views(ts), SceneOf(vol), old(vol.log);
    ok := ts[i].Finish(vol);
    MovedOn(vs[i], c, SceneOf(vol), false);
    ExtendsAgain(log, c.log, vol.log);
    assert Views(ts) == vs[i := ts[i].Value()];
    GoodAfterStep(o, vs, i, ts[i].Value(), c, SceneOf(vol), vol.hostile, phase);
  }

  // ------------------------------------------------------------------ the three loops

  predicate Discardable(v: View) {
    Revocable(v) && (v.published || v.stage.None? || StagedUp(v))
  }

  /** Discards every stage from one target on and counts what went wrong. `left` are the targets
      whose stage is still there. */
  method Discards(ts: seq<Target>, from: nat, vol: Volume, ghost o: Origin) returns (errors: nat, ghost left: set<nat>)
    requires from <= |ts| && Sane(o, ts, vol, Undoable)
    requires vol.hostile || forall j :: from <= j < |ts| ==> Discardable(ts[j].Value())
    modifies ts, vol
    ensures Sane(o, ts, vol, Undoable) && Later(vol) && (vol.hostile || errors <= Failures(vol))
    ensures forall j :: 0 <= j < from ==> ts[j].Value() == old(ts[j].Value())
    ensures |left| <= errors
    ensures vol.hostile || forall j :: from <= j < |ts| && j !in left ==>
      if old(StagedUp(ts[j].Value())) then Released(ts[j].Value()) else ts[j].Value() == old(ts[j].Value())
    ensures vol.hostile || forall j :: from <= j < |ts| ==>
      old(ts[j].published || ts[j].finished) || (!ts[j].published && !ts[j].finished)
  {
    hide Sane;
    hide Discardable;
    errors, left := 0, {};
    for k := from to |ts|
      invariant Sane(o, ts, vol, Undoable) && Later(vol) && (vol.hostile || errors <= Failures(vol))
      invariant forall j :: 0 <= j < from || k <= j < |ts| ==> ts[j].Value() == old(ts[j].Value())
      invariant |left| <= errors
      invariant vol.hostile || forall j :: from <= j < k && j !in left ==>
        if old(StagedUp(ts[j].Value())) then Released(ts[j].Value()) else ts[j].Value() == old(ts[j].Value())
      invariant vol.hostile || forall j :: from <= j < k ==>
        old(ts[j].published || ts[j].finished) || (!ts[j].published && !ts[j].finished)
    {
      SaneMeansFit(o, ts, vol, Undoable);
      MayDiscard(ts[k].Value());
      var ok := DiscardAt(ts, k, vol, o);
      if !ok {
        errors, left := errors + 1, left + {k};
      }
    }
  }

  lemma SaneMeansFit(o: Origin, ts: seq<Target>, vol: Volume, phase: Phase)
    requires Sane(o, ts, vol, phase)
    ensures Distinct(ts) && forall j :: 0 <= j < |ts| ==> FieldsFit(ts[j].Value())
  {
    forall j | 0 <= j < |ts| ensures FieldsFit(ts[j].Value()) {
      assert Views(ts)[j] == ts[j].Value();
    }
  }

  lemma MayDiscard(v: View)
    ensures Discardable(v) ==> Revocable(v) && (v.published || v.stage.None? || StagedUp(v))
  {
  }

  /** Rolls back the targets before one, the last published first. `left` are the targets that could
      not be given back. */
  method Rollbacks(ts: seq<Target>, upto: nat, vol: Volume, ghost o: Origin) returns (errors: nat, ghost left: set<nat>)
    requires upto <= |ts| && Sane(o, ts, vol, Undoable)
    requires vol.hostile || forall j :: 0 <= j < upto ==> Intact(ts[j].Value())
    modifies ts, vol
    ensures Sane(o, ts, vol, Undoable) && Later(vol) && (vol.hostile || errors <= Failures(vol))
    ensures forall j :: upto <= j < |ts| ==> ts[j].Value() == old(ts[j].Value())
    ensures |left| <= errors
    ensures vol.hostile || forall j :: 0 <= j < upto && j !in left ==> Released(ts[j].Value())
  {
    hide Sane;
    errors, left := 0, {};
    for k := upto downto 0
      invariant Sane(o, ts, vol, Undoable) && Later(vol) && (vol.hostile || errors <= Failures(vol))
      invariant forall j :: 0 <= j < k || upto <= j < |ts| ==> ts[j].Value() == old(ts[j].Value())
      invariant |left| <= errors
      invariant vol.hostile || forall j :: k <= j < upto && j !in left ==> Released(ts[j].Value())
    {
      SaneMeansFit(o, ts, vol, Undoable);
      assert vol.hostile || Intact(ts[k].Value());
      var ok := RollbackAt(ts, k, vol, o);
      if !ok {
        errors, left := errors + 1, left + {k};
      }
    }
  }

  /** After a target failed to stage: discards all stages. */
  method DiscardAll(ts: seq<Target>, vol: Volume, ghost o: Origin) returns (errors: nat, ghost left: set<nat>)
    requires Sane(o, ts, vol, Undoable)
    requires forall j :: 0 <= j < |ts| ==> Unstaged(ts[j].Value()) || StagedUp(ts[j].Value())
    modifies ts, vol
    ensures Sane(o, ts, vol, Undoable) && Later(vol) && (vol.hostile || errors <= Failures(vol))
    ensures |left| <= errors
    ensures vol.hostile || forall j :: 0 <= j < |ts| && j !in left ==> ts[j].holds == map[]
    ensures vol.hostile || forall j :: 0 <= j < |ts| ==> !ts[j].published && !ts[j].finished
  {
    hide Sane;
    errors, left := Discards(ts, 0, vol, o);
  }

  /** Stages every target; when one fails, discards all stages. Each cleanup error is a failure of its
      own, and no more targets than there are errors keep anything. */
  method StageAll(ts: seq<Target>, vol: Volume, ghost o: Origin) returns (ok: bool, errors: nat, ghost left: set<nat>)
    requires Sane(o, ts, vol, Undoable) && forall j :: 0 <= j < |ts| ==> Unstaged(ts[j].Value())
    modifies ts, vol
    ensures Sane(o, ts, vol, Undoable) && Later(vol) && (ok ==> Flawless(vol))
    ensures ok || vol.hostile || Failures(vol) > errors
    ensures ok ==> forall j :: 0 <= j < |ts| ==> StagedUp(ts[j].Value()) && ts[j].staged.Some?
    ensures |left| <= errors
    ensures vol.hostile || ok || forall j :: 0 <= j < |ts| && j !in left ==> ts[j].holds == map[]
    ensures vol.hostile || forall j :: 0 <= j < |ts| ==> !ts[j].published && !ts[j].finished
  {
    hide Sane;
    ok, errors, left := true, 0, {};
    for i := 0 to |ts|
      invariant Sane(o, ts, vol, Undoable) && Later(vol) && Flawless(vol)
      invariant forall j :: 0 <= j < i ==> StagedUp(ts[j].Value()) && ts[j].staged.Some?
      invariant forall j :: i <= j < |ts| ==> Unstaged(ts[j].Value())
    {
      SaneMeansFit(o, ts, vol, Undoable);
      ok := StageAt(ts, i, vol, o);
      if !ok {
        errors, left := DiscardAll(ts, vol, o);
        return;
      }
    }
  }

  lemma UnionIsSmall(a: set<nat>, b: set<nat>)
    ensures |a + b| <= |a| + |b|
  {
    assert a + b == a + (b - a) && |b - a| <= |b|;
  }

  /** After a target failed to publish: rolls it back if it was published, then the ones before it,
      the last first, and discards its stage and the later ones. */
  method GiveAllBack(ts: seq<Target>, i: nat, vol: Volume, ghost o: Origin)
    returns (errors: nat, ghost left: set<nat>)
    requires i < |ts| && Sane(o, ts, vol, Undoable)
    requires vol.hostile || forall j :: 0 <= j < i ==> Intact(ts[j].Value())
    requires vol.hostile || StagedUp(ts[i].Value()) || Intact(ts[i].Value()) || Released(ts[i].Value())
             || HalfRolledBack(ts[i].Value())
    requires vol.hostile || forall j :: i < j < |ts| ==> StagedUp(ts[j].Value())
    modifies ts, vol
    ensures Sane(o, ts, vol, Undoable) && Later(vol)
    ensures vol.hostile || errors <= Failures(vol) + old(Stuck(ts[i].Value()))
    ensures |left| <= errors
    ensures vol.hostile || forall j :: 0 <= j < |ts| && j !in left ==> ts[j].holds == map[]
  {
    hide Sane;
    SaneMeansFit(o, ts, vol, Undoable);
    errors, left := 0, {};
    if ts[i].published {
      var rolledBack := RollbackAt(ts, i, vol, o);
      errors, left := if rolledBack then 0 else 1, if rolledBack then {} else {i};
    }
    ghost var first := left;
    var more, kept := Rollbacks(ts, i, vol, o);
    var rest, staged := Discards(ts, i, vol, o);
    UnionIsSmall(first, kept);
    UnionIsSmall(first + kept, staged);
    errors, left := errors + more + rest, first + kept + staged;
  }

  /** Publishes every target; when one fails, gives back what was published, the last first, and
      discards the stages that were not. Errors are counted as when staging. */
  method PublishAll(ts: seq<Target>, vol: Volume, ghost o: Origin)
    returns (ok: bool, errors: nat, ghost left: set<nat>)
    requires Sane(o, ts, vol, Undoable)
    requires vol.hostile || forall j :: 0 <= j < |ts| ==> StagedUp(ts[j].Value()) && ts[j].staged.Some?
    modifies ts, vol
    ensures Sane(o, ts, vol, Undoable) && Later(vol) && (ok ==> Flawless(vol))
    ensures ok || vol.hostile || Failures(vol) > errors
    ensures vol.hostile || (ok ==> forall j :: 0 <= j < |ts| ==> Intact(ts[j].Value()))
    ensures |left| <= errors
    ensures vol.hostile || ok || forall j :: 0 <= j < |ts| && j !in left ==> ts[j].holds == map[]
  {
    hide Sane;
    ok, errors, left := true, 0, {};
    for i := 0 to |ts|
      invariant Sane(o, ts, vol, Undoable) && Later(vol) && Flawless(vol)
      invariant vol.hostile || forall j :: 0 <= j < i ==> Intact(ts[j].Value())
      invariant vol.hostile || forall j :: i <= j < |ts| ==> StagedUp(ts[j].Value()) && ts[j].staged.Some?
    {
      SaneMeansFit(o, ts, vol, Undoable);
      ok := PublishAt(ts, i, vol, o);
      if !ok {
        errors, left := GiveAllBack(ts, i, vol, o);
        return;
      }
    }
  }

  lemma StillInPlace(v: View)
    requires FieldsFit(v)
    ensures Done(v) || Intact(v) ==> InPlace(v)
  {
  }

  /** Gives up every old object. The first failure ends the run; nothing is undone. */
  method FinishAll(ts: seq<Target>, vol: Volume, ghost o: Origin, ghost phase: Phase) returns (ok: bool)
    requires phase.Final? && Sane(o, ts, vol, phase)
    requires vol.hostile || forall j :: 0 <= j < |ts| ==> Intact(ts[j].Value())
    modifies ts, vol
    ensures Sane(o, ts, vol, phase) && Later(vol) && Extends(old(vol.log), vol.log) && (ok ==> Flawless(vol))
    ensures vol.hostile || (if ok then forall j :: 0 <= j < |ts| ==> Done(ts[j].Value())
                            else Worse(vol) && forall j :: 0 <= j < |ts| ==> InPlace(ts[j].Value()))
  {
    hide Sane;
    hide Extends;
    ok := true;
    ghost var log := vol.log;
    ExtendsItself(log);
    for i := 0 to |ts|
      invariant Sane(o, ts, vol, phase) && Later(vol) && Extends(log, vol.log) && Flawless(vol)
      invariant vol.hostile || forall j :: 0 <= j < i ==> Done(ts[j].Value())
      invariant vol.hostile || forall j :: i <= j < |ts| ==> Intact(ts[j].Value())
    {
      SaneMeansFit(o, ts, vol, phase);
      ghost var mid := vol.log;
      ok := FinishAt(ts, i, vol, o, phase);
      ExtendsAgain(log, mid, vol.log);
      if !ok {
        SaneMeansFit(o, ts, vol, phase);
        forall j | 0 <= j < |ts| ensures vol.hostile || InPlace(ts[j].Value()) {
          StillInPlace(ts[j].Value());
        }
        return;
      }
    }
  }

  // ------------------------------------------------------------------- all or nothing

  datatype Outcome = Succeeded | StageFailed(cleanupErrors: nat) | PublishFailed(cleanupErrors: nat) | FinishFailed

  /** Every destination holds its source's bytes; every other name is as it was. */
  ghost predicate AllPublished(goals: seq<View>, before: Disk, after: Disk) {
    && (forall i :: 0 <= i < |goals| ==> Published(goals[i], after))
    && (forall s :: (forall i :: 0 <= i < |goals| ==> s != goals[i].slot) ==>
          Binding(after.slots, s) == Binding(before.slots, s))
  }

  ghost predicate FilesKept(before: Disk, after: Disk) {
    forall i :: i in before.objects ==> i in after.objects && after.objects[i] == before.objects[i]
  }

  ghost predicate NamesKept(before: Disk, after: Disk) {
    forall s :: s in before.slots ==> Binding(after.slots, s) == Binding(before.slots, s)
  }

  ghost predicate ForeignKept(goals: seq<View>, before: Disk, after: Disk) {
    forall s :: s in before.slots && (forall i :: 0 <= i < |goals| ==> s != goals[i].slot) ==>
      Binding(after.slots, s) == Binding(before.slots, s)
  }

  /** Names that are there and were not before are destinations or temporary ones. */
  ghost predicate NoStrayNames(goals: seq<View>, before: Disk, after: Disk, process: string) {
    forall s :: s in after.slots && s !in before.slots ==>
      Temporary(s, process) || exists i :: 0 <= i < |goals| && s == goals[i].slot
  }

  /** The destination is as it was. One that did not exist may have the name of another one's stage. */
  ghost predicate GivenBack(v: View, before: Disk, after: Disk, process: string) {
    Binding(after.slots, v.slot) == Binding(before.slots, v.slot) || Excused(v, process)
  }

  /** No more destinations than there are errors differ from before. */
  ghost predicate AllButFew(goals: seq<View>, before: Disk, after: Disk, errors: nat, process: string) {
    exists left: set<nat> :: |left| <= errors &&
      forall i: nat :: i < |goals| && i !in left ==> GivenBack(goals[i], before, after, process)
  }

  /** A run that was given up leaves what was there before; each cleanup error may spoil that for one
      target. Before anything is published every existing destination is left alone. */
  ghost predicate Undone(goals: seq<View>, before: Disk, after: Disk, r: Outcome, process: string)
    requires r.StageFailed? || r.PublishFailed?
  {
    && AllButFew(goals, before, after, r.cleanupErrors, process)
    && (r.StageFailed? ==> NamesKept(before, after))
    && (r.cleanupErrors == 0 ==> after.slots == before.slots)
  }

  /** What a run with no one else at work leaves behind. In every case no file of the start has
      changed, every destination is whole, and every other name of the start is bound as it was; only
      the cleanup's own leftovers can be there besides. */
  ghost predicate AllOrNothing(goals: seq<View>, before: Disk, after: Disk, r: Outcome, process: string) {
    && FilesKept(before, after) && AllWhole(goals, after, process)
    && ForeignKept(goals, before, after) && NoStrayNames(goals, before, after, process)
    && (if r.Succeeded? then AllPublished(goals, before, after)
        else if r.FinishFailed? then EachPublished(goals, after)
        else Undone(goals, before, after, r, process))
  }

  lemma SaneAtTheStart(o: Origin, ts: seq<Target>, vol: Volume)
    requires Distinct(ts) && vol.Valid()
    requires forall i :: 0 <= i < |ts| ==> ts[i].Usable(vol) && Unstaged(ts[i].Value())
    requires vol.hostile || Prepared(Views(ts), vol.State())
    requires o == Origin(Views(ts), vol.State(), vol.log)
    ensures Sane(o, ts, vol, Undoable)
  {
    hide Inv;
    if !vol.hostile { InvAtTheStart(o.goals, o.start); }
    assert forall j :: 0 <= j < |ts| ==> Views(ts)[j] == ts[j].Value();
  }

  /** What a run is like at any moment, with no one else at work. */
  ghost predicate Safe(o: Origin, vol: Volume, linked: bool)
    reads vol
  {
    && Witnessed(o.goals, vol.log, |o.past|, vol.process, linked) && FilesKept(o.start, vol.State())
    && AllWhole(o.goals, vol.State(), vol.process) && ForeignKept(o.goals, o.start, vol.State())
    && NoStrayNames(o.goals, o.start, vol.State(), vol.process)
    && (linked ==> AllOldLinked(o.goals, vol.State()))
  }

  lemma SaneMeansSafe(o: Origin, ts: seq<Target>, vol: Volume, phase: Phase)
    requires Sane(o, ts, vol, phase) && !vol.hostile
    ensures Safe(o, vol, phase.Undoable?) && (phase.Final? ==> Lasting(o.goals, vol.log, phase.steps))
  {
    hide Rooted;
    hide Apart;
    hide Witnessed;
    hide Lasting;
    hide AllWhole;
    hide AllOldLinked;
    hide Temporary;
    ghost var vs, d := Views(ts), vol.State();
    assert forall j :: 0 <= j < |vs| ==> Stands(vs[j], vol.process, phase);
    AllWholeNow(o.goals, vs, o.start, d, vol.process);
    if phase.Undoable? { AllLinkedNow(o.goals, vs, o.start, d); }
    forall s | s in o.start.slots && (forall i :: 0 <= i < |o.goals| ==> s != o.goals[i].slot)
      ensures Binding(d.slots, s) == Binding(o.start.slots, s)
    {
      assert forall i :: 0 <= i < |vs| ==> o.goals[i].slot == vs[i].slot;
      ForeignNamesKept(vs, o.start, d, s);
    }
    forall s | s in d.slots && s !in o.start.slots
      ensures Temporary(s, vol.process) || exists i :: 0 <= i < |o.goals| && s == o.goals[i].slot
    {
      StrayNameIsOwned(vs, o.start, d, vol.process, s);
      assert forall i :: 0 <= i < |vs| ==> o.goals[i].slot == vs[i].slot;
    }
  }

  lemma StrayNameIsOwned(vs: seq<View>, start: Disk, d: Disk, process: string, s: Slot)
    requires Inv(vs, start, d) && s in d.slots && s !in start.slots
    requires forall j :: 0 <= j < |vs| ==> Named(vs[j], process)
    ensures Temporary(s, process) || exists i :: 0 <= i < |vs| && s == vs[i].slot
  {
    hide Temporary;
    assert Binding(d.slots, s) != Binding(start.slots, s);
    assert Owned(vs, s);
    var j :| 0 <= j < |vs| && s in vs[j].holds;
    assert Named(vs[j], process);
  }

  lemma SafeWithoutLinks(o: Origin, vol: Volume)
    requires Safe(o, vol, true)
    ensures Safe(o, vol, false)
  {
  }

  /** Whoever else is at work. */
  lemma SaneMeansSpares(o: Origin, ts: seq<Target>, vol: Volume, phase: Phase)
    requires Sane(o, ts, vol, phase)
    ensures Spares(Views(ts), vol.log, |o.past|) && AllMadeHere(Views(ts), vol.log, |o.past|)
    ensures Extends(o.past, vol.log)
  {
    FairMeansSpares(Views(ts), vol.log, |o.past|);
  }

  lemma NothingTaken(o: Origin, ts: seq<Target>, vol: Volume)
    requires Sane(o, ts, vol, Undoable) && !vol.hostile
    requires forall j :: 0 <= j < |ts| ==> !ts[j].published && !ts[j].finished
    ensures NamesKept(o.start, vol.State())
  {
    hide Inv;
    ghost var vs := Views(ts);
    assert forall j :: 0 <= j < |vs| ==> vs[j] == ts[j].Value();
    forall s | s in o.start.slots ensures Binding(vol.slots, s) == Binding(o.start.slots, s) {
      UnpublishedNamesKept(vs, o.start, vol.State(), s);
    }
  }

  lemma NothingPublished(o: Origin, ts: seq<Target>, vol: Volume)
    requires Sane(o, ts, vol, Undoable) && !vol.hostile && forall j :: 0 <= j < |ts| ==> ts[j].holds == map[]
    ensures vol.slots == o.start.slots
  {
    hide Inv;
    AllReleasedMeansUntouched(Views(ts), o.start, vol.State());
  }

  lemma FewAreLeft(o: Origin, ts: seq<Target>, vol: Volume, errors: nat, left: set<nat>)
    requires Sane(o, ts, vol, Undoable) && !vol.hostile && |left| <= errors
    requires forall j :: 0 <= j < |ts| && j !in left ==> ts[j].holds == map[]
    ensures AllButFew(o.goals, o.start, vol.State(), errors, vol.process)
  {
    ghost var vs := Views(ts);
    forall i: nat | i < |o.goals| && i !in left ensures GivenBack(o.goals[i], o.start, vol.State(), vol.process) {
      assert vs[i] == ts[i].Value() && vs[i].slot == o.goals[i].slot;
      assert forall j :: 0 <= j < |vs| ==> Stands(vs[j], vol.process, Undoable);
      NothingHeldIsGivenBack(vs, o.start, vol.State(), vol.process, i);
    }
  }

  lemma NothingHeldIsGivenBack(vs: seq<View>, start: Disk, d: Disk, process: string, i: nat)
    requires Inv(vs, start, d) && i < |vs| && vs[i].holds == map[]
    requires forall j :: 0 <= j < |vs| ==> Named(vs[j], process)
    ensures GivenBack(vs[i], start, d, process)
  {
    hide Temporary;
    var v := vs[i];
    assert Rooted(v, start, d);
    if v.original.None? && Owned(vs, v.slot) {
      var j :| 0 <= j < |vs| && v.slot in vs[j].holds;
      assert Named(vs[j], process) && Apart(vs[i], vs[j]);
    }
  }

  lemma EverythingPublished(o: Origin, ts: seq<Target>, vol: Volume, phase: Phase)
    requires Sane(o, ts, vol, phase) && !vol.hostile && forall j :: 0 <= j < |ts| ==> Done(ts[j].Value())
    ensures AllPublished(o.goals, o.start, vol.State())
  {
    hide Inv;
    hide Witnessed;
    ghost var vs := Views(ts);
    AllDoneMeansPublished(vs, o.start, vol.State());
    assert forall i :: 0 <= i < |vs| ==> o.goals[i].slot == vs[i].slot;
  }

  lemma EverythingInPlace(o: Origin, ts: seq<Target>, vol: Volume, phase: Phase)
    requires Sane(o, ts, vol, phase) && !vol.hostile && forall j :: 0 <= j < |ts| ==> InPlace(ts[j].Value())
    ensures EachPublished(o.goals, vol.State())
  {
    hide Inv;
    hide Witnessed;
    ghost var vs := Views(ts);
    forall i | 0 <= i < |o.goals| ensures Published(o.goals[i], vol.State()) {
      assert vs[i] == ts[i].Value();
      InPlaceMeansPublished(vs, o.start, vol.State(), i);
    }
  }

  /** All targets are published: the run cannot be undone from here on. */
  lemma SaneForGood(o: Origin, ts: seq<Target>, vol: Volume)
    requires Sane(o, ts, vol, Undoable) && (vol.hostile || forall j :: 0 <= j < |ts| ==> Intact(ts[j].Value()))
    ensures Sane(o, ts, vol, Final(|vol.log|))
  {
    if !vol.hostile {
      ghost var vs := Views(ts);
      forall j | 0 <= j < |ts| ensures InPlace(ts[j].Value()) && Stands(vs[j], vol.process, Final(|vol.log|)) {
        assert vs[j] == ts[j].Value() && Stands(vs[j], vol.process, Undoable);
        StillInPlace(vs[j]);
      }
      EverythingInPlace(o, ts, vol, Undoable);
      hide Inv;
      hide AllOldLinked;
      hide AllWhole;
    }
  }

  twostate lemma AimsNeverChange(ts: seq<Target>)
    ensures SameGoals(old(Views(ts)), Views(ts))
  {
  }

  /** The moment after which nothing is undone: `state` is the volume then, and `steps` the length
      of its log. A run that is rolled back has its end for this moment. */
  datatype Commit = Commit(steps: nat, state: Disk)

  /** The moment is one of the run. Every old object has a name up to and including it, and when the
      run went on from there, every target was published then and ever after. */
  ghost predicate IsCommit(c: Commit, goals: seq<View>, from: nat, log: seq<Entry>, process: string,
                           end: Disk, r: Outcome) {
    && 0 < c.steps <= |log| && log[c.steps - 1].disk == c.state
    && Witnessed(goals, log[..c.steps], from, process, true) && AllOldLinked(goals, c.state)
    && (if r.Succeeded? || r.FinishFailed? then Lasting(goals, log, c.steps)
        else c.steps == |log| && c.state == end)
  }

  lemma CommitStays(c: Commit, o: Origin, earlier: seq<Entry>, log: seq<Entry>, process: string, end: Disk, r: Outcome)
    requires earlier != [] && c == Commit(|earlier|, earlier[|earlier| - 1].disk) && Extends(earlier, log)
    requires Witnessed(o.goals, earlier, |o.past|, process, true) && AllOldLinked(o.goals, c.state)
    requires if r.Succeeded? || r.FinishFailed? then Lasting(o.goals, log, c.steps)
             else log == earlier && c.state == end
    ensures IsCommit(c, o.goals, |o.past|, log, process, end, r)
  {
    hide Witnessed;
    hide Lasting;
    hide AllOldLinked;
    assert log[..c.steps] == earlier && log[c.steps - 1] == log[..c.steps][c.steps - 1];
  }

  /** The part of a run that can be undone. */
  method StageAndPublish(ts: seq<Target>, vol: Volume, ghost o: Origin) returns (ok: bool, r: Outcome)
    requires Sane(o, ts, vol, Undoable) && forall j :: 0 <= j < |ts| ==> Unstaged(ts[j].Value())
    modifies ts, vol
    ensures Sane(o, ts, vol, Undoable) && Later(vol) && (ok ==> Flawless(vol))
    ensures vol.hostile || (ok ==> forall j :: 0 <= j < |ts| ==> Intact(ts[j].Value()))
    ensures !ok ==>
      && (r.StageFailed? || r.PublishFailed?)
      && (vol.hostile || (Failures(vol) > r.cleanupErrors && Undone(o.goals, o.start, vol.State(), r, vol.process)))
  {
    hide Sane;
    hide NamesKept;
    hide AllButFew;
    var errors;
    ghost var left;
    ok, errors, left := StageAll(ts, vol, o);
    if ok {
      ok, errors, left := PublishAll(ts, vol, o);
      r := PublishFailed(errors);
    } else {
      r := StageFailed(errors);
      if !vol.hostile { NothingTaken(o, ts, vol); }
    }
    if !ok && !vol.hostile {
      FewAreLeft(o, ts, vol, errors, left);
      if errors == 0 { NothingPublished(o, ts, vol); }
    }
  }

  /** Publishes all prepared targets. */
  method PublishTargets(ts: seq<Target>, vol: Volume) returns (r: Outcome, ghost commit: Commit)
    requires Distinct(ts) && vol.Valid() && (vol.hostile || Prepared(Views(ts), vol.State()))
    requires forall i :: 0 <= i < |ts| ==> ts[i].Usable(vol) && Unstaged(ts[i].Value())
    modifies ts, vol
    ensures vol.Valid() && Later(vol) && Extends(old(vol.log), vol.log) && SameGoals(old(Views(ts)), Views(ts))
    ensures Spares(Views(ts), vol.log, |old(vol.log)|) && AllMadeHere(Views(ts), vol.log, |old(vol.log)|)
    ensures !vol.hostile ==> AllOrNothing(old(Views(ts)), old(vol.State()), vol.State(), r, vol.process)
    ensures !vol.hostile ==> (r.Succeeded? <==> Flawless(vol))
    ensures !vol.hostile && !r.Succeeded? ==> Worse(vol)
    ensures !vol.hostile && (r.StageFailed? || r.PublishFailed?) ==>
      Failures(vol) > r.cleanupErrors && (Failures(vol) == 1 ==> vol.slots == old(vol.slots))
    ensures !vol.hostile ==>
      && Witnessed(old(Views(ts)), vol.log, |old(vol.log)|, vol.process, false)
      && IsCommit(commit, old(Views(ts)), |old(vol.log)|, vol.log, vol.process, vol.State(), r)
  {
    hide Inv;
    hide Witnessed;
    hide Lasting;
    hide Extends;
    hide SameGoals;
    hide Spares;
    hide AllMadeHere;
    hide FilesKept;
    hide ForeignKept;
    hide AllPublished;
    hide EachPublished;
    hide AllWhole;
    hide AllOldLinked;
    hide IsCommit;
    hide NoStrayNames;
    hide AllButFew;
    hide NamesKept;
    ghost var o := Origin(Views(ts), vol.State(), vol.log);
    SaneAtTheStart(o, ts, vol);
    hide Sane;
    hide Prepared;
    var ok;
    ok, r := StageAndPublish(ts, vol, o);
    ghost var log := vol.log;
    commit := Commit(|log|, vol.State());
    ExtendsItself(log);
    SaneMeansSpares(o, ts, vol, Undoable);
    AimsNeverChange(ts);
    if !vol.hostile { SaneMeansSafe(o, ts, vol, Undoable); }
    if !ok {
      if !vol.hostile {
        SafeWithoutLinks(o, vol);
        CommitStays(commit, o, log, vol.log, vol.process, vol.State(), r);
      }
      return;
    }
    ghost var phase := Final(|log|);
    SaneForGood(o, ts, vol);
    ok := FinishAll(ts, vol, o, phase);
    SaneMeansSpares(o, ts, vol, phase);
    AimsNeverChange(ts);
    r := if ok then Succeeded else FinishFailed;
    if !vol.hostile {
      if ok { EverythingPublished(o, ts, vol, phase); } else { EverythingInPlace(o, ts, vol, phase); }
      SaneMeansSafe(o, ts, vol, phase);
      CommitStays(commit, o, log, vol.log, vol.process, vol.State(), r);
    }
  }
}
