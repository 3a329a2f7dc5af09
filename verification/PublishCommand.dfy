/** The command line's two commands over their pairs of a source and a destination. */
module PublishCommand {
  import opened Wrappers
  import opened PublishModel
  import opened PublishSteps
  import opened PublishVolume
  import opened PublishTarget
  import opened PublishInvariant
  import opened PublishRun

  datatype Pair = Pair(source: Slot, destination: Slot)

  /** The content of a source, as one reads it by name. */
  ghost predicate Contains(d: Disk, s: Slot, bytes: Bytes) {
    s in d.slots && d.slots[s] in d.objects && d.objects[d.slots[s]].regular && d.objects[d.slots[s]].bytes == bytes
  }

  /** A source that cannot be read, or a destination that is not a regular file. */
  ghost predicate Unfit(d: Disk, pair: Pair) {
    || !(pair.source in d.slots && d.slots[pair.source] in d.objects && d.objects[d.slots[pair.source]].regular)
    || (pair.destination in d.slots && d.slots[pair.destination] in d.objects
        && !d.objects[d.slots[pair.destination]].regular)
  }

  /** The optional seal of an existing destination; a destination that is not a regular file, or
      that moves while it is sealed, is refused. */
  method OpenOptionalSealedSlot(vol: Volume, s: Slot) returns (ok: bool, seal: Option<Seal>)
    requires vol.Valid()
    modifies vol`faults
    ensures vol.faults >= old(vol.faults) && (ok ==> vol.faults == old(vol.faults))
    ensures ok ==> if seal.Some? then At(vol.State(), s, seal.value) else s !in vol.slots
    ensures !ok ==> vol.faults > old(vol.faults) || (s in vol.slots && !vol.objects[vol.slots[s]].regular)
  {
    var expected := vol.Identify(s);
    if expected.LookupFailed? { return false, None; }
    if expected.Missing? { return true, None; }
    var handle := vol.Open(s);
    if handle.None? { return false, None; }
    seal := Capture(vol, handle.value);
    if seal.None? || seal.value.identity != expected.inode { return false, None; }
    ok := ValidateSlot(vol, s, seal.value);
  }

  /** A target fit for its pair: it has the bytes of the source and the seal of what the destination
      holds, unless another process may have changed either since. */
  ghost predicate PreparedAs(v: View, pair: Pair, d: Disk, hostile: bool) {
    && v.slot == pair.destination && Unstaged(v) && FieldsFit(v) && HandlesOpen(v, d.objects)
    && (hostile ||
        (Contains(d, pair.source, v.source)
         && (if v.original.Some? then At(d, v.slot, v.original.value) else v.slot !in d.slots)))
  }

  lemma StaysPrepared(vs: seq<View>, pairs: seq<Pair>, d: Disk, e: Disk, hostile: bool)
    requires |vs| <= |pairs| && forall i :: 0 <= i < |vs| ==> PreparedAs(vs[i], pairs[i], d, hostile)
    requires (forall i :: i in d.objects ==> i in e.objects) && (hostile || d == e)
    ensures forall i :: 0 <= i < |vs| ==> PreparedAs(vs[i], pairs[i], e, hostile)
  {
  }

  /** Reads the source once, seals what the destination holds now, and changes nothing. */
  method Prepare(vol: Volume, pair: Pair) returns (t: Option<Target>)
    requires vol.Valid()
    modifies vol`faults
    ensures vol.faults >= old(vol.faults) && (t.Some? ==> vol.faults == old(vol.faults))
    ensures t.Some? ==> fresh(t.value) && PreparedAs(t.value.Value(), pair, vol.State(), false)
    ensures t.None? ==> vol.faults > old(vol.faults) || Unfit(vol.State(), pair)
  {
    assert WellFormed(vol.State());
    hide Volume.Valid;
    t := None;
    var ok := vol.Attempt();
    if !ok { return; }
    var handle := vol.Open(pair.source);
    if handle.None? { return; }
    var source := Capture(vol, handle.value);
    if source.None? { return; }
    var previous;
    ok, previous := OpenOptionalSealedSlot(vol, pair.destination);
    if !ok { return; }
    var target := new Target(pair.destination, source.value.bytes, previous);
    return Some(target);
  }

  ghost predicate NoDuplicates(pairs: seq<Pair>) {
    forall i, j :: 0 <= i < j < |pairs| ==> pairs[i].destination != pairs[j].destination
  }

  ghost predicate AllPrepared(vs: seq<View>, pairs: seq<Pair>, d: Disk, hostile: bool) {
    |vs| <= |pairs| && forall i :: 0 <= i < |vs| ==> PreparedAs(vs[i], pairs[i], d, hostile)
  }

  lemma OneMorePrepared(vs: seq<View>, v: View, pairs: seq<Pair>, d: Disk, e: Disk, hostile: bool)
    requires AllPrepared(vs, pairs, d, hostile) && |vs| < |pairs| && NoDuplicates(pairs[..|vs|])
    requires (forall i :: i in d.objects ==> i in e.objects) && (hostile || d == e)
    requires forall i :: 0 <= i < |vs| ==> vs[i].slot != pairs[|vs|].destination
    requires PreparedAs(v, pairs[|vs|], e, false)
    ensures AllPrepared(vs + [v], pairs, e, hostile) && NoDuplicates(pairs[..|vs| + 1])
  {
    StaysPrepared(vs, pairs, d, e, hostile);
  }

  /** The publisher itself has changed nothing since. */
  ghost predicate AllForeign(log: seq<Entry>, from: nat) {
    from <= |log| && forall k :: from <= k < |log| ==> log[k].Foreign?
  }

  /** Another process may have acted once more. */
  lemma MoreForeign(past: nat, log: seq<Entry>, after: seq<Entry>, d: Disk)
    requires AllForeign(log, past) && (after == log || after == log + [Foreign(d)])
    ensures AllForeign(after, past) && Extends(log, after)
  {
  }

  lemma ForeignAgain(past: nat, log: seq<Entry>, after: seq<Entry>)
    requires AllForeign(log, past) && Extends(log, after) && AllForeign(after, |log|)
    ensures AllForeign(after, past)
  {
    forall k | past <= k < |after| ensures after[k].Foreign? {
      assert k < |log| ==> after[k] == after[..|log|][k];
    }
  }

  /** The volume is as at the start, or its last change since is in the log. */
  ghost predicate Current(start: Disk, from: nat, c: Scene) {
    c.d == start || (from < |c.log| && c.log[|c.log| - 1].disk == c.d)
  }

  /** The old object of a target was in its destination, as sealed, at the start or in a state since. */
  ghost predicate FoundThere(v: View, start: Disk, log: seq<Entry>, from: nat) {
    v.original.Some? ==>
      At(start, v.slot, v.original.value) || exists k :: from <= k < |log| && At(log[k].disk, v.slot, v.original.value)
  }

  ghost predicate AllFound(vs: seq<View>, start: Disk, log: seq<Entry>, from: nat) {
    forall i :: 0 <= i < |vs| ==> FoundThere(vs[i], start, log, from)
  }

  lemma OneMoreFound(vs: seq<View>, v: View, pair: Pair, start: Disk, from: nat, c: Scene)
    requires AllFound(vs, start, c.log, from) && PreparedAs(v, pair, c.d, false) && Current(start, from, c)
    ensures AllFound(vs + [v], start, c.log, from)
  {
    assert FoundThere(v, start, c.log, from);
    hide FoundThere;
  }

  lemma StillFound(vs: seq<View>, start: Disk, earlier: seq<Entry>, log: seq<Entry>, from: nat)
    requires AllFound(vs, start, earlier, from) && Extends(earlier, log)
    ensures AllFound(vs, start, log, from)
  {
    forall i | 0 <= i < |vs| ensures FoundThere(vs[i], start, log, from) {
      assert FoundThere(vs[i], start, earlier, from);
      assert forall k :: 0 <= k < |earlier| ==> log[k] == log[..|earlier|][k];
    }
  }

  lemma TakenTwice(vs: seq<View>, pairs: seq<Pair>, d: Disk, hostile: bool, i: nat)
    requires AllPrepared(vs, pairs, d, hostile) && i < |vs| < |pairs| && vs[i].slot == pairs[|vs|].destination
    ensures !NoDuplicates(pairs)
  {
    assert PreparedAs(vs[i], pairs[i], d, hostile);
  }

  method PrepareNext(vol: Volume, ts: seq<Target>, pairs: seq<Pair>, ghost start: Disk, ghost from: nat)
    returns (t: Option<Target>)
    requires vol.Valid() && |ts| < |pairs| && NoDuplicates(pairs[..|ts|])
    requires AllPrepared(Views(ts), pairs, vol.State(), vol.hostile)
    requires Current(start, from, SceneOf(vol)) && AllFound(Views(ts), start, vol.log, from) && from <= |vol.log|
    modifies vol`slots, vol`objects, vol`log, vol`faults
    ensures vol.Valid() && vol.faults >= old(vol.faults) && (t.Some? ==> vol.faults == old(vol.faults))
    ensures !vol.hostile ==> SceneOf(vol) == old(SceneOf(vol))
    ensures t.Some? ==>
      && fresh(t.value) && NoDuplicates(pairs[..|ts| + 1])
      && AllPrepared(Views(ts + [t.value]), pairs, vol.State(), vol.hostile)
      && AllFound(Views(ts + [t.value]), start, vol.log, from)
    ensures Current(start, from, SceneOf(vol))
    ensures Extends(old(vol.log), vol.log) && AllForeign(vol.log, |old(vol.log)|)
    ensures t.None? && !vol.hostile ==>
      vol.faults > old(vol.faults) || !NoDuplicates(pairs) || Unfit(vol.State(), pairs[|ts|])
  {
    hide PreparedAs;
    hide Volume.Valid;
    hide Unfit;
    var pair := pairs[|ts|];
    if exists i :: 0 <= i < |ts| && ts[i].slot == pair.destination {
      ghost var i :| 0 <= i < |ts| && ts[i].slot == pair.destination;
      TakenTwice(Views(ts), pairs, vol.State(), vol.hostile, i);
      return None;
    }
    hide AllPrepared;
    hide NoDuplicates;
    ghost var vs, before, log := Views(ts), vol.State(), vol.log;
    vol.Interfere();
    MoreForeign(|log|, log, vol.log, vol.State());
    StillFound(vs, start, log, vol.log, from);
    hide AllFound;
    t := Prepare(vol, pair);
    if t.Some? {
      OneMoreFound(vs, t.value.Value(), pair, start, from, SceneOf(vol));
      OneMorePrepared(vs, t.value.Value(), pairs, before, vol.State(), vol.hostile);
      assert Views(ts + [t.value]) == vs + [t.value.Value()];
    }
  }

  /** Prepares every pair in turn. A destination named twice is refused, and nothing changes. */
  method PrepareAll(vol: Volume, pairs: seq<Pair>) returns (prepared: Option<seq<Target>>)
    requires vol.Valid()
    modifies vol`slots, vol`objects, vol`log, vol`faults
    ensures vol.Valid() && vol.faults >= old(vol.faults) && (prepared.Some? ==> vol.faults == old(vol.faults))
    ensures !vol.hostile ==> SceneOf(vol) == old(SceneOf(vol))
    ensures prepared.Some? ==>
      && NoDuplicates(pairs) && |prepared.value| == |pairs| && Distinct(prepared.value)
      && (forall i :: 0 <= i < |pairs| ==> fresh(prepared.value[i]))
      && AllPrepared(Views(prepared.value), pairs, vol.State(), vol.hostile)
      && AllFound(Views(prepared.value), old(vol.State()), vol.log, |old(vol.log)|)
    ensures Extends(old(vol.log), vol.log) && AllForeign(vol.log, |old(vol.log)|)
    ensures prepared.None? && !vol.hostile ==>
      || vol.faults > old(vol.faults) || !NoDuplicates(pairs)
      || (exists i :: 0 <= i < |pairs| && Unfit(vol.State(), pairs[i]))
  {
    hide PreparedAs;
    hide Volume.Valid;
    hide Unfit;
    var ts: seq<Target> := [];
    ghost var start, past := vol.State(), vol.log;
    ExtendsItself(past);
    for k := 0 to |pairs|
      invariant vol.Valid() && vol.faults == old(vol.faults) && |ts| == k && Distinct(ts)
      invariant !vol.hostile ==> SceneOf(vol) == old(SceneOf(vol))
      invariant forall i :: 0 <= i < k ==> fresh(ts[i])
      invariant NoDuplicates(pairs[..k]) && AllPrepared(Views(ts), pairs, vol.State(), vol.hostile)
      invariant AllFound(Views(ts), start, vol.log, |past|) && Current(start, |past|, SceneOf(vol))
      invariant |past| <= |vol.log| && Extends(past, vol.log) && AllForeign(vol.log, |past|)
    {
      hide AllPrepared;
      hide NoDuplicates;
      hide AllFound;
      hide Current;
      ghost var mid := vol.log;
      var t := PrepareNext(vol, ts, pairs, start, |past|);
      ExtendsAgain(past, mid, vol.log);
      ForeignAgain(|past|, mid, vol.log);
      if t.None? {
        return None;
      }
      ts := ts + [t.value];
    }
    assert pairs[..|pairs|] == pairs;
    return Some(ts);
  }

  /** Prepared targets are what publishing needs. */
  lemma ReadyToRun(ts: seq<Target>, pairs: seq<Pair>, vol: Volume)
    requires |ts| == |pairs| && NoDuplicates(pairs) && vol.Valid()
    requires AllPrepared(Views(ts), pairs, vol.State(), vol.hostile)
    ensures forall i :: 0 <= i < |ts| ==> ts[i].Usable(vol) && Unstaged(ts[i].Value())
    ensures !vol.hostile ==> Prepared(Views(ts), vol.State()) && Aims(pairs, Views(ts), vol.State())
  {
    forall i | 0 <= i < |ts|
      ensures Views(ts)[i] == ts[i].Value() && PreparedAs(Views(ts)[i], pairs[i], vol.State(), vol.hostile)
    {
    }
  }

  datatype Command = Verify | Publish

  datatype Report = Refused | Verified(matching: bool) | Ran(outcome: Outcome)

  method VerifyTargets(ts: seq<Target>, vol: Volume) returns (ok: bool)
    requires vol.Valid()
    modifies vol`slots, vol`objects, vol`log, vol`faults
    ensures vol.Valid() && vol.faults >= old(vol.faults) && (ok ==> vol.faults == old(vol.faults))
    ensures !vol.hostile ==> SceneOf(vol) == old(SceneOf(vol))
    ensures Extends(old(vol.log), vol.log) && AllForeign(vol.log, |old(vol.log)|)
    ensures !vol.hostile && ok ==> forall i :: 0 <= i < |ts| ==> Contains(vol.State(), ts[i].slot, ts[i].sourceBytes)
    ensures !vol.hostile && !ok ==>
      vol.faults > old(vol.faults) || exists i :: 0 <= i < |ts| && !Contains(vol.State(), ts[i].slot, ts[i].sourceBytes)
  {
    ok := true;
    ghost var past := vol.log;
    ExtendsItself(past);
    for i := 0 to |ts|
      invariant vol.Valid() && vol.faults == old(vol.faults)
      invariant !vol.hostile ==> SceneOf(vol) == old(SceneOf(vol))
      invariant Extends(past, vol.log) && AllForeign(vol.log, |past|)
      invariant !vol.hostile ==> forall j :: 0 <= j < i ==> Contains(vol.State(), ts[j].slot, ts[j].sourceBytes)
    {
      ghost var log := vol.log;
      vol.Interfere();
      MoreForeign(|past|, log, vol.log, vol.State());
      ExtendsAgain(past, log, vol.log);
      ok := ts[i].Verify(vol);
      if !ok { return; }
    }
  }

  /** What a run with no one else at work reports and leaves behind, and why it reports it; `failures`
      is how many calls have failed, or found a name taken that had to be free. */
  ghost predicate RunReport(pairs: seq<Pair>, goals: seq<View>, before: Disk, after: Disk, command: Command,
                            r: Report, process: string, failures: int) {
    match r
    case Refused =>
      && after == before
      && (failures > 0 || !NoDuplicates(pairs) || exists i :: 0 <= i < |pairs| && Unfit(before, pairs[i]))
    case Verified(matching) =>
      && command.Verify? && after == before && NoDuplicates(pairs) && Aims(pairs, goals, before)
      && (if matching
          then failures == 0 && forall i :: 0 <= i < |goals| ==> Contains(before, goals[i].slot, goals[i].source)
          else failures > 0 || exists i :: 0 <= i < |goals| && !Contains(before, goals[i].slot, goals[i].source))
    case Ran(outcome) =>
      && command.Publish? && NoDuplicates(pairs) && Aims(pairs, goals, before)
      && AllOrNothing(goals, before, after, outcome, process)
      && failures >= 0 && (outcome.Succeeded? <==> failures == 0)
      && (outcome.StageFailed? || outcome.PublishFailed? ==>
            failures > outcome.cleanupErrors && (failures == 1 ==> after.slots == before.slots))
  }

  /** One target for each pair, aiming at its destination with the bytes of its source. */
  ghost predicate Aims(pairs: seq<Pair>, goals: seq<View>, before: Disk) {
    |goals| == |pairs| && forall i :: 0 <= i < |pairs| ==>
      goals[i].slot == pairs[i].destination && Contains(before, pairs[i].source, goals[i].source)
  }

  /** Whatever the run did, what lost its last name in a step of its own was a file that another step
      of its own had made, or the old object of a destination, found there by the run and unaltered
      since. */
  ghost predicate TookOnlyItsOwn(goals: seq<View>, targets: seq<View>, before: Disk, past: nat, log: seq<Entry>) {
    && SameGoals(goals, targets) && Spares(targets, log, past)
    && AllMadeHere(targets, log, past) && AllFound(targets, before, log, past)
  }

  lemma NothingTakenYet(targets: seq<View>, before: Disk, past: nat, log: seq<Entry>)
    requires AllForeign(log, past) && AllFound(targets, before, log, past)
    requires forall i :: 0 <= i < |targets| ==> Unstaged(targets[i])
    ensures TookOnlyItsOwn(targets, targets, before, past, log)
  {
    hide AllFound;
  }

  /** What was found in the destinations before the run's own steps was found by the run. */
  lemma TakenSince(goals: seq<View>, targets: seq<View>, before: Disk, past: nat, earlier: seq<Entry>, log: seq<Entry>)
    requires AllForeign(earlier, past) && AllFound(goals, before, earlier, past) && Extends(earlier, log)
    requires SameGoals(goals, targets) && Spares(targets, log, |earlier|) && AllMadeHere(targets, log, |earlier|)
    ensures TookOnlyItsOwn(goals, targets, before, past, log)
  {
    StillFound(goals, before, earlier, log, past);
    SameGoalsFound(goals, targets, before, log, past);
    hide AllFound;
    forall k | 0 < k && past <= k < |log| ensures SparesAt(targets, log, k) {
      assert k < |earlier| ==> log[k] == log[..|earlier|][k];
    }
    forall i | 0 <= i < |targets| ensures MadeHere(targets[i].made, log, past) {
      assert MadeHere(targets[i].made, log, |earlier|);
    }
  }

  /** All or nothing, for every list of pairs and every pattern of failing calls. Whoever else is
      at work, the run removes only what is its own. `targets` are the targets as the run leaves
      them. */
  method Run(vol: Volume, command: Command, pairs: seq<Pair>)
    returns (r: Report, ghost goals: seq<View>, ghost targets: seq<View>, ghost commit: Commit)
    requires vol.Valid()
    modifies vol
    ensures vol.Valid() && Extends(old(vol.log), vol.log)
    ensures TookOnlyItsOwn(goals, targets, old(vol.State()), |old(vol.log)|, vol.log)
    ensures !vol.hostile ==>
      RunReport(pairs, goals, old(vol.State()), vol.State(), command, r, vol.process,
                vol.faults + vol.clashes - old(vol.faults) - old(vol.clashes))
    ensures !vol.hostile ==> Witnessed(goals, vol.log, |old(vol.log)|, vol.process, false)
    ensures !vol.hostile && r.Ran? ==>
      IsCommit(commit, goals, |old(vol.log)|, vol.log, vol.process, vol.State(), r.outcome)
  {
    hide Witnessed;
    hide AllOrNothing;
    hide Prepared;
    hide Aims;
    hide IsCommit;
    hide Unfit;
    hide AllForeign;
    hide TookOnlyItsOwn;
    hide Extends;
    hide Volume.Valid;
    ghost var start, past := vol.State(), vol.log;
    goals, targets, commit := [], [], Commit(0, vol.State());
    NothingWitnessed(goals, vol.log, vol.process);
    var prepared := PrepareAll(vol, pairs);
    if prepared.None? {
      NothingTakenYet(targets, start, |past|, vol.log);
      return Refused, goals, targets, commit;
    }
    hide AllPrepared;
    hide AllFound;
    var ts := prepared.value;
    goals, targets := Views(ts), Views(ts);
    ReadyToRun(ts, pairs, vol);
    NothingWitnessed(goals, vol.log, vol.process);
    hide AllMadeHere;
    hide Spares;
    hide SameGoals;
    ghost var log := vol.log;
    if command.Verify? {
      r := VerifyAndReport(ts, vol, pairs, goals);
      StillFound(goals, start, log, vol.log, |past|);
      ForeignAgain(|past|, log, vol.log);
      NothingTakenYet(goals, start, |past|, vol.log);
    } else {
      var outcome;
      outcome, commit := PublishTargets(ts, vol);
      targets := Views(ts);
      TakenSince(goals, targets, start, |past|, log, vol.log);
      r := Ran(outcome);
    }
    ExtendsAgain(past, log, vol.log);
  }

  method VerifyAndReport(ts: seq<Target>, vol: Volume, pairs: seq<Pair>, ghost goals: seq<View>) returns (r: Report)
    requires vol.Valid() && goals == Views(ts) && NoDuplicates(pairs)
    requires !vol.hostile ==> Aims(pairs, goals, vol.State())
    modifies vol`slots, vol`objects, vol`log, vol`faults
    ensures vol.Valid() && vol.faults >= old(vol.faults) && r.Verified?
    ensures !vol.hostile ==> SceneOf(vol) == old(SceneOf(vol))
    ensures Extends(old(vol.log), vol.log) && AllForeign(vol.log, |old(vol.log)|)
    ensures !vol.hostile ==>
      RunReport(pairs, goals, old(vol.State()), vol.State(), Verify, r, vol.process, vol.faults - old(vol.faults))
  {
    hide Volume.Valid;
    hide Aims;
    hide Extends;
    hide AllForeign;
    var ok := VerifyTargets(ts, vol);
    assert forall i :: 0 <= i < |ts| ==> goals[i] == ts[i].Value();
    if !vol.hostile && !ok && vol.faults == old(vol.faults) {
      ghost var i :| 0 <= i < |ts| && !Contains(vol.State(), ts[i].slot, ts[i].sourceBytes);
      assert !Contains(vol.State(), goals[i].slot, goals[i].source);
    }
    return Verified(ok);
  }

  lemma SameGoalsFound(goals: seq<View>, targets: seq<View>, start: Disk, log: seq<Entry>, from: nat)
    requires SameGoals(goals, targets) && AllFound(goals, start, log, from)
    ensures AllFound(targets, start, log, from)
  {
    forall i | 0 <= i < |targets| ensures FoundThere(targets[i], start, log, from) {
      assert FoundThere(goals[i], start, log, from);
    }
  }

  lemma NothingWitnessed(goals: seq<View>, log: seq<Entry>, process: string)
    ensures Witnessed(goals, log, |log|, process, false)
  {
  }
}
