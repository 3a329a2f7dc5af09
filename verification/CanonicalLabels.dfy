/** Byte strings in lexicographic order, and the canonical form of a list of labels. */
module CanonicalLabels {
  import opened Numbers

  predicate Less(a: Bytes, b: Bytes) {
    if b == [] then false
    else if a == [] then true
    else a[0] < b[0] || (a[0] == b[0] && Less(a[1..], b[1..]))
  }

  lemma {:induction false} LessIsTotal(a: Bytes, b: Bytes)
    ensures Less(a, b) || Less(b, a) || a == b
    ensures !(Less(a, b) && Less(b, a)) && !Less(a, a)
  {
    if a != [] && b != [] {
      LessIsTotal(a[1..], b[1..]);
      if a[0] == b[0] && a[1..] == b[1..] {
        assert a == [a[0]] + a[1..] && b == [b[0]] + b[1..];
      }
    }
    if a != [] {
      LessIsTotal(a[1..], a[1..]);
    }
  }

  lemma {:induction false} LessIsTransitive(a: Bytes, b: Bytes, c: Bytes)
    requires Less(a, b) && Less(b, c)
    ensures Less(a, c)
  {
    if a != [] && a[0] == b[0] && b[0] == c[0] {
      LessIsTransitive(a[1..], b[1..], c[1..]);
    }
  }

  type Labels = seq<Bytes>

  /** Each neighbour is strictly below the next: in order, and none repeated. */
  predicate Ascending(ls: Labels) {
    forall i :: 0 <= i < |ls| - 1 ==> Less(ls[i], ls[i + 1])
  }

  predicate InOrder(ls: Labels) {
    forall i :: 0 <= i < |ls| - 1 ==> !Less(ls[i + 1], ls[i])
  }

  ghost function Members(ls: Labels): set<Bytes> {
    set l | l in ls
  }

  // -------------------------------------------------------------- sort and deduplicate

  function Insert(x: Bytes, ls: Labels): Labels {
    if ls == [] || Less(x, ls[0]) then [x] + ls else [ls[0]] + Insert(x, ls[1..])
  }

  function Sorted(ls: Labels): Labels {
    if ls == [] then [] else Insert(ls[0], Sorted(ls[1..]))
  }

  /** Of equal neighbours only the first stays. */
  function Distinct(ls: Labels): Labels
    decreases |ls|
  {
    if |ls| < 2 then ls
    else if ls[0] == ls[1] then Distinct([ls[0]] + ls[2..])
    else [ls[0]] + Distinct(ls[1..])
  }

  function CanonicalForm(ls: Labels): Labels {
    Distinct(Sorted(ls))
  }

  lemma {:induction false} InsertKeepsOrder(x: Bytes, ls: Labels)
    requires InOrder(ls)
    ensures InOrder(Insert(x, ls)) && multiset(Insert(x, ls)) == multiset{x} + multiset(ls)
    ensures Insert(x, ls)[0] == x || (ls != [] && Insert(x, ls)[0] == ls[0])
  {
    if ls == [] {
    } else if Less(x, ls[0]) {
      LessIsTotal(x, ls[0]);
      assert forall i :: 1 <= i < |ls| ==> ([x] + ls)[i] == ls[i - 1];
    } else {
      assert ls == [ls[0]] + ls[1..];
      InsertKeepsOrder(x, ls[1..]);
      var r := Insert(x, ls[1..]);
      assert r[0] == x || r[0] == ls[1];
      assert forall i :: 1 <= i < |r| + 1 ==> ([ls[0]] + r)[i] == r[i - 1];
    }
  }

  lemma {:induction false} SortedIsInOrder(ls: Labels)
    ensures InOrder(Sorted(ls)) && multiset(Sorted(ls)) == multiset(ls)
  {
    if ls != [] {
      assert ls == [ls[0]] + ls[1..];
      SortedIsInOrder(ls[1..]);
      InsertKeepsOrder(ls[0], Sorted(ls[1..]));
    }
  }

  lemma MembersOfCons(x: Bytes, ls: Labels)
    ensures Members([x] + ls) == {x} + Members(ls)
    ensures ls != [] ==> ls[0] in Members(ls)
  {
  }

  lemma {:induction false} DistinctIsAscending(ls: Labels)
    requires InOrder(ls)
    ensures Ascending(Distinct(ls)) && Members(Distinct(ls)) == Members(ls)
    ensures ls != [] ==> Distinct(ls) != [] && Distinct(ls)[0] == ls[0]
    decreases |ls|
  {
    if |ls| >= 2 {
      if ls[0] == ls[1] {
        var shorter := [ls[0]] + ls[2..];
        assert shorter == ls[1..];
        DistinctIsAscending(shorter);
        MembersOfCons(ls[0], ls[1..]);
        assert ls == [ls[0]] + ls[1..];
      } else {
        DistinctIsAscending(ls[1..]);
        LessIsTotal(ls[0], ls[1]);
        var r := Distinct(ls[1..]);
        MembersOfCons(ls[0], ls[1..]);
        MembersOfCons(ls[0], r);
        assert ls == [ls[0]] + ls[1..];
        assert forall i :: 1 <= i < |r| + 1 ==> ([ls[0]] + r)[i] == r[i - 1];
      }
    }
  }

  /** The canonical form has the same labels, in strictly ascending order. */
  lemma CanonicalFormIsAscending(ls: Labels)
    ensures Ascending(CanonicalForm(ls)) && Members(CanonicalForm(ls)) == Members(ls)
  {
    SortedIsInOrder(ls);
    DistinctIsAscending(Sorted(ls));
    assert forall l :: l in ls <==> l in multiset(ls);
    assert forall l :: l in Sorted(ls) <==> l in multiset(Sorted(ls));
  }

  lemma {:induction false} FirstIsLeast(ls: Labels, i: nat)
    requires Ascending(ls) && 0 < i < |ls|
    ensures Less(ls[0], ls[i])
  {
    if i > 1 {
      FirstIsLeast(ls, i - 1);
      LessIsTransitive(ls[0], ls[i - 1], ls[i]);
    }
  }

  /** A set of labels has only one strictly ascending list. */
  lemma {:induction false} AscendingIsUnique(a: Labels, b: Labels)
    requires Ascending(a) && Ascending(b) && Members(a) == Members(b)
    ensures a == b
  {
    if a == [] || b == [] {
      MembersOfCons([], a);
      MembersOfCons([], b);
    } else {
      assert a[0] in Members(b) && b[0] in Members(a);
      var i :| 0 <= i < |b| && b[i] == a[0];
      var j :| 0 <= j < |a| && a[j] == b[0];
      if i > 0 { FirstIsLeast(b, i); }
      if j > 0 { FirstIsLeast(a, j); }
      LessIsTotal(a[0], b[0]);
      TailMembers(a);
      TailMembers(b);
      AscendingIsUnique(a[1..], b[1..]);
      assert a == [a[0]] + a[1..] && b == [b[0]] + b[1..];
    }
  }

  lemma TailMembers(a: Labels)
    requires a != [] && Ascending(a)
    ensures Members(a[1..]) == Members(a) - {a[0]} && Ascending(a[1..])
  {
    forall l | l in a[1..] ensures l != a[0] {
      var i :| 0 <= i < |a[1..]| && a[1..][i] == l;
      FirstIsLeast(a, i + 1);
      LessIsTotal(a[0], l);
    }
    assert a == [a[0]] + a[1..];
  }

  /** Two lists have the same canonical form exactly when they differ only in order and repetition. */
  lemma CanonicalFormIdentifies(a: Labels, b: Labels)
    ensures CanonicalForm(a) == CanonicalForm(b) <==> Members(a) == Members(b)
  {
    CanonicalFormIsAscending(a);
    CanonicalFormIsAscending(b);
    if Members(a) == Members(b) {
      AscendingIsUnique(CanonicalForm(a), CanonicalForm(b));
    }
  }

  lemma CanonicalFormIsIdempotent(ls: Labels)
    requires Ascending(ls)
    ensures CanonicalForm(ls) == ls
  {
    CanonicalFormIsAscending(ls);
    AscendingIsUnique(CanonicalForm(ls), ls);
  }

  // ----------------------------------------------------------------- the loops

  lemma {:induction false} DistinctGrows(ls: Labels, x: Bytes)
    ensures Distinct(ls + [x]) == if ls != [] && ls[|ls| - 1] == x then Distinct(ls) else Distinct(ls) + [x]
    decreases |ls|
  {
    if |ls| == 1 {
      assert ls + [x] == [ls[0], x];
    } else if |ls| >= 2 {
      assert (ls + [x])[1..] == ls[1..] + [x];
      assert [ls[0]] + (ls + [x])[2..] == ([ls[0]] + ls[2..]) + [x];
      if ls[0] == ls[1] {
        DistinctGrows([ls[0]] + ls[2..], x);
      } else {
        DistinctGrows(ls[1..], x);
      }
    }
  }

  /** Keeps a label only when it differs from the one kept last. */
  method SortAndDeduplicate(labels: Labels) returns (result: Labels)
    ensures result == CanonicalForm(labels)
    ensures Ascending(result) && Members(result) == Members(labels)
  {
    var sorted := Sorted(labels);
    result := [];
    var first, previous := true, [];
    for i := 0 to |sorted|
      invariant result == Distinct(sorted[..i])
      invariant first <==> i == 0
      invariant i > 0 ==> previous == sorted[i - 1]
    {
      var bytes := sorted[i];
      DistinctGrows(sorted[..i], bytes);
      assert sorted[..i + 1] == sorted[..i] + [bytes];
      if first || bytes != previous {
        result := result + [bytes];
        first, previous := false, bytes;
      }
    }
    assert sorted[..|sorted|] == sorted;
    CanonicalFormIsAscending(labels);
  }

  /** Compares every neighbouring pair. */
  method AllAscending(labels: Labels) returns (ok: bool)
    ensures ok <==> Ascending(labels)
  {
    var i := 1;
    while i < |labels|
      invariant 1 <= i
      invariant forall j :: 0 <= j < i - 1 && j < |labels| - 1 ==> Less(labels[j], labels[j + 1])
    {
      if !Less(labels[i - 1], labels[i]) {
        return false;
      }
      i := i + 1;
    }
    return true;
  }
}
