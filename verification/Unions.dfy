/** Which rows a batch can bring together. For any list of merges that point up the planner's order: some
    order of the list leaves two rows in one class exactly when the merges lead from both to one row. */
module Unions {
  import opened Basics
  import opened Identity
  import opened IdentityRuns
  import opened DedupPlan
  import opened DedupApply
  import opened ListOrder

  /** `p` is an order of the list, and running it leaves the two rows in one class. */
  ghost predicate Unites(s: State, ms: seq<Arrow>, x: Id, y: Id, p: seq<Arrow>, s': State) {
    Permutes(ms, p) && Applied(s, p, s') && x in s'.ents && y in s'.ents && SameClass(s', x, y)
  }

  ghost predicate MayUnite(s: State, ms: seq<Arrow>, x: Id, y: Id) {
    exists p, s' :: Unites(s, ms, x, y, p, s')
  }

  // ----- climbs -----

  ghost predicate StepUp(ms: seq<Arrow>, c: seq<Id>, i: int)
    requires 0 < i < |c|
  {
    Arrow(c[i - 1], c[i]) in ms
  }

  /** A way from loser to winner, merge by merge. */
  ghost predicate Climb(ms: seq<Arrow>, c: seq<Id>) {
    c != [] && forall i :: 0 < i < |c| ==> StepUp(ms, c, i)
  }

  ghost predicate IsClimb(ms: seq<Arrow>, x: Id, z: Id, c: seq<Id>) {
    Climb(ms, c) && c[0] == x && c[|c| - 1] == z
  }

  ghost predicate LeadsTo(ms: seq<Arrow>, x: Id, z: Id) {
    exists c :: IsClimb(ms, x, z, c)
  }

  /** The merges lead from both rows to one row, which may be one of the two. */
  ghost predicate MeetAbove(ms: seq<Arrow>, x: Id, y: Id) {
    exists z: Id :: LeadsTo(ms, x, z) && LeadsTo(ms, y, z)
  }

  lemma StaysPut(ms: seq<Arrow>, x: Id)
    ensures LeadsTo(ms, x, x)
  {
    assert IsClimb(ms, x, x, [x]);
  }

  lemma OneStepOn(ms: seq<Arrow>, x: Id, l: Id, w: Id)
    requires LeadsTo(ms, x, l) && Arrow(l, w) in ms
    ensures LeadsTo(ms, x, w)
  {
    var c :| IsClimb(ms, x, l, c);
    forall i | 0 < i < |c + [w]|
      ensures StepUp(ms, c + [w], i)
    {
      if i < |c| { assert StepUp(ms, c, i); }
    }
    assert IsClimb(ms, x, w, c + [w]);
  }

  lemma SameClimbs(ms: seq<Arrow>, other: seq<Arrow>, x: Id, z: Id)
    requires (forall a :: a in ms ==> a in other) && LeadsTo(ms, x, z)
    ensures LeadsTo(other, x, z)
  {
    var c :| IsClimb(ms, x, z, c);
    forall i | 0 < i < |c|
      ensures StepUp(other, c, i)
    {
      assert StepUp(ms, c, i);
    }
    assert IsClimb(other, x, z, c);
  }

  /** A row that loses to no one leads nowhere. */
  lemma LeadsNowhere(ms: seq<Arrow>, x: Id, z: Id)
    requires NeverLoses(ms, x) && LeadsTo(ms, x, z)
    ensures z == x
  {
    var c :| IsClimb(ms, x, z, c);
    assert |c| > 1 ==> StepUp(ms, c, 1);
  }

  /** Each row of a climb beats those before it. */
  lemma {:induction false} ClimbAscends(ents: map<Id, Ent>, ms: seq<Arrow>, c: seq<Id>, i: nat, j: nat)
    requires Uphill(ents, ms) && Climb(ms, c) && c[0] in ents && i <= j < |c|
    ensures c[i] in ents && c[j] in ents && ents[c[i]].names.kind == ents[c[j]].names.kind
    ensures i < j ==> Beats(ents, c[j], c[i]) && c[i] != c[j]
    decreases j
  {
    if j == 0 {
    } else {
      assert StepUp(ms, c, j);
      var k :| 0 <= k < |ms| && ms[k] == Arrow(c[j - 1], c[j]);
      ClimbAscends(ents, ms, c, if i < j then i else j - 1, j - 1);
      BeatsIsStrictTotalOrder(ents, c[j], c[j - 1], c[i]);
      BeatsIsStrictTotalOrder(ents, c[i], c[j], c[i]);
    }
  }

  // ----- only if -----

  /** Wherever a row of the plan stands while a list runs, the merges lead there. */
  lemma {:induction false} ClassesClimb(base: map<Id, Option<Id>>, s: State, ms: seq<Arrow>, n: nat, t: State, x: Id)
    requires Inv(base, s) && n <= |ms| && Applied(s, ms[..n], t) && Live(s, x)
    ensures Inv(base, t) && x in t.ents && LeadsTo(ms, x, Survivor(t, x))
    decreases n
  {
    if n == 0 {
      StaysPut(ms, x);
    } else {
      var before, order := LastMerge(s, ms, n, t);
      ClassesClimb(base, s, ms, n - 1, before, x);
      var l, w := ms[n - 1].loser, ms[n - 1].winner;
      StepKeepsInv(base, before, DoMerge(l, w, order));
      if MergeCheck(before, l, w).None? {
        MergeUnitesTwoClasses(before, l, w, order, x, x);
        if SameClass(before, x, l) { OneStepOn(ms, x, l, w); }
      }
    }
  }

  lemma UnitedMeet(base: map<Id, Option<Id>>, s: State, ms: seq<Arrow>, x: Id, y: Id, p: seq<Arrow>, s': State)
    requires Inv(base, s) && Live(s, x) && Live(s, y) && Unites(s, ms, x, y, p, s')
    ensures MeetAbove(ms, x, y)
  {
    assert p[..|p|] == p;
    ClassesClimb(base, s, p, |p|, s', x);
    ClassesClimb(base, s, p, |p|, s', y);
    PermutedHasSame(ms, p);
    SameClimbs(p, ms, x, Survivor(s', x));
    SameClimbs(p, ms, y, Survivor(s', y));
  }

  // ----- if -----

  /** The merges of a climb, lowest first. */
  function Steps(c: seq<Id>): (r: seq<Arrow>)
    requires c != []
    ensures |r| == |c| - 1 && forall i :: 0 <= i < |r| ==> r[i] == Arrow(c[i], c[i + 1])
  {
    seq(|c| - 1, i requires 0 <= i < |c| - 1 => Arrow(c[i], c[i + 1]))
  }

  /** Different live rows of one kind. */
  ghost predicate Mergeable(s: State, c: seq<Id>) {
    && c != [] && c[0] in s.ents
    && (forall i :: 0 <= i < |c| ==> Live(s, c[i]) && s.ents[c[i]].kind == s.ents[c[0]].kind)
    && forall i, j :: 0 <= i < j < |c| ==> c[i] != c[j]
  }

  /** A list keeps every row and its kind. */
  lemma {:induction false} KeepsRows(s: State, ms: seq<Arrow>, t: State)
    requires Applied(s, ms, t)
    ensures SameRows(s, t)
    decreases |ms|
  {
    if ms == [] {
    } else {
      var n := |ms| - 1;
      var before, order :| && Applied(s, ms[..n], before) && Legal(before, DoMerge(ms[n].loser, ms[n].winner, order))
                           && t == Apply(before, DoMerge(ms[n].loser, ms[n].winner, order));
      KeepsRows(s, ms[..n], before);
      if MergeCheck(before, ms[n].loser, ms[n].winner).None? {
        StepKeepsRows(s, before, ms[n].loser, ms[n].winner, order);
      }
    }
  }

  ghost predicate AllAt(t: State, c: seq<Id>, z: Id) {
    forall i :: 0 <= i < |c| ==> c[i] in t.ents && Survivor(t, c[i]) == z
  }

  /** Running a climb takes every row on it to its end. */
  lemma {:induction false} RunClimb(base: map<Id, Option<Id>>, s: State, c: seq<Id>) returns (t: State)
    requires Inv(base, s) && Mergeable(s, c)
    ensures Applied(s, Steps(c), t) && Inv(base, t) && AllAt(t, c, c[|c| - 1])
    decreases |c|
  {
    if |c| == 1 {
      t := s;
    } else {
      var s1 := FirstStep(base, s, c);
      t := RunClimb(base, s1, c[1..]);
      KeepsTogether(base, s1, Steps(c[1..]), t, c[0], c[1]);
      AppliedConcat(s, [Arrow(c[0], c[1])], s1, Steps(c[1..]), t);
      FirstJoins(t, c);
    }
  }

  lemma FirstJoins(t: State, c: seq<Id>)
    requires |c| > 1 && AllAt(t, c[1..], c[|c| - 1]) && c[0] in t.ents && c[1] in t.ents && SameClass(t, c[0], c[1])
    ensures AllAt(t, c, c[|c| - 1]) && Steps(c) == [Arrow(c[0], c[1])] + Steps(c[1..])
  {
    assert Survivor(t, c[1..][0]) == c[|c| - 1];
    assert forall i :: 0 < i < |c| ==> c[i] == c[1..][i - 1];
  }

  lemma FirstStep(base: map<Id, Option<Id>>, s: State, c: seq<Id>) returns (s1: State)
    requires Inv(base, s) && Mergeable(s, c) && |c| > 1
    ensures Applied(s, [Arrow(c[0], c[1])], s1) && Inv(base, s1) && s1.ents.Keys == s.ents.Keys
    ensures Mergeable(s1, c[1..]) && SameClass(s1, c[0], c[1])
  {
    var order := Listing(Orphans(s, c[0]));
    s1 := Merge(s, c[0], c[1], order);
    MergeKeepsInv(base, s, c[0], c[1], order);
    MergeUnitesTwoClasses(s, c[0], c[1], order, c[0], c[1]);
    AppliedOne(s, c[0], c[1], order);
  }

  lemma ClimbIsMergeable(s: State, ents: map<Id, Ent>, ms: seq<Arrow>, c: seq<Id>)
    requires Uphill(ents, ms) && Loaded(s, ents) && Climb(ms, c) && c[0] in ents
    ensures Mergeable(s, c)
  {
    forall i | 0 <= i < |c|
      ensures Live(s, c[i]) && s.ents[c[i]].kind == s.ents[c[0]].kind
    {
      ClimbAscends(ents, ms, c, 0, i);
    }
    forall i, j | 0 <= i < j < |c|
      ensures c[i] != c[j]
    {
      ClimbAscends(ents, ms, c, i, j);
    }
  }

  /** Where a climb first meets another. */
  lemma {:induction false} FirstMeeting(q: seq<Id>, p: seq<Id>, n: nat) returns (j: nat)
    requires n < |q| && q[n] in p
    ensures j <= n && q[j] in p && forall i :: 0 <= i < j ==> q[i] !in p
    decreases n
  {
    if i: nat :| i < n && q[i] in p {
      j := FirstMeeting(q, p, i);
    } else {
      j := n;
    }
  }

  /** Two climbs of which the second only ends on the first, run one after the other. */
  lemma RunBoth(base: map<Id, Option<Id>>, s: State, p: seq<Id>, q: seq<Id>) returns (t: State)
    requires Inv(base, s) && Mergeable(s, p) && Mergeable(s, q)
    requires q[|q| - 1] in p && forall i :: 0 <= i < |q| - 1 ==> q[i] !in p
    ensures Applied(s, Steps(q) + Steps(p), t) && Inv(base, t) && p[0] in t.ents && q[0] in t.ents
    ensures SameClass(t, p[0], q[0])
  {
    var t1 := RunClimb(base, s, q);
    KeepsRows(s, Steps(q), t1);
    forall i | 0 <= i < |p|
      ensures Live(t1, p[i])
    {
      NeverLosing(base, s, Steps(q), t1, p[i]);
    }
    t := RunClimb(base, t1, p);
    KeepsTogether(base, t1, Steps(p), t, q[0], q[|q| - 1]);
    var i :| 0 <= i < |p| && p[i] == q[|q| - 1];
    AppliedConcat(s, Steps(q), t1, Steps(p), t);
  }

  ghost predicate NoRepeats(list: seq<Arrow>) {
    forall i, j :: 0 <= i < j < |list| ==> list[i] != list[j]
  }

  /** A list can be rearranged to start with any of its arrows. */
  lemma {:induction false} StartWith(ms: seq<Arrow>, list: seq<Arrow>) returns (rest: seq<Arrow>)
    requires NoRepeats(list) && forall a :: a in list ==> a in ms
    ensures Permutes(ms, list + rest)
    decreases |list|
  {
    if list == [] {
      rest := ms;
      assert list + rest == ms;
    } else {
      var others := FirstPermutes(ms, list[0]);
      rest := StartWith(others, list[1..]);
      assert list + rest == [list[0]] + (list[1..] + rest);
    }
  }

  lemma BothAreThere(ms: seq<Arrow>, p: seq<Id>, q: seq<Id>)
    requires Climb(ms, p) && Climb(ms, q) && forall i :: 0 <= i < |q| - 1 ==> q[i] !in p
    requires (forall i, j :: 0 <= i < j < |p| ==> p[i] != p[j]) && forall i, j :: 0 <= i < j < |q| ==> q[i] != q[j]
    ensures NoRepeats(Steps(q) + Steps(p)) && forall a :: a in Steps(q) + Steps(p) ==> a in ms
  {
    forall i | 0 <= i < |Steps(p)|
      ensures Steps(p)[i] in ms && Steps(p)[i].loser in p
    {
      assert StepUp(ms, p, i + 1);
    }
    forall i | 0 <= i < |Steps(q)|
      ensures Steps(q)[i] in ms
    {
      assert StepUp(ms, q, i + 1);
    }
  }

  lemma MeetersUnite(base: map<Id, Option<Id>>, s: State, ents: map<Id, Ent>, ms: seq<Arrow>, x: Id, y: Id)
    returns (order: seq<Arrow>, s': State)
    requires Inv(base, s) && Uphill(ents, ms) && Loaded(s, ents) && x in ents && y in ents && MeetAbove(ms, x, y)
    ensures Unites(s, ms, x, y, order, s')
  {
    var z: Id :| LeadsTo(ms, x, z) && LeadsTo(ms, y, z);
    var p :| IsClimb(ms, x, z, p);
    var whole :| IsClimb(ms, y, z, whole);
    var j := FirstMeeting(whole, p, |whole| - 1);
    var q := whole[..j + 1];
    forall i | 0 < i < |q|
      ensures StepUp(ms, q, i)
    {
      assert StepUp(ms, whole, i);
    }
    ClimbIsMergeable(s, ents, ms, p);
    ClimbIsMergeable(s, ents, ms, q);
    var t := RunBoth(base, s, p, q);
    BothAreThere(ms, p, q);
    var rest := StartWith(ms, Steps(q) + Steps(p));
    s' := SomeRun(t, rest);
    KeepsTogether(base, t, rest, s', x, y);
    AppliedConcat(s, Steps(q) + Steps(p), t, rest, s');
    order := Steps(q) + Steps(p) + rest;
  }

  /** Main result: for every list of merges that point up the planner's order, some order of the list
      leaves `x` and `y` in one class if and only if the merges lead from both to one row. */
  lemma MayUniteIff(base: map<Id, Option<Id>>, s: State, ents: map<Id, Ent>, ms: seq<Arrow>, x: Id, y: Id)
    requires Inv(base, s) && Uphill(ents, ms) && Loaded(s, ents) && x in ents && y in ents
    ensures MayUnite(s, ms, x, y) <==> MeetAbove(ms, x, y)
  {
    if MeetAbove(ms, x, y) {
      var p, s' := MeetersUnite(base, s, ents, ms, x, y);
    }
    if p, s' :| Unites(s, ms, x, y, p, s') {
      UnitedMeet(base, s, ms, x, y, p, s');
    }
  }
}
