/** Applying a dedup plan to the identity machine: each clique of surviving merges collapses onto its
    top member whatever the list order. */
module DedupApply {
  import opened Basics
  import opened Identity
  import opened IdentityRuns
  import opened Scoring
  import opened ScoringAgrees
  import opened DedupPlan
  import opened IdentityStore
  import opened QueueCap

  datatype Arrow = Arrow(loser: Id, winner: Id)

  function Arrows(ms: seq<Proposal>): (r: seq<Arrow>)
    ensures |r| == |ms| && forall i :: 0 <= i < |ms| ==> r[i] == Arrow(ms[i].loser, ms[i].winner)
  {
    seq(|ms|, i requires 0 <= i < |ms| => Arrow(ms[i].loser, ms[i].winner))
  }

  /** Run the merges in list order, skipping those whose guards fail. */
  ghost predicate Applied(s: State, ms: seq<Arrow>, s': State)
    decreases |ms|
  {
    if ms == [] then s' == s
    else
      var m := ms[|ms| - 1];
      exists t, order ::
        && Applied(s, ms[..|ms| - 1], t)
        && Legal(t, DoMerge(m.loser, m.winner, order))
        && s' == Apply(t, DoMerge(m.loser, m.winner, order))
  }

  function LiveRows(s: State): set<Id> {
    set e | e in s.ents && s.ents[e].mergedInto.None?
  }

  lemma MergeRetiresOne(s: State, l: Id, w: Id, order: seq<Id>)
    requires MergeCheck(s, l, w).None?
    ensures LiveRows(Merge(s, l, w, order)) == LiveRows(s) - {l} && l in LiveRows(s)
  {
  }

  lemma AppliedOneMore(s: State, ms: seq<Arrow>, n: nat, t: State, order: seq<Id>)
    requires n < |ms| && Applied(s, ms[..n], t) && Legal(t, DoMerge(ms[n].loser, ms[n].winner, order))
    ensures Applied(s, ms[..n + 1], Apply(t, DoMerge(ms[n].loser, ms[n].winner, order)))
  {
    assert ms[..n + 1][..n] == ms[..n];
  }

  /** _apply_merges: one transaction per merge, already-merged errors skipped. Each merge it counts
      retires exactly one live row. */
  method ApplyMerges(db: Tables, merges: seq<Proposal>) returns (merged: nat)
    modifies db
    ensures Applied(old(db.Now()), Arrows(merges), db.Now())
    ensures |LiveRows(db.Now())| + merged == |LiveRows(old(db.Now()))|
  {
    merged := 0;
    ghost var start, arrows := db.Now(), Arrows(merges);
    for i := 0 to |merges|
      invariant Applied(start, arrows[..i], db.Now())
      invariant |LiveRows(db.Now())| + merged == |LiveRows(start)|
    {
      ghost var t := db.Now();
      var l, w := merges[i].loser, merges[i].winner;
      var r := db.MergeEntities(l, w);
      if r.Ok? {
        ghost var order :| Enumerates(order, Orphans(t, l)) && db.Now() == Merge(t, l, w, order);
        AppliedOneMore(start, arrows, i, t, order);
        MergeRetiresOne(t, l, w, order);
        merged := merged + 1;
      } else {
        assert MergeCheck(t, l, w).Some?;
        AppliedOneMore(start, arrows, i, t, []);
      }
    }
    assert arrows[..|merges|] == arrows;
  }

  /** Insert the queued pairs one after the other. */
  function QueueAll(s: State, queue: seq<Queued>): State {
    if queue == [] then s
    else
      var n := |queue| - 1;
      QueuePair(QueueAll(s, queue[..n]), queue[n].a, queue[n].b)
  }

  /** _apply_queue, counting the rows that are new. */
  method ApplyQueue(db: Tables, queue: seq<Queued>) returns (queued: nat)
    modifies db
    ensures db.Now() == QueueAll(old(db.Now()), queue)
    ensures |db.cand| == |old(db.cand)| + queued
  {
    queued := 0;
    ghost var start := db.Now();
    for i := 0 to |queue|
      invariant db.Now() == QueueAll(start, queue[..i])
      invariant |db.cand| == |start.cand| + queued
    {
      assert queue[..i + 1][..i] == queue[..i];
      var inserted := db.InsertCandidate(queue[i].a, queue[i].b);
      if inserted { queued := queued + 1; }
    }
    assert queue[..|queue|] == queue;
  }

  /** Every queued pair ends up with a row; a row that exists, whatever was decided about it, keeps its
      status; nothing else is touched. */
  lemma {:induction false} QueueingKeepsVerdicts(s: State, queue: seq<Queued>, p: Pair)
    ensures var s' := QueueAll(s, queue);
            && s'.ents == s.ents && s'.log == s.log
            && (p in s'.cand <==> p in s.cand || exists q :: q in queue && PairOf(q.a, q.b) == p)
            && (p in s'.cand ==> s'.cand[p] == if p in s.cand then s.cand[p] else Pending)
  {
    if queue == [] {
    } else {
      var n := |queue| - 1;
      QueueingKeepsVerdicts(s, queue[..n], p);
      assert queue == queue[..n] + [queue[n]];
      if q :| q in queue && PairOf(q.a, q.b) == p {
        assert q in queue[..n] || q == queue[n];
      }
    }
  }

  // ----- cliques -----

  predicate Links(a: Arrow, x: Id, y: Id) {
    (a.loser == x && a.winner == y) || (a.loser == y && a.winner == x)
  }

  ghost predicate Linked(ms: seq<Arrow>, x: Id, y: Id) {
    exists i :: 0 <= i < |ms| && Links(ms[i], x, y)
  }

  /** The merges form disjoint cliques. */
  ghost predicate Cliques(ms: seq<Arrow>) {
    forall x: Id, y: Id, z: Id :: x != z && Linked(ms, x, y) && Linked(ms, y, z) ==> Linked(ms, x, z)
  }

  /** Each merge points up the order, between known entities of one kind. */
  ghost predicate Uphill(ents: map<Id, Ent>, ms: seq<Arrow>) {
    forall i :: 0 <= i < |ms| ==>
      && ms[i].loser in ents && ms[i].winner in ents && Beats(ents, ms[i].winner, ms[i].loser)
      && ents[ms[i].loser].names.kind == ents[ms[i].winner].names.kind
  }

  /** The planner worked on live rows of the table. */
  ghost predicate Loaded(s: State, ents: map<Id, Ent>) {
    forall e :: e in ents ==> Live(s, e) && s.ents[e].kind == ents[e].names.kind
  }

  /** `m` beats every row it is to merge with. */
  ghost predicate IsTop(ents: map<Id, Ent>, ms: seq<Arrow>, m: Id) {
    forall y: Id :: Linked(ms, m, y) ==> m in ents && y in ents && Beats(ents, m, y)
  }

  // ----- what holds while the list is applied -----

  ghost predicate SameRows(s: State, t: State) {
    && t.ents.Keys == s.ents.Keys
    && forall e :: e in s.ents ==> t.ents[e].kind == s.ents[e].kind && (Live(t, e) ==> Live(s, e))
  }

  /** A row the list has retired points at a partner of its own. */
  ghost predicate PointersInClique(s: State, ms: seq<Arrow>, t: State) {
    forall e :: Live(s, e) && e in t.ents && !Live(t, e) ==> Linked(ms, e, t.ents[e].mergedInto.value)
  }

  ghost predicate TopsLive(s: State, ents: map<Id, Ent>, ms: seq<Arrow>, t: State) {
    forall e :: Live(s, e) && IsTop(ents, ms, e) ==> Live(t, e)
  }

  /** Of each merge already run, one side is retired. */
  ghost predicate RunSoFar(ms: seq<Arrow>, n: nat, t: State)
    requires n <= |ms|
  {
    forall i :: 0 <= i < n ==> !Live(t, ms[i].loser) || !Live(t, ms[i].winner)
  }

  ghost predicate Midway(base: map<Id, Option<Id>>, s: State, ents: map<Id, Ent>, ms: seq<Arrow>, n: nat, t: State)
    requires n <= |ms|
  {
    Inv(base, t) && SameRows(s, t) && PointersInClique(s, ms, t) && TopsLive(s, ents, ms, t) && RunSoFar(ms, n, t)
  }

  lemma StepKeepsPointers(s: State, ms: seq<Arrow>, t: State, l: Id, w: Id, order: seq<Id>)
    requires Cliques(ms) && Linked(ms, l, w) && MergeCheck(t, l, w).None? && PointersInClique(s, ms, t)
    ensures PointersInClique(s, ms, Merge(t, l, w, order))
  {
  }

  lemma StepKeepsTops(s: State, ents: map<Id, Ent>, ms: seq<Arrow>, t: State, l: Id, w: Id, order: seq<Id>)
    requires Linked(ms, l, w) && l in ents && w in ents && Beats(ents, w, l)
    requires MergeCheck(t, l, w).None? && TopsLive(s, ents, ms, t)
    ensures TopsLive(s, ents, ms, Merge(t, l, w, order))
  {
  }

  lemma StepKeepsRun(ms: seq<Arrow>, n: nat, t: State, order: seq<Id>)
    requires n < |ms| && RunSoFar(ms, n, t) && MergeCheck(t, ms[n].loser, ms[n].winner).None?
    ensures RunSoFar(ms, n + 1, Merge(t, ms[n].loser, ms[n].winner, order))
  {
  }

  /** A merge is skipped only because one of its sides is already retired. */
  lemma SkippedIsRetired(s: State, ents: map<Id, Ent>, ms: seq<Arrow>, n: nat, t: State)
    requires n < |ms| && Uphill(ents, ms) && Loaded(s, ents) && SameRows(s, t) && RunSoFar(ms, n, t)
    requires MergeCheck(t, ms[n].loser, ms[n].winner).Some?
    ensures RunSoFar(ms, n + 1, t)
  {
  }

  lemma MidwayStep(base: map<Id, Option<Id>>, s: State, ents: map<Id, Ent>, ms: seq<Arrow>, n: nat, t: State,
                   order: seq<Id>)
    requires n < |ms| && Cliques(ms) && Uphill(ents, ms) && Loaded(s, ents) && Midway(base, s, ents, ms, n, t)
    requires Legal(t, DoMerge(ms[n].loser, ms[n].winner, order))
    ensures Midway(base, s, ents, ms, n + 1, Apply(t, DoMerge(ms[n].loser, ms[n].winner, order)))
  {
    var l, w := ms[n].loser, ms[n].winner;
    if MergeCheck(t, l, w).None? {
      assert Links(ms[n], l, w);
      MergeKeepsInv(base, t, l, w, order);
      StepKeepsRows(s, t, l, w, order);
      StepKeepsPointers(s, ms, t, l, w, order);
      StepKeepsTops(s, ents, ms, t, l, w, order);
      StepKeepsRun(ms, n, t, order);
    } else {
      SkippedIsRetired(s, ents, ms, n, t);
    }
  }

  lemma StepKeepsRows(s: State, t: State, l: Id, w: Id, order: seq<Id>)
    requires SameRows(s, t) && MergeCheck(t, l, w).None?
    ensures SameRows(s, Merge(t, l, w, order))
  {
  }

  lemma {:induction false} AppliedMidway(base: map<Id, Option<Id>>, s: State, ents: map<Id, Ent>, ms: seq<Arrow>,
                                         n: nat, t: State)
    requires Inv(base, s) && n <= |ms| && Cliques(ms) && Uphill(ents, ms) && Loaded(s, ents) && Applied(s, ms[..n], t)
    ensures Midway(base, s, ents, ms, n, t)
    decreases n
  {
    if n == 0 {
    } else {
      var part := ms[..n];
      assert part[..n - 1] == ms[..n - 1] && part[n - 1] == ms[n - 1];
      var before, order :| && Applied(s, part[..n - 1], before)
                           && Legal(before, DoMerge(ms[n - 1].loser, ms[n - 1].winner, order))
                           && t == Apply(before, DoMerge(ms[n - 1].loser, ms[n - 1].winner, order));
      AppliedMidway(base, s, ents, ms, n - 1, before);
      MidwayStep(base, s, ents, ms, n - 1, before, order);
    }
  }

  lemma LinkedSymmetric(ms: seq<Arrow>, x: Id, y: Id)
    requires Linked(ms, x, y)
    ensures Linked(ms, y, x)
  {
  }

  /** When the whole list has run, no two linked rows are both live. */
  lemma OneSideRetired(ms: seq<Arrow>, t: State, x: Id, y: Id)
    requires RunSoFar(ms, |ms|, t) && Linked(ms, x, y)
    ensures !Live(t, x) || !Live(t, y)
  {
  }

  /** Applying the merges of disjoint cliques in the order of the list leaves each clique with one
      live row, its top, and every other member pointing straight at it. */
  lemma CliqueCollapses(base: map<Id, Option<Id>>, s: State, ents: map<Id, Ent>, ms: seq<Arrow>, s': State, x: Id,
                        top: Id)
    requires Inv(base, s) && Cliques(ms) && Uphill(ents, ms) && Loaded(s, ents) && Applied(s, ms, s')
    requires Live(s, x) && Linked(ms, x, top) && IsTop(ents, ms, top) && Live(s, top)
    ensures Live(s', top) && x in s'.ents && s'.ents[x].mergedInto == Some(top)
  {
    assert ms[..|ms|] == ms;
    AppliedMidway(base, s, ents, ms, |ms|, s');
    OneSideRetired(ms, s', x, top);
    var p := s'.ents[x].mergedInto.value;
    assert Live(s', p) && Linked(ms, x, p);
    LinkedSymmetric(ms, x, p);
    if p != top {
      OneSideRetired(ms, s', p, top);
      assert false;
    }
  }

  /** Rows that take part in no merge stay live. */
  lemma OthersStayLive(base: map<Id, Option<Id>>, s: State, ents: map<Id, Ent>, ms: seq<Arrow>, s': State, x: Id)
    requires Inv(base, s) && Cliques(ms) && Uphill(ents, ms) && Loaded(s, ents) && Applied(s, ms, s')
    requires Live(s, x) && forall y: Id :: !Linked(ms, x, y)
    ensures Live(s', x)
  {
    assert ms[..|ms|] == ms;
    AppliedMidway(base, s, ents, ms, |ms|, s');
    assert IsTop(ents, ms, x);
  }

  // ----- every clique has a top -----

  lemma {:induction false} SomeBest(ents: map<Id, Ent>, ids: set<Id>) returns (m: Id)
    requires ids != {} && forall e :: e in ids ==> e in ents
    ensures m in ids && forall e :: e in ids && e != m ==> Beats(ents, m, e)
    decreases |ids|
  {
    var x :| x in ids;
    if ids == {x} {
      m := x;
    } else {
      assert ids - {x} != {};
      var rest := SomeBest(ents, ids - {x});
      m := if Beats(ents, x, rest) then x else rest;
      forall e | e in ids && e != m
        ensures Beats(ents, m, e)
      {
        BeatsIsStrictTotalOrder(ents, x, rest, e);
        BeatsIsStrictTotalOrder(ents, rest, x, e);
      }
    }
  }

  lemma TopExists(ents: map<Id, Ent>, ms: seq<Arrow>, x: Id) returns (top: Id)
    requires Cliques(ms) && Uphill(ents, ms) && x in ents
    ensures top in ents && (top == x || Linked(ms, x, top)) && IsTop(ents, ms, top)
  {
    var near := {x} + set e | e in ents && Linked(ms, x, e);
    top := SomeBest(ents, near);
    forall y: Id | Linked(ms, top, y)
      ensures y in ents && Beats(ents, top, y)
    {
      var i :| 0 <= i < |ms| && Links(ms[i], top, y);
      BeatsIsStrictTotalOrder(ents, top, y, top);
      assert y in near;
    }
  }

  // ----- the plan meets the machine -----

  lemma LinkedIsJoins(ms: seq<Proposal>, x: Id, y: Id)
    ensures Linked(Arrows(ms), x, y) <==> Joins(ms, x, y)
  {
  }

  lemma PlanIsUphill(ents: map<Id, Ent>, scorer: Scorer, cands: seq<Pair>)
    requires Candidates(ents, cands) && KeepsAbbreviationsLow(ents, scorer)
    ensures Uphill(ents, Arrows(SafeMerges(ents, scorer, cands)))
  {
    var plan := SafeMerges(ents, scorer, cands);
    forall i | 0 <= i < |plan|
      ensures plan[i].loser in ents && plan[i].winner in ents && Beats(ents, plan[i].winner, plan[i].loser)
              && ents[plan[i].loser].names.kind == ents[plan[i].winner].names.kind
    {
      SurvivorsPointUp(ents, scorer, cands, plan[i]);
    }
  }

  lemma PlanIsCliques(ents: map<Id, Ent>, scorer: Scorer, cands: seq<Pair>)
    requires Candidates(ents, cands) && scorer.gate && KeepsAbbreviationsLow(ents, scorer)
    ensures Cliques(Arrows(SafeMerges(ents, scorer, cands))) && Uphill(ents, Arrows(SafeMerges(ents, scorer, cands)))
  {
    var plan := SafeMerges(ents, scorer, cands);
    forall x: Id, y: Id, z: Id | x != z && Linked(Arrows(plan), x, y) && Linked(Arrows(plan), y, z)
      ensures Linked(Arrows(plan), x, z)
    {
      LinkedIsJoins(plan, x, y);
      LinkedIsJoins(plan, y, z);
      SurvivorsFormCliques(ents, scorer, cands, x, y, z);
      LinkedIsJoins(plan, x, z);
    }
    PlanIsUphill(ents, scorer, cands);
  }

  /** The same merges, listed in some other order. */
  ghost predicate SameMerges(ms: seq<Arrow>, other: seq<Arrow>) {
    forall a :: a in ms <==> a in other
  }

  lemma SameLinks(ms: seq<Arrow>, other: seq<Arrow>, x: Id, y: Id)
    requires SameMerges(ms, other) && Linked(ms, x, y)
    ensures Linked(other, x, y)
  {
    var i :| 0 <= i < |ms| && Links(ms[i], x, y);
    assert ms[i] in other;
    var k :| 0 <= k < |other| && other[k] == ms[i];
    assert Links(other[k], x, y);
  }

  lemma ReorderedIsCliques(ents: map<Id, Ent>, ms: seq<Arrow>, other: seq<Arrow>)
    requires Cliques(ms) && Uphill(ents, ms) && SameMerges(ms, other)
    ensures Cliques(other) && Uphill(ents, other)
  {
    forall x: Id, y: Id, z: Id | x != z && Linked(other, x, y) && Linked(other, y, z)
      ensures Linked(other, x, z)
    {
      SameLinks(other, ms, x, y);
      SameLinks(other, ms, y, z);
      SameLinks(ms, other, x, z);
    }
    forall i | 0 <= i < |other|
      ensures other[i].loser in ents && other[i].winner in ents && Beats(ents, other[i].winner, other[i].loser)
              && ents[other[i].loser].names.kind == ents[other[i].winner].names.kind
    {
      assert other[i] in ms;
    }
  }

  /** Main result: with the gate on and abbreviations below the bar, planning over any candidate
      pairs and applying the merges in any order gives every planned entity one live survivor: the
      top of its clique, at which every other member points directly. */
  lemma PlanCollapsesCliques(base: map<Id, Option<Id>>, s: State, ents: map<Id, Ent>, scorer: Scorer, cands: seq<Pair>,
                             ms: seq<Arrow>, s': State, x: Id)
    returns (top: Id)
    requires Inv(base, s) && Loaded(s, ents) && Candidates(ents, cands) && x in ents
    requires scorer.gate && KeepsAbbreviationsLow(ents, scorer)
    requires SameMerges(Arrows(SafeMerges(ents, scorer, cands)), ms) && Applied(s, ms, s')
    ensures top in ents && (x == top || Joins(SafeMerges(ents, scorer, cands), x, top))
    ensures forall y: Id :: Joins(SafeMerges(ents, scorer, cands), top, y) ==> y in ents && Beats(ents, top, y)
    ensures Live(s', top) && x in s'.ents && Survivor(s', x) == top
  {
    var plan := SafeMerges(ents, scorer, cands);
    PlanIsCliques(ents, scorer, cands);
    ReorderedIsCliques(ents, Arrows(plan), ms);
    top := TopExists(ents, ms, x);
    if x != top {
      SameLinks(ms, Arrows(plan), x, top);
      LinkedIsJoins(plan, x, top);
      CliqueCollapses(base, s, ents, ms, s', x, top);
    } else {
      assert ms[..|ms|] == ms;
      AppliedMidway(base, s, ents, ms, |ms|, s');
    }
    forall y: Id | Joins(plan, top, y)
      ensures y in ents && Beats(ents, top, y)
    {
      LinkedIsJoins(plan, top, y);
      SameLinks(Arrows(plan), ms, top, y);
    }
  }

  // ----- the Fellegi-Sunter scorer meets the hypotheses -----

  function FsScorer(exp2: real -> real): Scorer
    requires forall x :: exp2(x) > 0.0
  {
    Scorer((a, b) => FsScore(exp2, a, b), FS_AUTO_MERGE, FS_QUEUE_FLOOR, true)
  }

  lemma {:induction false} NoAbbreviationNoSide(fa: seq<Form>, fb: seq<Form>)
    requires !AnyAbbreviation(fa, fb)
    ensures AbbreviatedSide(fa, fb).None?
  {
    if fa == [] {
    } else {
      assert forall j :: 0 <= j < |fb| ==> !Abbreviates(fa[0], fb[j]);
      NoAbbreviationInRow(fa[0], fb);
      assert forall i, j :: 0 <= i < |fa[1..]| && 0 <= j < |fb| ==>
          fa[1..][i] == fa[i + 1] && !Abbreviates(fa[i + 1], fb[j]);
      NoAbbreviationNoSide(fa[1..], fb);
    }
  }

  lemma {:induction false} NoAbbreviationInRow(x: Form, fb: seq<Form>)
    requires forall j :: 0 <= j < |fb| ==> !Abbreviates(x, fb[j])
    ensures AbbreviatedInRow(x, fb).None?
  {
    if fb == [] {
    } else {
      assert !Abbreviates(x, fb[0]);
      assert forall j :: 0 <= j < |fb[1..]| ==> fb[1..][j] == fb[j + 1];
      NoAbbreviationInRow(x, fb[1..]);
    }
  }

  lemma FsKeepsAbbreviationsLow(exp2: real -> real, ents: map<Id, Ent>)
    requires IsExp2(exp2)
    ensures FsScorer(exp2).gate && KeepsAbbreviationsLow(ents, FsScorer(exp2))
  {
    forall a, b | a in ents && b in ents && FsScorer(exp2).score(ents[a].names, ents[b].names) >= FS_AUTO_MERGE
      ensures AbbreviationSubset(ents, a, b).None?
    {
      var na, nb := ents[a].names, ents[b].names;
      assert FsMerges(exp2, na, nb);
      SameAutoMerges(exp2, na, nb);
      if na.kind == Person {
        MergesAreNoAbbreviations(na, nb);
        NoAbbreviationNoSide(na.forms, nb.forms);
      }
    }
  }

  /** So the batch run with the Fellegi-Sunter scorer collapses every surviving clique onto its top. */
  lemma FsBatchCollapsesCliques(exp2: real -> real, base: map<Id, Option<Id>>, s: State, ents: map<Id, Ent>,
                                cands: seq<Pair>, ms: seq<Arrow>, s': State, x: Id)
    returns (top: Id)
    requires IsExp2(exp2) && Inv(base, s) && Loaded(s, ents) && Candidates(ents, cands) && x in ents
    requires SameMerges(Arrows(SafeMerges(ents, FsScorer(exp2), cands)), ms) && Applied(s, ms, s')
    ensures top in ents && (x == top || Joins(SafeMerges(ents, FsScorer(exp2), cands), x, top))
    ensures forall y: Id :: Joins(SafeMerges(ents, FsScorer(exp2), cands), top, y) ==> y in ents && Beats(ents, top, y)
    ensures Live(s', top) && x in s'.ents && Survivor(s', x) == top
  {
    FsKeepsAbbreviationsLow(exp2, ents);
    top := PlanCollapsesCliques(base, s, ents, FsScorer(exp2), cands, ms, s', x);
  }

  // ----- the scorers the command offers -----

  /** name_matching as the planner's scorer: no contested gate. */
  function DefaultScorer(): Scorer {
    Scorer((a, b) => MatchScore(a, b), AUTO_MERGE_THRESHOLD, QUEUE_FLOOR, false)
  }

  lemma DefaultKeepsAbbreviationsLow(ents: map<Id, Ent>)
    ensures KeepsAbbreviationsLow(ents, DefaultScorer())
  {
    forall a, b | a in ents && b in ents && DefaultScorer().score(ents[a].names, ents[b].names) >= AUTO_MERGE_THRESHOLD
      ensures AbbreviationSubset(ents, a, b).None?
    {
      var na, nb := ents[a].names, ents[b].names;
      if na.kind == Person {
        MergesAreNoAbbreviations(na, nb);
        NoAbbreviationNoSide(na.forms, nb.forms);
      }
    }
  }

  /** The two scorers the command offers. */
  ghost predicate CommandScorer(scorer: Scorer) {
    scorer == DefaultScorer() || exists exp2 :: IsExp2(exp2) && scorer == FsScorer(exp2)
  }

  lemma CommandKeepsAbbreviationsLow(ents: map<Id, Ent>, scorer: Scorer)
    requires CommandScorer(scorer)
    ensures KeepsAbbreviationsLow(ents, scorer)
  {
    if scorer == DefaultScorer() {
      DefaultKeepsAbbreviationsLow(ents);
    } else {
      var exp2 :| IsExp2(exp2) && scorer == FsScorer(exp2);
      FsKeepsAbbreviationsLow(exp2, ents);
    }
  }

  // ----- the plan from outside -----

  lemma ArrowsAreProposed(plan: seq<Proposal>, a: Arrow)
    ensures a in Arrows(plan) <==> Proposed(plan, a.loser, a.winner)
  {
    if m :| m in plan && m.loser == a.loser && m.winner == a.winner {
      var i :| 0 <= i < |plan| && plan[i] == m;
      assert Arrows(plan)[i] == a;
    }
    if a in Arrows(plan) {
      var i :| 0 <= i < |plan| && Arrows(plan)[i] == a;
      assert plan[i] in plan;
    }
  }

  /** An ungated plan, from outside. */
  lemma UngatedArrowIff(ents: map<Id, Ent>, scorer: Scorer, cands: seq<Pair>, a: Arrow)
    requires Candidates(ents, cands) && !scorer.gate && KeepsAbbreviationsLow(ents, scorer)
    ensures a in Arrows(SafeMerges(ents, scorer, cands)) <==>
            && a.loser in ents && a.winner in ents && PairOf(a.loser, a.winner) in cands
            && ScoreOf(ents, scorer, PairOf(a.loser, a.winner)) >= scorer.autoMerge && Beats(ents, a.winner, a.loser)
  {
    var plan := SafeMerges(ents, scorer, cands);
    UngatedPlanIsAll(ents, scorer, cands);
    ArrowsAreProposed(plan, a);
    if a in Arrows(plan) { ProposalsAreOriented(ents, scorer, cands); }
    if a.loser in ents && a.winner in ents { ProposedIff(ents, scorer, cands, a.loser, a.winner); }
  }
}
