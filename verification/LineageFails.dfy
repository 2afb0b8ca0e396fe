/** Runs in which the lineage query misses the judged pair: an outdated compression, a lineage that
    loops, and a lineage longer than the query follows. */
module LineageFails {
  import opened Basics
  import opened Identity
  import opened IdentityRuns
  import opened SmallRuns
  import opened UndoHistory
  import opened Lineage
  import opened LineageRuns

  // ----- an outdated compression -----

  lemma JudgedAtEnd(base: map<Id, Option<Id>>, log: seq<LogRow>, a: Id)
    requires log != [] && log[|log| - 1].MergeLogged? && log[|log| - 1].target == a
    ensures Judged(base, log, a) == Some(log[|log| - 1].into)
  {
  }

  /** merge(0,1), merge(1,2), unmerge(0), merge(0,2), unmerge(0): the last call reports 1, so the row of
      the judged pair {0, 2} stays on 'merged'. Row 0 was compressed only once. */
  lemma OutdatedLineageStrandsThePair(s: State) returns (s4: State, s5: State)
    requires Shape(s, [None, None, None], []) && Pair(0, 2) in s.cand && s.cand[Pair(0, 2)] == Pending
    ensures Reaches(s, STALE_RUN, s4) && Reaches(s, STALE_RUN + [DoUnmerge(0, [], 1)], s5)
    ensures StalelyReported(s, s4)
    ensures Live(s5, 0) && Pair(0, 2) in s5.cand && s5.cand[Pair(0, 2)] == Merged
  {
    s4 := StaleRunWithCandidates(s);
    StaleReport(s, s4);
    s5 := FreedAgain(s, s4);
  }

  /** Row 0 was judged with 2, was compressed once in all, and is reported with 1. */
  ghost predicate StalelyReported(s: State, s4: State) {
    && UnmergeCheck(s4, 0).None?
    && Judged(Pointers(s), s4.log, 0) == Some(2) && DecidedPartners(s4, 0) == {1} && Compressions(s4.log, 0) == 1
  }

  lemma StaleReport(s: State, s4: State)
    requires Shape(s4, [Some(2), Some(2), None], STALE_LOG)
    ensures StalelyReported(s, s4)
  {
    JudgedAtEnd(Pointers(s), STALE_LOG, 0);
    StaleWalk();
    assert Compressions(STALE_LOG[..1], 0) == 0;
    assert STALE_LOG[..2][..1] == STALE_LOG[..1] && Compressions(STALE_LOG[..2], 0) == 1;
    assert STALE_LOG[..3][..2] == STALE_LOG[..2] && Compressions(STALE_LOG[..3], 0) == 1;
    assert STALE_LOG[..4][..3] == STALE_LOG[..3] && Compressions(STALE_LOG[..4], 0) == 1;
  }

  lemma StaleRunWithCandidates(s: State) returns (s4: State)
    requires Shape(s, [None, None, None], []) && Pair(0, 2) in s.cand && s.cand[Pair(0, 2)] == Pending
    ensures Reaches(s, STALE_RUN, s4) && Shape(s4, [Some(2), Some(2), None], STALE_LOG)
    ensures Pair(0, 2) in s4.cand && s4.cand[Pair(0, 2)] == Merged
  {
    var s3 := FreedWithCandidates(s);
    s4 := MergedAgain(s, s3);
  }

  lemma FreedWithCandidates(s: State) returns (s3: State)
    requires Shape(s, [None, None, None], []) && Pair(0, 2) in s.cand && s.cand[Pair(0, 2)] == Pending
    ensures Reaches(s, STALE_RUN[..3], s3) && Shape(s3, [None, Some(2), None], STALE_LOG[..4])
    ensures Pair(0, 2) in s3.cand && s3.cand[Pair(0, 2)] == Pending
  {
    var s2 := TwoMerges(s, [None, None, None]);
    s3 := Freed(s, s2);
  }

  /** unmerge(0) */
  lemma FreedAgain(s: State, s4: State) returns (s5: State)
    requires Reaches(s, STALE_RUN, s4) && Shape(s4, [Some(2), Some(2), None], STALE_LOG)
    ensures Reaches(s, STALE_RUN + [DoUnmerge(0, [], 1)], s5) && Live(s5, 0)
    ensures s5.cand == Restamp(s4.cand, Pair(0, 1), Merged, Pending)
  {
    StaleWalk();
    s5 := UnmergeShape(s, STALE_RUN, s4, [Some(2), Some(2), None], STALE_LOG, 0, [], 1, [None, Some(2), None]);
  }

  lemma StaleWalk()
    ensures Deepest(STALE_LOG, 0, {2}, 0) == {1}
  {
    assert STALE_LOG[1] == Compressed(0, 1, 2, 1);
    assert STALE_LOG[1].via in NextLevel(STALE_LOG, 0, {2});
    assert NextLevel(STALE_LOG, 0, {2}) == {1} && NextLevel(STALE_LOG, 0, {1}) == {};
    assert Deepest(STALE_LOG, 0, {2}, 0) == Deepest(STALE_LOG, 0, {1}, 1);
  }

  // ----- a lineage that loops -----

  const LOOP_RUN: seq<Op> :=
    [DoMerge(0, 1, []), DoMerge(1, 2, [0]), DoMerge(2, 3, [0, 1]), DoUnmerge(1, [], 2), DoMerge(3, 1, [0, 2])]

  const LOOP_LOG: seq<LogRow> :=
    [MergeLogged(0, 1), Compressed(0, 1, 2, 1), MergeLogged(1, 2),
     Compressed(0, 2, 3, 2), Compressed(1, 2, 3, 2), MergeLogged(2, 3),
     Unmerged(1, 3),
     Compressed(0, 3, 1, 3), Compressed(2, 3, 1, 3), MergeLogged(3, 1)]

  /** The compressions of row 0 lead from 1 back to 3, from 3 to 2, and from 2 to 1 again. */
  lemma LoopLevels()
    ensures NextLevel(LOOP_LOG, 0, {1}) == {3} && NextLevel(LOOP_LOG, 0, {3}) == {2}
    ensures NextLevel(LOOP_LOG, 0, {2}) == {1}
  {
    assert LOOP_LOG[7].via in NextLevel(LOOP_LOG, 0, {1});
    assert LOOP_LOG[3].via in NextLevel(LOOP_LOG, 0, {3});
    assert LOOP_LOG[1].via in NextLevel(LOOP_LOG, 0, {2});
  }

  function LoopNode(depth: nat): Id {
    if depth % 3 == 0 then 1 else if depth % 3 == 1 then 3 else 2
  }

  lemma {:induction false} LoopWalk(log: seq<LogRow>, depth: nat)
    requires depth <= MAX_LINEAGE_DEPTH
    requires NextLevel(log, 0, {1}) == {3} && NextLevel(log, 0, {3}) == {2} && NextLevel(log, 0, {2}) == {1}
    ensures Deepest(log, 0, {LoopNode(depth)}, depth) == {2}
    decreases MAX_LINEAGE_DEPTH - depth
  {
    if depth < MAX_LINEAGE_DEPTH {
      LoopWalk(log, depth + 1);
      assert NextLevel(log, 0, {LoopNode(depth)}) == {LoopNode(depth + 1)};
    }
  }

  /** merge(2,3) after merge(0,1), merge(1,2) */
  lemma ThirdMerge(s: State, s2: State) returns (s3: State)
    requires Reaches(s, LOOP_RUN[..2], s2) && Shape(s2, [Some(2), Some(2), None, None], LOOP_LOG[..3])
    ensures Reaches(s, LOOP_RUN[..3], s3) && Shape(s3, [Some(3), Some(3), Some(3), None], LOOP_LOG[..6])
  {
    s3 := MergeShape(s, LOOP_RUN[..2], s2, [Some(2), Some(2), None, None], LOOP_LOG[..3], 2, 3, [0, 1],
                     [Some(3), Some(3), Some(3), None]);
    assert CompressionRows([0, 1], 2, 3) == [Compressed(0, 2, 3, 2), Compressed(1, 2, 3, 2)];
    assert s3.log == LOOP_LOG[..6];
    assert LOOP_RUN[..2] + [DoMerge(2, 3, [0, 1])] == LOOP_RUN[..3];
  }

  /** unmerge(1): row 0 has moved on and stays at 3. */
  lemma MiddleFreed(s: State, s3: State) returns (s4: State)
    requires Reaches(s, LOOP_RUN[..3], s3) && Shape(s3, [Some(3), Some(3), Some(3), None], LOOP_LOG[..6])
    ensures Reaches(s, LOOP_RUN[..4], s4) && Shape(s4, [Some(3), None, Some(3), None], LOOP_LOG[..7])
  {
    var log := LOOP_LOG[..6];
    MiddleWalk(log);
    forall x: Id | x < 4
      ensures !MovedVia(log, x, [Some(3), Some(3), Some(3), None][x], 1)
    {
    }
    s4 := UnmergeShape(s, LOOP_RUN[..3], s3, [Some(3), Some(3), Some(3), None], log, 1, [], 2,
        [Some(3), None, Some(3), None]);
    assert s4.log == LOOP_LOG[..7];
    assert LOOP_RUN[..3] + [DoUnmerge(1, [], 2)] == LOOP_RUN[..4];
  }

  lemma MiddleWalk(log: seq<LogRow>)
    requires log == LOOP_LOG[..6]
    ensures Deepest(log, 1, {3}, 0) == {2}
  {
    assert log[4].via in NextLevel(log, 1, {3});
    assert NextLevel(log, 1, {3}) == {2} && NextLevel(log, 1, {2}) == {};
    assert Deepest(log, 1, {3}, 0) == Deepest(log, 1, {2}, 1);
  }

  /** merge(3,1): row 0 is back at 1. */
  lemma BackToTheStart(s: State, s4: State) returns (s5: State)
    requires Reaches(s, LOOP_RUN[..4], s4) && Shape(s4, [Some(3), None, Some(3), None], LOOP_LOG[..7])
    ensures Reaches(s, LOOP_RUN, s5) && Shape(s5, [Some(1), None, Some(1), Some(1)], LOOP_LOG)
  {
    s5 := MergeShape(s, LOOP_RUN[..4], s4, [Some(3), None, Some(3), None], LOOP_LOG[..7], 3, 1, [0, 2],
                     [Some(1), None, Some(1), Some(1)]);
    assert CompressionRows([0, 2], 3, 1) == [Compressed(0, 3, 1, 3), Compressed(2, 3, 1, 3)];
    assert s5.log == LOOP_LOG;
    assert LOOP_RUN[..4] + [DoMerge(3, 1, [0, 2])] == LOOP_RUN;
  }

  /** merge(0,1), merge(1,2), merge(2,3), unmerge(1), merge(3,1): row 0 was merged once, into 1, stands at 1,
      was compressed three times, and is reported as judged with 2. */
  lemma LoopMisleads(s: State) returns (s5: State)
    requires Shape(s, [None, None, None, None], [])
    ensures Reaches(s, LOOP_RUN, s5)
    ensures Judged(Pointers(s), s5.log, 0) == Some(1) && 0 in s5.ents && s5.ents[0].mergedInto == Some(1)
    ensures DecidedPartners(s5, 0) == {2}
  {
    var s2 := TwoMerges(s, [None, None, None, None]);
    assert STALE_RUN[..2] == LOOP_RUN[..2] && STALE_LOG[..3] == LOOP_LOG[..3];
    var s3 := ThirdMerge(s, s2);
    var s4 := MiddleFreed(s, s3);
    s5 := BackToTheStart(s, s4);
    LoopReport(s, s5);
  }

  lemma LoopReport(s: State, s5: State)
    requires Shape(s5, [Some(1), None, Some(1), Some(1)], LOOP_LOG)
    ensures Judged(Pointers(s), s5.log, 0) == Some(1) && 0 in s5.ents && s5.ents[0].mergedInto == Some(1)
    ensures DecidedPartners(s5, 0) == {2}
  {
    LoopLevels();
    LoopWalk(LOOP_LOG, 0);
    OnlyOneMerge(Pointers(s));
  }

  lemma OnlyOneMerge(base: map<Id, Option<Id>>)
    ensures Judged(base, LOOP_LOG, 0) == Some(1)
  {
    JudgedSkips(base, LOOP_LOG, 0, 1);
    JudgedAtEnd(base, LOOP_LOG[..1], 0);
  }

  lemma {:induction false} JudgedSkips(base: map<Id, Option<Id>>, log: seq<LogRow>, a: Id, n: nat)
    requires n <= |log| && forall i :: n <= i < |log| ==> !(log[i].MergeLogged? && log[i].target == a)
    ensures Judged(base, log, a) == Judged(base, log[..n], a)
    decreases |log|
  {
    if n == |log| {
      assert log[..n] == log;
    } else {
      JudgedSkips(base, log[..|log| - 1], a, n);
      assert log[..|log| - 1][..n] == log[..n];
    }
  }

  // ----- a lineage of any length -----

  /** Rows `a` and k, k+1, ..., k+n of one kind: `a` points at k, the others are live. */
  ghost predicate Queueing(s: State, a: Id, k: Id, n: nat) {
    && a < k && a in s.ents && s.ents[a].mergedInto == Some(k)
    && forall x: Id :: k <= x <= k + n ==> Live(s, x) && s.ents[x].kind == s.ents[a].kind
  }

  lemma QueueMoves(s: State, a: Id, k: Id, n: nat, order: seq<Id>)
    requires Queueing(s, a, k, n) && n > 0 && MergeCheck(s, k, k + 1).None?
    ensures Queueing(Merge(s, k, k + 1, order), a, k + 1, n - 1)
  {
    var s1 := Merge(s, k, k + 1, order);
    assert s1.ents[a].kind == s.ents[a].kind && s1.ents[a].mergedInto == Some(k + 1);
    forall x: Id | k + 1 <= x <= k + n
      ensures Live(s1, x) && s1.ents[x].kind == s1.ents[a].kind
    {
      assert Live(s, x);
    }
  }

  /** merge(k,k+1) */
  lemma OneLink(base: map<Id, Option<Id>>, s: State, a: Id, k: Id, n: nat) returns (order: seq<Id>, s1: State)
    requires Queueing(s, a, k, n) && n > 0
    ensures Legal(s, DoMerge(k, k + 1, order)) && s1 == Apply(s, DoMerge(k, k + 1, order))
    ensures Queueing(s1, a, k + 1, n - 1) && Compressions(s1.log, a) == Compressions(s.log, a) + 1
    ensures Judged(base, s1.log, a) == Judged(base, s.log, a)
  {
    assert Live(s, k) && Live(s, k + 1) && s.ents[k].kind == s.ents[k + 1].kind;
    order := Listing(Orphans(s, k));
    s1 := Merge(s, k, k + 1, order);
    QueueMoves(s, a, k, n, order);
    MergeHistory(base, s, k, k + 1, order, a);
    assert a in Orphans(s, k);
  }

  /** merge(k,k+1), ..., merge(k+n-1,k+n) */
  lemma {:induction false} PassItOn(base: map<Id, Option<Id>>, s: State, a: Id, k: Id, n: nat) returns (ops: seq<Op>)
    requires Queueing(s, a, k, n)
    ensures LegalRun(s, ops) && NoUnmerge(ops)
    ensures UnmergeCheck(Run(s, ops), a).None?
    ensures Compressions(Run(s, ops).log, a) == Compressions(s.log, a) + n
    ensures Judged(base, Run(s, ops).log, a) == Judged(base, s.log, a)
    decreases n
  {
    if n == 0 {
      ops := [];
    } else {
      var order, s1 := OneLink(base, s, a, k, n);
      var rest := PassItOn(base, s1, a, k + 1, n - 1);
      OneBefore(s, DoMerge(k, k + 1, order), rest);
      ops := [DoMerge(k, k + 1, order)] + rest;
    }
  }

  lemma OneBefore(s: State, op: Op, rest: seq<Op>)
    requires Legal(s, op) && !op.DoUnmerge? && LegalRun(Apply(s, op), rest) && NoUnmerge(rest)
    ensures LegalRun(s, [op] + rest) && NoUnmerge([op] + rest)
    ensures Run(s, [op] + rest) == Run(Apply(s, op), rest)
  {
    assert ([op] + rest)[1..] == rest;
  }

  /** Rows 0 to n are live and of one kind. */
  ghost predicate AllLive(s: State, n: nat) {
    0 in s.ents && forall x: Id :: x <= n ==> Live(s, x) && s.ents[x].kind == s.ents[0].kind
  }

  /** merge(0,1) */
  lemma FirstLink(s: State, n: nat) returns (order: seq<Id>, s1: State)
    requires Flat(s) && s.log == []
    requires AllLive(s, n + 1)
    ensures Legal(s, DoMerge(0, 1, order)) && s1 == Apply(s, DoMerge(0, 1, order))
    ensures Queueing(s1, 0, 1, n) && Compressions(s1.log, 0) == 0 && Judged(Pointers(s), s1.log, 0) == Some(1)
  {
    assert Live(s, 0) && Live(s, 1) && s.ents[0].kind == s.ents[1].kind;
    order := Listing(Orphans(s, 0));
    s1 := Merge(s, 0, 1, order);
    MergeHistory(Pointers(s), s, 0, 1, order, 0);
    assert 0 !in Orphans(s, 0);
    forall x: Id | 1 <= x <= 1 + n
      ensures Live(s1, x) && s1.ents[x].kind == s1.ents[0].kind
    {
      assert Live(s, x);
    }
  }

  /** Both sides of the bound are reached: from live rows, for every n, the run merge(0,1), merge(1,2), ...,
      merge(n,n+1) compresses row 0 n times, and the query then reports 1, with which 0 was judged, if and
      only if n is at most 32. */
  lemma CompressedAnyNumberOfTimes(s: State, n: nat) returns (ops: seq<Op>)
    requires Flat(s) && s.log == []
    requires AllLive(s, n + 1)
    ensures LegalRun(s, ops) && UnmergeCheck(Run(s, ops), 0).None? && Compressions(Run(s, ops).log, 0) == n
    ensures Judged(Pointers(s), Run(s, ops).log, 0) == Some(1)
    ensures DecidedPartners(Run(s, ops), 0) == {1} <==> n <= 32
  {
    var order, s1 := FirstLink(s, n);
    var rest := PassItOn(Pointers(s), s1, 0, 1, n);
    OneBefore(s, DoMerge(0, 1, order), rest);
    ops := [DoMerge(0, 1, order)] + rest;
    FirstUnmergeIff(s, ops, 0);
  }
}
