/** What an unmerge undoes, read off the log alone: which rows it takes along although they stood where
    they were on their own account, and when its audit rows misstate where a row came from. */
module UndoHistory {
  import opened Basics
  import opened Identity
  import opened IdentityRuns
  import opened SmallRuns

  // ----- the last word of the log on a row -----

  /** Entry `k` is the last of the log that writes the pointer of `t`. */
  ghost predicate LastWrite(log: seq<LogRow>, t: Id, k: nat) {
    && k < |log| && log[k].target == t && PointerAfter(log[k]).Some?
    && forall m :: k < m < |log| && log[m].target == t ==> PointerAfter(log[m]).None?
  }

  lemma {:induction false} LastWriteReplays(base: map<Id, Option<Id>>, log: seq<LogRow>, t: Id, k: nat)
    requires LastWrite(log, t, k)
    ensures Replay(base, log, t) == PointerAfter(log[k]).value
    decreases |log|
  {
    if k < |log| - 1 {
      LastWriteReplays(base, log[..|log| - 1], t, k);
    }
  }

  lemma {:induction false} SomeLastWrite(log: seq<LogRow>, t: Id, i: nat) returns (k: nat)
    requires i < |log| && log[i].target == t && PointerAfter(log[i]).Some?
    ensures i <= k && LastWrite(log, t, k)
    decreases |log| - i
  {
    if m :| i < m < |log| && log[m].target == t && PointerAfter(log[m]).Some? {
      k := SomeLastWrite(log, t, m);
    } else {
      k := i;
    }
  }

  // ----- every compression is closed by the merge that caused it -----

  ghost predicate Sealed(log: seq<LogRow>) {
    forall i :: 0 <= i < |log| && log[i].Compressed? ==> SealedAt(log, i)
  }

  ghost predicate SealedAt(log: seq<LogRow>, i: nat)
    requires i < |log| && log[i].Compressed?
  {
    exists j :: i < j < |log| && log[j] == MergeLogged(log[i].via, log[i].into)
  }

  lemma SealedConcat(log: seq<LogRow>, rows: seq<LogRow>)
    requires Sealed(log) && Sealed(rows)
    ensures Sealed(log + rows)
  {
    forall i | 0 <= i < |log + rows| && (log + rows)[i].Compressed?
      ensures SealedAt(log + rows, i)
    {
      if i < |log| {
        assert SealedAt(log, i);
        var j :| i < j < |log| && log[j] == MergeLogged(log[i].via, log[i].into);
        assert (log + rows)[j] == log[j];
      } else {
        var n := i - |log|;
        assert SealedAt(rows, n);
        var j :| n < j < |rows| && rows[j] == MergeLogged(rows[n].via, rows[n].into);
        assert (log + rows)[|log| + j] == rows[j];
      }
    }
  }

  lemma MergeRowsSealed(order: seq<Id>, l: Id, w: Id)
    ensures Sealed(CompressionRows(order, l, w) + [MergeLogged(l, w)])
  {
    var rows := CompressionRows(order, l, w) + [MergeLogged(l, w)];
    forall i | 0 <= i < |rows| && rows[i].Compressed?
      ensures SealedAt(rows, i)
    {
      assert rows[|order|] == MergeLogged(l, w);
    }
  }

  /** What one call appends. */
  lemma StepKeepsSealed(s: State, op: Op)
    requires Legal(s, op) && Sealed(s.log)
    ensures Sealed(Apply(s, op).log)
  {
    match op
    case DoMerge(l, w, order) =>
      MergeRowsSealed(order, l, w);
      SealedConcat(s.log, CompressionRows(order, l, w) + [MergeLogged(l, w)]);
      assert s.log + (CompressionRows(order, l, w) + [MergeLogged(l, w)]) ==
          s.log + CompressionRows(order, l, w) + [MergeLogged(l, w)];
    case DoUnmerge(e, order, _) =>
      if UnmergeCheck(s, e).None? {
        var was := s.ents[e].mergedInto.value;
        SealedConcat(s.log, RestoreRows(order, was, e) + [Unmerged(e, was)]);
        assert s.log + (RestoreRows(order, was, e) + [Unmerged(e, was)]) ==
            s.log + RestoreRows(order, was, e) + [Unmerged(e, was)];
      }
    case DoRename(e, name) => if e in s.ents { SealedConcat(s.log, [Renamed(e, s.ents[e].name, name)]); }
    case DoAlias(_, _) =>
    case DoSplit(src, into, newId, _) =>
      SealedConcat(s.log, [Repointed(src, if into.Existing? then into.id else newId)]);
    case DoResolve(_, _, top, _, newId) =>
      if top.Some? {
        MergeRowsSealed([], newId, top.value.id);
        SealedConcat(s.log, CompressionRows([], newId, top.value.id) + [MergeLogged(newId, top.value.id)]);
        assert s.log + (CompressionRows([], newId, top.value.id) + [MergeLogged(newId, top.value.id)])
               == s.log + CompressionRows([], newId, top.value.id) + [MergeLogged(newId, top.value.id)];
      }
    case DoQueue(_, _) =>
    case DoKeep(_) =>
  }

  lemma {:induction false} RunKeepsSealed(s: State, ops: seq<Op>)
    requires LegalRun(s, ops) && Sealed(s.log)
    ensures Sealed(Run(s, ops).log)
    decreases |ops|
  {
    if ops == [] {
    } else {
      StepKeepsSealed(s, ops[0]);
      RunKeepsSealed(Apply(s, ops[0]), ops[1..]);
    }
  }

  // ----- rows that stand on their own -----

  /** `t` does not stand where it does because a compression through `e` put it there: the last entry
      that wrote its pointer is something else, or there is none. */
  ghost predicate OnItsOwn(log: seq<LogRow>, t: Id, e: Id) {
    forall k: nat :: LastWrite(log, t, k) ==> !(log[k].Compressed? && log[k].via == e)
  }

  /** What unmerge_entity promises: it moves no row that stands on its own. */
  ghost predicate LeavesOthersAlone(s: State, e: Id) {
    forall t :: t in s.ents && t != e && OnItsOwn(s.log, t, e) ==>
      UnmergedEnts(s, e)[t].mergedInto == s.ents[t].mergedInto
  }

  /** Entry `i` is a compression through `e` that no longer accounts for its target: entry `k`, later and
      of another origin, is the last to write that pointer, and wrote the same survivor. */
  ghost predicate Outdated(log: seq<LogRow>, e: Id, i: nat, k: nat) {
    && i < k < |log| && log[i].Compressed? && log[i].via == e
    && LastWrite(log, log[i].target, k) && !(log[k].Compressed? && log[k].via == e)
    && PointerAfter(log[k]) == Some(Some(log[i].into))
  }

  /** Main result: in every reachable state, unmerging `e` keeps its promise if and only if the log holds
      no compression through `e` that was overtaken by another entry to the same survivor. */
  lemma LeavesOthersAloneIff(s0: State, ops: seq<Op>, e: Id)
    requires Flat(s0) && s0.log == [] && LegalRun(s0, ops) && UnmergeCheck(Run(s0, ops), e).None?
    ensures LeavesOthersAlone(Run(s0, ops), e) <==> !exists i: nat, k: nat :: Outdated(Run(s0, ops).log, e, i, k)
  {
    InitialInv(s0);
    RunKeepsInv(Pointers(s0), s0, ops);
    var s := Run(s0, ops);
    if i: nat, k: nat :| Outdated(s.log, e, i, k) {
      OutdatedDrags(Pointers(s0), s, e, i, k);
    }
    if !LeavesOthersAlone(s, e) {
      var t :| t in s.ents && t != e && OnItsOwn(s.log, t, e)
          && UnmergedEnts(s, e)[t].mergedInto != s.ents[t].mergedInto;
      var i, k := DraggedIsOutdated(Pointers(s0), s, e, t);
    }
  }

  /** The row such a compression names is moved, although it stands on its own. */
  lemma OutdatedDrags(base: map<Id, Option<Id>>, s: State, e: Id, i: nat, k: nat)
    requires Inv(base, s) && UnmergeCheck(s, e).None? && Outdated(s.log, e, i, k)
    ensures var t := s.log[i].target;
            && t in s.ents && t != e && OnItsOwn(s.log, t, e)
            && s.ents[t].mergedInto == Some(s.log[i].into)
            && UnmergedEnts(s, e)[t].mergedInto == Some(e) != s.ents[t].mergedInto
  {
    var t := s.log[i].target;
    assert RowOk(s.ents, s.log[i]);
    LastWriteReplays(base, s.log, t, k);
    forall m: nat | LastWrite(s.log, t, m)
      ensures m == k
    {
    }
    assert MovedVia(s.log, t, s.ents[t].mergedInto, e);
  }

  lemma DraggedIsOutdated(base: map<Id, Option<Id>>, s: State, e: Id, t: Id) returns (i: nat, k: nat)
    requires Inv(base, s) && t in s.ents && t != e && OnItsOwn(s.log, t, e)
    requires UnmergedEnts(s, e)[t].mergedInto != s.ents[t].mergedInto
    ensures Outdated(s.log, e, i, k)
  {
    assert MovedVia(s.log, t, s.ents[t].mergedInto, e);
    i :| 0 <= i < |s.log| && s.log[i].Compressed? && s.log[i].target == t && s.log[i].via == e
         && s.ents[t].mergedInto == Some(s.log[i].into);
    k := SomeLastWrite(s.log, t, i);
    LastWriteReplays(base, s.log, t, k);
  }

  // ----- the audit rows of an unmerge -----

  /** Entry `i` is a compression through `e` onto a survivor its target still, or again, points at,
      while `e` has been moved off that survivor by a later entry `k`. */
  ghost predicate LeftBehind(log: seq<LogRow>, e: Id, i: nat, j: nat, k: nat) {
    && i < |log| && log[i].Compressed? && log[i].via == e
    && LastWrite(log, log[i].target, j) && PointerAfter(log[j]) == Some(Some(log[i].into))
    && i < k && LastWrite(log, e, k) && PointerAfter(log[k]) != Some(Some(log[i].into))
  }

  /** Main result: in every reachable state, the audit rows an unmerge writes record true old pointers if
      and only if no compression through `e` left a row behind that `e` itself has since moved away from. */
  lemma UnmergeBeforesTrueIff(s0: State, ops: seq<Op>, e: Id, order: seq<Id>, decided: Id)
    requires Flat(s0) && s0.log == [] && LegalRun(s0, ops)
    requires UnmergeCheck(Run(s0, ops), e).None? && Legal(Run(s0, ops), DoUnmerge(e, order, decided))
    ensures BeforesTrue(Run(s0, ops), Unmerge(Run(s0, ops), e, order, decided)) <==>
            !exists i: nat, j: nat, k: nat :: LeftBehind(Run(s0, ops).log, e, i, j, k)
  {
    var base, s := Pointers(s0), Run(s0, ops);
    InitialInv(s0);
    RunKeepsInv(base, s0, ops);
    RunKeepsSealed(s0, ops);
    BeforesTrueUnfolded(s, e, order, decided);
    if i: nat, j: nat, k: nat :| LeftBehind(s.log, e, i, j, k) {
      var t := s.log[i].target;
      assert RowOk(s.ents, s.log[i]);
      LastWriteReplays(base, s.log, t, j);
      LastWriteReplays(base, s.log, e, k);
      assert MovedVia(s.log, t, s.ents[t].mergedInto, e);
      assert t in Restorable(s, e);
    }
    if t :| t in Restorable(s, e) && s.ents[t].mergedInto != s.ents[e].mergedInto {
      var i, j, k := ElsewhereIsLeftBehind(base, s, e, t);
    }
  }

  lemma ElsewhereIsLeftBehind(base: map<Id, Option<Id>>, s: State, e: Id, t: Id) returns (i: nat, j: nat, k: nat)
    requires Inv(base, s) && Sealed(s.log) && e in s.ents && t in Restorable(s, e)
    requires s.ents[t].mergedInto != s.ents[e].mergedInto
    ensures LeftBehind(s.log, e, i, j, k)
  {
    i :| 0 <= i < |s.log| && s.log[i].Compressed? && s.log[i].target == t && s.log[i].via == e
         && s.ents[t].mergedInto == Some(s.log[i].into);
    j := SomeLastWrite(s.log, t, i);
    LastWriteReplays(base, s.log, t, j);
    assert SealedAt(s.log, i);
    var m :| i < m < |s.log| && s.log[m] == MergeLogged(e, s.log[i].into);
    k := SomeLastWrite(s.log, e, m);
    LastWriteReplays(base, s.log, e, k);
  }

  /** Every restored row is stamped with the pointer of `e`. */
  lemma BeforesTrueUnfolded(s: State, e: Id, order: seq<Id>, decided: Id)
    requires UnmergeCheck(s, e).None? && Enumerates(order, Restorable(s, e))
    ensures BeforesTrue(s, Unmerge(s, e, order, decided)) <==>
            forall t :: t in Restorable(s, e) ==> s.ents[t].mergedInto == s.ents[e].mergedInto
  {
    var s' := Unmerge(s, e, order, decided);
    var was := s.ents[e].mergedInto.value;
    var rows := RestoreRows(order, was, e);
    if BeforesTrue(s, s') {
      forall t | t in Restorable(s, e)
        ensures s.ents[t].mergedInto == Some(was)
      {
        assert t in order;
        var i :| 0 <= i < |order| && order[i] == t;
        assert s'.log[|s.log| + i] == rows[i];
      }
    }
    if forall t :: t in Restorable(s, e) ==> s.ents[t].mergedInto == s.ents[e].mergedInto {
      forall i | |s.log| <= i < |s'.log|
        ensures s'.log[i].target in s.ents && PointerBefore(s'.log[i]) == Some(s.ents[s'.log[i].target].mergedInto)
      {
        if i < |s.log| + |order| {
          assert s'.log[i] == rows[i - |s.log|];
          assert order[i - |s.log|] in Restorable(s, e);
        }
      }
    }
  }

  // ----- runs that fail -----

  const STALE_RUN: seq<Op> :=
    [DoMerge(0, 1, []), DoMerge(1, 2, [0]), DoUnmerge(0, [], 1), DoMerge(0, 2, [])]

  const STALE_LOG: seq<LogRow> :=
    [MergeLogged(0, 1), Compressed(0, 1, 2, 1), MergeLogged(1, 2), Unmerged(0, 2), MergeLogged(0, 2)]

  /** merge(0,1), merge(1,2) */
  lemma TwoMerges(s: State, ptr: Ptrs) returns (s2: State)
    requires (|ptr| == 3 || |ptr| == 4) && (forall x: Id :: x < |ptr| ==> ptr[x].None?) && Shape(s, ptr, [])
    ensures Reaches(s, STALE_RUN[..2], s2)
    ensures Shape(s2, ptr[0 := Some(2)][1 := Some(2)], STALE_LOG[..3])
    ensures s2.cand == Restamp(Restamp(s.cand, Pair(0, 1), Pending, Merged), Pair(1, 2), Pending, Merged)
  {
    var s1 := MergeShape(s, [], s, ptr, [], 0, 1, [], ptr[0 := Some(1)]);
    assert s1.log == [MergeLogged(0, 1)];
    s2 := MergeShape(s, [] + [DoMerge(0, 1, [])], s1, ptr[0 := Some(1)], s1.log, 1, 2, [0],
        ptr[0 := Some(2)][1 := Some(2)]);
    assert CompressionRows([0], 1, 2) == [Compressed(0, 1, 2, 1)];
    assert s2.log == STALE_LOG[..3];
    assert [] + [DoMerge(0, 1, [])] + [DoMerge(1, 2, [0])] == STALE_RUN[..2];
  }

  /** unmerge(0) */
  lemma Freed(s: State, s2: State) returns (s3: State)
    requires Reaches(s, STALE_RUN[..2], s2) && Shape(s2, [Some(2), Some(2), None], STALE_LOG[..3])
    ensures Reaches(s, STALE_RUN[..3], s3) && Shape(s3, [None, Some(2), None], STALE_LOG[..4])
    ensures s3.cand == Restamp(s2.cand, Pair(0, 1), Merged, Pending)
  {
    var log := STALE_LOG[..3];
    assert log[1] == Compressed(0, 1, 2, 1);
    assert NextLevel(log, 0, {2}) == {1} by { assert log[1].via in NextLevel(log, 0, {2}); }
    assert NextLevel(log, 0, {1}) == {};
    assert Deepest(log, 0, {2}, 0) == Deepest(log, 0, {1}, 1) == {1};
    s3 := UnmergeShape(s, STALE_RUN[..2], s2, [Some(2), Some(2), None], log, 0, [], 1, [None, Some(2), None]);
    assert s3.log == STALE_LOG[..4];
    assert STALE_RUN[..2] + [DoUnmerge(0, [], 1)] == STALE_RUN[..3];
  }

  /** merge(0,2): row 0 now stands at 2 on its own account. */
  lemma MergedAgain(s: State, s3: State) returns (s4: State)
    requires Reaches(s, STALE_RUN[..3], s3) && Shape(s3, [None, Some(2), None], STALE_LOG[..4])
    ensures Reaches(s, STALE_RUN, s4) && Shape(s4, [Some(2), Some(2), None], STALE_LOG)
    ensures s4.cand == Restamp(s3.cand, Pair(0, 2), Pending, Merged)
  {
    s4 := MergeShape(s, STALE_RUN[..3], s3, [None, Some(2), None], s3.log, 0, 2, [], [Some(2), Some(2), None]);
    assert s4.log == STALE_LOG;
    assert STALE_RUN[..3] + [DoMerge(0, 2, [])] == STALE_RUN;
  }

  /** unmerge(1) */
  lemma StaleDrags(s: State, s4: State) returns (s5: State)
    requires Reaches(s, STALE_RUN, s4) && Shape(s4, [Some(2), Some(2), None], STALE_LOG)
    ensures Reaches(s, STALE_RUN + [DoUnmerge(1, [0], 2)], s5) && 0 in s5.ents && s5.ents[0].mergedInto == Some(1)
  {
    assert STALE_LOG[1] == Compressed(0, 1, 2, 1);
    assert MovedVia(STALE_LOG, 0, Some(2), 1);
    NoWayBack(STALE_LOG, 1, 2);
    s5 := UnmergeShape(s, STALE_RUN, s4, [Some(2), Some(2), None], STALE_LOG, 1, [0], 2, [Some(1), None, None]);
  }

  /** merge(0,1), merge(1,2), unmerge(0), merge(0,2), unmerge(1): row 0 stands at 2 on its own, and the
      compression logged by the second call drags it to 1. */
  lemma StaleCompressionDrags(s: State) returns (s4: State, s5: State)
    requires Shape(s, [None, None, None], [])
    ensures Reaches(s, STALE_RUN, s4) && Reaches(s, STALE_RUN + [DoUnmerge(1, [0], 2)], s5)
    ensures 0 in s4.ents && OnItsOwn(s4.log, 0, 1) && s4.ents[0].mergedInto == Some(2)
    ensures 0 in s5.ents && s5.ents[0].mergedInto == Some(1)
    ensures Outdated(s4.log, 1, 1, 4)
  {
    var s2 := TwoMerges(s, [None, None, None]);
    var s3 := Freed(s, s2);
    s4 := MergedAgain(s, s3);
    s5 := StaleDrags(s, s4);
    OvertakenEntry();
  }

  lemma OvertakenEntry()
    ensures Outdated(STALE_LOG, 1, 1, 4) && OnItsOwn(STALE_LOG, 0, 1)
  {
    assert LastWrite(STALE_LOG, 0, 4);
  }

  const MISSTATED_RUN: seq<Op> :=
    STALE_RUN[..2] + [DoUnmerge(1, [0], 2), DoUnmerge(0, [], 1), DoMerge(0, 2, []), DoMerge(1, 3, [])]

  const MISSTATED_LOG: seq<LogRow> :=
    STALE_LOG[..3] + [Restored(0, 2, 1), Unmerged(1, 2), Unmerged(0, 1), MergeLogged(0, 2), MergeLogged(1, 3)]

  /** unmerge(1) */
  lemma FirstUnmerge(s: State, s2: State) returns (s3: State)
    requires Reaches(s, MISSTATED_RUN[..2], s2) && Shape(s2, [Some(2), Some(2), None, None], MISSTATED_LOG[..3])
    ensures Reaches(s, MISSTATED_RUN[..3], s3) && Shape(s3, [Some(1), None, None, None], MISSTATED_LOG[..5])
  {
    var log := MISSTATED_LOG[..3];
    assert log[1] == Compressed(0, 1, 2, 1);
    assert MovedVia(log, 0, Some(2), 1);
    NoWayBack(log, 1, 2);
    s3 := UnmergeShape(s, MISSTATED_RUN[..2], s2, [Some(2), Some(2), None, None], log, 1, [0], 2,
        [Some(1), None, None, None]);
    assert s3.log == MISSTATED_LOG[..5];
    assert MISSTATED_RUN[..2] + [DoUnmerge(1, [0], 2)] == MISSTATED_RUN[..3];
  }

  /** unmerge(0) */
  lemma SecondUnmerge(s: State, s3: State) returns (s4: State)
    requires Reaches(s, MISSTATED_RUN[..3], s3) && Shape(s3, [Some(1), None, None, None], MISSTATED_LOG[..5])
    ensures Reaches(s, MISSTATED_RUN[..4], s4) && Shape(s4, [None, None, None, None], MISSTATED_LOG[..6])
  {
    var log := MISSTATED_LOG[..5];
    NoWayBack(log, 0, 1);
    s4 := UnmergeShape(s, MISSTATED_RUN[..3], s3, [Some(1), None, None, None], log, 0, [], 1, [None, None, None, None]);
    assert s4.log == MISSTATED_LOG[..6];
    assert MISSTATED_RUN[..3] + [DoUnmerge(0, [], 1)] == MISSTATED_RUN[..4];
  }

  /** merge(0,2) */
  lemma FirstParts(s: State, s4: State) returns (s5: State)
    requires Reaches(s, MISSTATED_RUN[..4], s4) && Shape(s4, [None, None, None, None], MISSTATED_LOG[..6])
    ensures Reaches(s, MISSTATED_RUN[..5], s5) && Shape(s5, [Some(2), None, None, None], MISSTATED_LOG[..7])
  {
    s5 := MergeShape(s, MISSTATED_RUN[..4], s4, [None, None, None, None], MISSTATED_LOG[..6], 0, 2, [],
        [Some(2), None, None, None]);
    assert s5.log == MISSTATED_LOG[..7];
    assert MISSTATED_RUN[..4] + [DoMerge(0, 2, [])] == MISSTATED_RUN[..5];
  }

  /** merge(1,3) */
  lemma SecondParts(s: State, s5: State) returns (s6: State)
    requires Reaches(s, MISSTATED_RUN[..5], s5) && Shape(s5, [Some(2), None, None, None], MISSTATED_LOG[..7])
    ensures Reaches(s, MISSTATED_RUN, s6) && Shape(s6, [Some(2), Some(3), None, None], MISSTATED_LOG)
  {
    s6 := MergeShape(s, MISSTATED_RUN[..5], s5, [Some(2), None, None, None], s5.log, 1, 3, [],
        [Some(2), Some(3), None, None]);
    assert s6.log == MISSTATED_LOG;
    assert MISSTATED_RUN[..5] + [DoMerge(1, 3, [])] == MISSTATED_RUN;
  }

  /** unmerge(1) again: row 0, which stands at 2, is stamped with the pointer of row 1. */
  lemma Misstates(s: State, s6: State) returns (s7: State)
    requires Reaches(s, MISSTATED_RUN, s6) && Shape(s6, [Some(2), Some(3), None, None], MISSTATED_LOG)
    ensures Reaches(s, MISSTATED_RUN + [DoUnmerge(1, [0], 3)], s7) && !BeforesTrue(s6, s7)
  {
    assert MISSTATED_LOG[1] == Compressed(0, 1, 2, 1);
    assert MovedVia(MISSTATED_LOG, 0, Some(2), 1);
    NoWayBack(MISSTATED_LOG, 1, 3);
    s7 := UnmergeShape(s, MISSTATED_RUN, s6, [Some(2), Some(3), None, None], MISSTATED_LOG, 1, [0], 3,
        [Some(1), None, None, None]);
    BeforesTrueUnfolded(s6, 1, [0], 3);
    assert 0 in Restorable(s6, 1);
  }

  /** merge(0,1), merge(1,2), unmerge(1), unmerge(0), merge(0,2), merge(1,3), unmerge(1): the last call
      restores row 0 and records that it pointed at 3, where it pointed at 2. */
  lemma RestoredBeforeIsWrong(s: State) returns (s6: State, s7: State)
    requires Shape(s, [None, None, None, None], [])
    ensures Reaches(s, MISSTATED_RUN, s6) && Reaches(s, MISSTATED_RUN + [DoUnmerge(1, [0], 3)], s7)
    ensures !BeforesTrue(s6, s7)
  {
    var s2 := TwoMerges(s, [None, None, None, None]);
    assert STALE_RUN[..2] == MISSTATED_RUN[..2] && STALE_LOG[..3] == MISSTATED_LOG[..3];
    var s3 := FirstUnmerge(s, s2);
    var s4 := SecondUnmerge(s, s3);
    var s5 := FirstParts(s, s4);
    s6 := SecondParts(s, s5);
    s7 := Misstates(s, s6);
  }
}
