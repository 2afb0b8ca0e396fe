/** Undoing merges: last-first undo of any run of merges is exact, undo of one merge is exact if and
    only if no older compression through its loser is still in force. */
module MergeUndo {
  import opened Basics
  import opened Identity
  import opened IdentityRuns
  import opened Lineage

  datatype MergeCall = MergeCall(loser: Id, winner: Id, order: seq<Id>)

  /** Every merge of the list succeeds, one after the other. */
  ghost predicate AllSucceed(s: State, ms: seq<MergeCall>)
    decreases |ms|
  {
    ms == [] ||
    var m := ms[0];
    && MergeCheck(s, m.loser, m.winner).None?
    && Enumerates(m.order, Orphans(s, m.loser))
    && AllSucceed(Merge(s, m.loser, m.winner, m.order), ms[1..])
  }

  ghost function MergeAll(s: State, ms: seq<MergeCall>): State
    requires AllSucceed(s, ms)
    decreases |ms|
  {
    if ms == [] then s else MergeAll(Merge(s, ms[0].loser, ms[0].winner, ms[0].order), ms[1..])
  }

  /** What the database chose during one unmerge. */
  datatype UndoChoice = UndoChoice(order: seq<Id>, decided: Id)

  /** `s'` is reached from `s` by calling unmerge_entity on the losers of `ms`, the last merge first,
      every call succeeding. */
  ghost predicate UndoneLastFirst(s: State, ms: seq<MergeCall>, choices: seq<UndoChoice>, s': State)
    decreases |ms|
  {
    |choices| == |ms| &&
    if ms == [] then s' == s
    else exists t ::
      && UndoneLastFirst(s, ms[1..], choices[1..], t)
      && Legal(t, DoUnmerge(ms[0].loser, choices[0].order, choices[0].decided))
      && UnmergeCheck(t, ms[0].loser).None?
      && s' == Unmerge(t, ms[0].loser, choices[0].order, choices[0].decided)
  }

  // ----- one merge, one unmerge -----

  /** Which rows an unmerge of `l` would restore, in any state that keeps the pointers of the merge
      and whose later log holds no compression through `l`. */
  lemma RestorableAfter(s: State, l: Id, w: Id, order: seq<Id>, extra: seq<LogRow>, t: Id)
    requires LogOk(s) && MergeCheck(s, l, w).None? && Enumerates(order, Orphans(s, l)) && t in s.ents
    requires forall i :: 0 <= i < |extra| && extra[i].Compressed? ==> extra[i].via != l
    ensures t != l && MovedVia(Merge(s, l, w, order).log + extra, t, MergedEnts(s, l, w)[t].mergedInto, l)
            <==> t in Restorable(s, l) || t in Orphans(s, l)
  {
    var rows := CompressionRows(order, l, w);
    var log := Merge(s, l, w, order).log + extra;
    assert forall i :: 0 <= i < |s.log| ==> log[i] == s.log[i];
    if t in Restorable(s, l) {
      var i :| 0 <= i < |s.log| && s.log[i].Compressed? && s.log[i].target == t && s.log[i].via == l
               && s.ents[t].mergedInto == Some(s.log[i].into);
      assert RowOk(s.ents, s.log[i]);
      assert log[i] == s.log[i];
    }
    if t in Orphans(s, l) {
      assert t in order;
      var k :| 0 <= k < |order| && order[k] == t;
      assert log[|s.log| + k] == rows[k];
    }
    forall i | |s.log| + |order| <= i < |log| && log[i].Compressed?
      ensures log[i].via != l
    {
      assert log[i] == ([MergeLogged(l, w)] + extra)[i - |s.log| - |order|];
    }
    if t != l && MovedVia(log, t, MergedEnts(s, l, w)[t].mergedInto, l) {
      var i :| 0 <= i < |log| && log[i].Compressed? && log[i].target == t && log[i].via == l
               && MergedEnts(s, l, w)[t].mergedInto == Some(log[i].into);
      if |s.log| <= i {
        assert log[i] == rows[i - |s.log|];
        assert t in order;
      }
    }
  }

  /** Undoing a merge right away restores the pointers if and only if no row still stands where an
      older compression through the loser put it; in any case exactly those rows are dragged to it. */
  lemma MergeThenUnmergeIff(s: State, l: Id, w: Id, order: seq<Id>, undoOrder: seq<Id>, decided: Id)
    requires Flat(s) && LogOk(s) && MergeCheck(s, l, w).None? && Enumerates(order, Orphans(s, l))
    ensures UnmergeCheck(Merge(s, l, w, order), l).None?
    ensures forall t :: t in s.ents ==>
              Unmerge(Merge(s, l, w, order), l, undoOrder, decided).ents[t].mergedInto
              == if t in Restorable(s, l) then Some(l) else s.ents[t].mergedInto
    ensures Pointers(Unmerge(Merge(s, l, w, order), l, undoOrder, decided)) == Pointers(s)
            <==> Restorable(s, l) == {}
  {
    var s1 := Merge(s, l, w, order);
    var s2 := Unmerge(s1, l, undoOrder, decided);
    assert s1.log + [] == s1.log;
    forall t | t in s.ents
      ensures s2.ents[t].mergedInto == if t in Restorable(s, l) then Some(l) else s.ents[t].mergedInto
    {
      RestorableAfter(s, l, w, order, [], t);
    }
    assert forall t :: t in s.ents ==> Pointers(s2)[t] == s2.ents[t].mergedInto;
    if Restorable(s, l) == {} {
      assert Pointers(s2) == Pointers(s);
    } else {
      var t :| t in Restorable(s, l);
      assert s.ents[t].mergedInto != Some(l);
      assert Pointers(s2)[t] != Pointers(s)[t];
    }
  }

  // ----- last-first undo of a run of merges -----

  /** No compression on record concerns a row that is live again. An empty log has this, and so has
      every state reached from one without an unmerge. */
  ghost predicate Settled(s: State) {
    forall i :: 0 <= i < |s.log| && s.log[i].Compressed? ==> !Live(s, s.log[i].target) && !Live(s, s.log[i].via)
  }

  lemma MergeKeepsSettled(s: State, l: Id, w: Id, order: seq<Id>)
    requires Settled(s) && MergeCheck(s, l, w).None? && Enumerates(order, Orphans(s, l))
    ensures Settled(Merge(s, l, w, order))
  {
    var s' := Merge(s, l, w, order);
    forall i | 0 <= i < |s'.log| && s'.log[i].Compressed?
      ensures !Live(s', s'.log[i].target) && !Live(s', s'.log[i].via)
    {
      if i < |s.log| {
        assert s'.log[i] == s.log[i];
      } else {
        assert s'.log[i] == CompressionRows(order, l, w)[i - |s.log|];
        assert order[i - |s.log|] in Orphans(s, l);
      }
    }
  }

  /** Nothing older interferes with the undo: before each merge, no row stands where a compression
      through its loser put it, and none took the loser to the winner. */
  ghost predicate Clear(s: State, ms: seq<MergeCall>)
    requires AllSucceed(s, ms)
    decreases |ms|
  {
    ms == [] ||
    var m := ms[0];
    && Restorable(s, m.loser) == {}
    && NextLevel(s.log, m.loser, {m.winner}) == {}
    && Clear(Merge(s, m.loser, m.winner, m.order), ms[1..])
  }

  lemma {:induction false} SettledIsClear(base: map<Id, Option<Id>>, s: State, ms: seq<MergeCall>)
    requires Inv(base, s) && Settled(s) && AllSucceed(s, ms)
    ensures Clear(s, ms)
    decreases |ms|
  {
    if ms == [] {
    } else {
      var m := ms[0];
      MergeKeepsSettled(s, m.loser, m.winner, m.order);
      MergeKeepsInv(base, s, m.loser, m.winner, m.order);
      SettledIsClear(base, Merge(s, m.loser, m.winner, m.order), ms[1..]);
    }
  }

  /** The candidate table with every 'merged' row of the listed pairs put back to 'pending'. */
  function Reopened(cand: map<Pair, Status>, ms: seq<MergeCall>): map<Pair, Status> {
    map p | p in cand ::
      if cand[p] == Merged && exists i :: 0 <= i < |ms| && PairOf(ms[i].loser, ms[i].winner) == p then Pending
      else cand[p]
  }

  lemma {:induction false} LosersStartLive(s: State, ms: seq<MergeCall>)
    requires AllSucceed(s, ms)
    ensures forall i :: 0 <= i < |ms| ==> Live(s, ms[i].loser)
    decreases |ms|
  {
    if ms == [] {
    } else {
      var s1 := Merge(s, ms[0].loser, ms[0].winner, ms[0].order);
      LosersStartLive(s1, ms[1..]);
      forall i | 0 <= i < |ms|
        ensures Live(s, ms[i].loser)
      {
        if i > 0 {
          assert ms[i] == ms[1..][i - 1];
          assert Live(s1, ms[i].loser);
        }
      }
    }
  }

  /** What a run of merges and its undo may have logged: compressions through the run's losers, onto
      rows live at the start, and never onto where the target already pointed. */
  ghost predicate RunRow(s: State, ms: seq<MergeCall>, r: LogRow) {
    r.Compressed? ==>
      && (exists k :: 0 <= k < |ms| && ms[k].loser == r.via)
      && Live(s, r.into)
      && r.target in s.ents && s.ents[r.target].mergedInto != Some(r.into)
  }

  ghost predicate Undone(s: State, ms: seq<MergeCall>, s': State) {
    && Pointers(s') == Pointers(s)
    && s'.cand == Reopened(s.cand, ms)
    && s.log <= s'.log
    && forall i :: |s.log| <= i < |s'.log| ==> RunRow(s, ms, s'.log[i])
  }

  /** The pointer half of one level of the induction: `t` still has the pointers of the merge. */
  lemma LayerPointers(s: State, l: Id, w: Id, order: seq<Id>, t: State, undoOrder: seq<Id>, decided: Id)
    requires LogOk(s) && MergeCheck(s, l, w).None? && Enumerates(order, Orphans(s, l)) && Restorable(s, l) == {}
    requires Merge(s, l, w, order).log <= t.log && Pointers(t) == Pointers(Merge(s, l, w, order))
    requires forall i :: |Merge(s, l, w, order).log| <= i < |t.log| && t.log[i].Compressed? ==> t.log[i].via != l
    ensures t.ents.Keys == s.ents.Keys && UnmergeCheck(t, l).None? && t.ents[l].mergedInto == Some(w)
    ensures Pointers(Unmerge(t, l, undoOrder, decided)) == Pointers(s)
  {
    var s1 := Merge(s, l, w, order);
    var extra := t.log[|s1.log|..];
    assert t.log == s1.log + extra;
    assert t.ents.Keys == Pointers(t).Keys == Pointers(s1).Keys == s.ents.Keys;
    assert forall x :: x in s.ents ==>
        t.ents[x].mergedInto == Pointers(t)[x] == Pointers(s1)[x] == MergedEnts(s, l, w)[x].mergedInto;
    var s' := Unmerge(t, l, undoOrder, decided);
    forall x | x in s.ents
      ensures Pointers(s')[x] == Pointers(s)[x]
    {
      RestorableAfter(s, l, w, order, extra, x);
    }
  }

  /** One level of the induction: `t` is the state after the later merges have been undone. */
  lemma UndoLayer(base: map<Id, Option<Id>>, s: State, ms: seq<MergeCall>, t: State, c: UndoChoice)
    requires Inv(base, s) && AllSucceed(s, ms) && Clear(s, ms) && ms != []
    requires Undone(Merge(s, ms[0].loser, ms[0].winner, ms[0].order), ms[1..], t)
    requires UnmergeCheck(t, ms[0].loser).None?
    requires Legal(t, DoUnmerge(ms[0].loser, c.order, c.decided))
    ensures Undone(s, ms, Unmerge(t, ms[0].loser, c.order, c.decided))
  {
    var l, w, order := ms[0].loser, ms[0].winner, ms[0].order;
    var s1 := Merge(s, l, w, order);
    LosersStartLive(s1, ms[1..]);
    assert forall i :: |s1.log| <= i < |t.log| && t.log[i].Compressed? ==> t.log[i].via != l by {
      assert forall i :: |s1.log| <= i < |t.log| ==> RunRow(s1, ms[1..], t.log[i]);
    }
    LayerPointers(s, l, w, order, t, c.order, c.decided);
    assert c.decided == w by {
      assert s1.ents[l].mergedInto == Some(w);
      assert forall i :: |s1.log| <= i < |t.log| ==> RunRow(s1, ms[1..], t.log[i]);
      WalkStaysAtWinner(s, l, w, order, t.log);
    }
    ReopenedLayer(s.cand, ms);
    LayerRows(s, ms, t, c);
  }

  lemma WayBack(log: seq<LogRow>, l: Id, w: Id, i: nat)
    requires i < |log| && log[i].Compressed? && log[i].target == l && log[i].into == w
    ensures log[i].via in NextLevel(log, l, {w})
  {
  }

  /** With the pointer back at the winner, no compression on record leads anywhere else. */
  lemma WalkStaysAtWinner(s: State, l: Id, w: Id, order: seq<Id>, log: seq<LogRow>)
    requires NextLevel(s.log, l, {w}) == {} && MergeCheck(s, l, w).None? && Enumerates(order, Orphans(s, l))
    requires Merge(s, l, w, order).log <= log
    requires forall i :: |Merge(s, l, w, order).log| <= i < |log| && log[i].Compressed? && log[i].target == l ==>
               log[i].into != w
    ensures Deepest(log, l, {w}, 0) == {w}
  {
    var s1 := Merge(s, l, w, order);
    forall i | 0 <= i < |s1.log| && s1.log[i].Compressed?
      ensures s1.log[i].target != l || s1.log[i].into != w
    {
      if i < |s.log| {
        assert s1.log[i] == s.log[i];
        if s.log[i].target == l && s.log[i].into == w { WayBack(s.log, l, w, i); }
      } else {
        assert s1.log[i] == CompressionRows(order, l, w)[i - |s.log|];
        assert order[i - |s.log|] in Orphans(s, l);
      }
    }
    assert forall i :: 0 <= i < |s1.log| ==> log[i] == s1.log[i];
    assert NextLevel(log, l, {w}) == {};
  }

  lemma ReopenedLayer(cand: map<Pair, Status>, ms: seq<MergeCall>)
    requires ms != []
    ensures var p := PairOf(ms[0].loser, ms[0].winner);
            Restamp(Reopened(Restamp(cand, p, Pending, Merged), ms[1..]), p, Merged, Pending) == Reopened(cand, ms)
  {
    var p := PairOf(ms[0].loser, ms[0].winner);
    var inner := Reopened(Restamp(cand, p, Pending, Merged), ms[1..]);
    var left, right := Restamp(inner, p, Merged, Pending), Reopened(cand, ms);
    forall q | q in cand
      ensures left[q] == right[q]
    {
      assert (exists i :: 0 <= i < |ms| && PairOf(ms[i].loser, ms[i].winner) == q)
             <==> q == p || exists i :: 0 <= i < |ms[1..]| && PairOf(ms[1..][i].loser, ms[1..][i].winner) == q by {
        if i :| 0 <= i < |ms| && PairOf(ms[i].loser, ms[i].winner) == q {
          assert i == 0 || ms[i] == ms[1..][i - 1];
        }
        if i :| 0 <= i < |ms[1..]| && PairOf(ms[1..][i].loser, ms[1..][i].winner) == q {
          assert ms[1..][i] == ms[i + 1];
        }
        assert PairOf(ms[0].loser, ms[0].winner) == p;
      }
    }
  }

  lemma RunRowOuter(s: State, ms: seq<MergeCall>, r: LogRow)
    requires ms != [] && MergeCheck(s, ms[0].loser, ms[0].winner).None?
    requires RunRow(Merge(s, ms[0].loser, ms[0].winner, ms[0].order), ms[1..], r)
    ensures RunRow(s, ms, r)
  {
    if r.Compressed? {
      var k :| 0 <= k < |ms[1..]| && ms[1..][k].loser == r.via;
      assert ms[k + 1].loser == r.via;
    }
  }

  lemma MergeRowsAreRunRows(s: State, ms: seq<MergeCall>, i: nat)
    requires ms != [] && MergeCheck(s, ms[0].loser, ms[0].winner).None?
    requires Enumerates(ms[0].order, Orphans(s, ms[0].loser))
    requires |s.log| <= i < |Merge(s, ms[0].loser, ms[0].winner, ms[0].order).log|
    ensures RunRow(s, ms, Merge(s, ms[0].loser, ms[0].winner, ms[0].order).log[i])
  {
    if i < |s.log| + |ms[0].order| {
      assert ms[0].order[i - |s.log|] in Orphans(s, ms[0].loser);
    }
  }

  lemma LayerRows(s: State, ms: seq<MergeCall>, t: State, c: UndoChoice)
    requires AllSucceed(s, ms) && ms != []
    requires Undone(Merge(s, ms[0].loser, ms[0].winner, ms[0].order), ms[1..], t)
    requires UnmergeCheck(t, ms[0].loser).None?
    ensures s.log <= Unmerge(t, ms[0].loser, c.order, c.decided).log
    ensures forall i :: |s.log| <= i < |Unmerge(t, ms[0].loser, c.order, c.decided).log| ==>
              RunRow(s, ms, Unmerge(t, ms[0].loser, c.order, c.decided).log[i])
  {
    var l := ms[0].loser;
    var s1 := Merge(s, l, ms[0].winner, ms[0].order);
    var log := Unmerge(t, l, c.order, c.decided).log;
    assert s.log <= s1.log <= t.log <= log;
    forall i | |s.log| <= i < |log|
      ensures RunRow(s, ms, log[i])
    {
      if i < |s1.log| {
        assert log[i] == s1.log[i];
        MergeRowsAreRunRows(s, ms, i);
      } else if i < |t.log| {
        assert log[i] == t.log[i];
        RunRowOuter(s, ms, t.log[i]);
      } else if i < |t.log| + |c.order| {
        assert log[i] == RestoreRows(c.order, t.ents[l].mergedInto.value, l)[i - |t.log|];
      }
    }
  }

  /** Main result: after any run of successful merges that nothing older interferes with, unmerging the
      losers in last-first order restores every pointer, and leaves every candidate as it was except that
      the merged pairs' 'merged' rows are pending again. */
  lemma {:induction false} LastFirstUndo(base: map<Id, Option<Id>>, s: State, ms: seq<MergeCall>,
                                         choices: seq<UndoChoice>, s': State)
    requires Inv(base, s) && AllSucceed(s, ms) && Clear(s, ms)
    requires UndoneLastFirst(MergeAll(s, ms), ms, choices, s')
    ensures Undone(s, ms, s')
    decreases |ms|
  {
    if ms == [] {
      assert s'.cand == Reopened(s.cand, ms);
    } else {
      var m := ms[0];
      var s1 := Merge(s, m.loser, m.winner, m.order);
      MergeKeepsInv(base, s, m.loser, m.winner, m.order);
      var t :| && UndoneLastFirst(MergeAll(s1, ms[1..]), ms[1..], choices[1..], t)
               && Legal(t, DoUnmerge(m.loser, choices[0].order, choices[0].decided))
               && UnmergeCheck(t, m.loser).None?
               && s' == Unmerge(t, m.loser, choices[0].order, choices[0].decided);
      LastFirstUndo(base, s1, ms[1..], choices[1..], t);
      UndoLayer(base, s, ms, t, choices[0]);
    }
  }

  /** The same, told from an empty log and row by row. */
  lemma UndoFromEmptyLog(s: State, ms: seq<MergeCall>, choices: seq<UndoChoice>, s': State)
    requires Flat(s) && s.log == [] && AllSucceed(s, ms)
    requires UndoneLastFirst(MergeAll(s, ms), ms, choices, s')
    ensures Pointers(s') == Pointers(s)
    ensures forall i :: 0 <= i < |ms| ==>
              var p := PairOf(ms[i].loser, ms[i].winner);
              p in s.cand && s.cand[p] in {Pending, Merged} ==> p in s'.cand && s'.cand[p] == Pending
    ensures forall p :: p in s.cand && (forall i :: 0 <= i < |ms| ==> PairOf(ms[i].loser, ms[i].winner) != p) ==>
              p in s'.cand && s'.cand[p] == s.cand[p]
  {
    InitialInv(s);
    SettledIsClear(Pointers(s), s, ms);
    LastFirstUndo(Pointers(s), s, ms, choices, s');
  }

  /** Whatever a run of merges left merged can be unmerged: some choice is always possible. */
  lemma SomeUndoChoice(t: State, e: Id) returns (c: UndoChoice)
    requires UnmergeCheck(t, e).None?
    ensures Legal(t, DoUnmerge(e, c.order, c.decided))
  {
    DeepestNonempty(t.log, e, {t.ents[e].mergedInto.value}, 0);
    var decided :| decided in DecidedPartners(t, e);
    c := UndoChoice(Listing(Restorable(t, e)), decided);
  }

  /** No later merge revives a row. */
  lemma {:induction false} StaysMerged(s: State, ms: seq<MergeCall>, e: Id)
    requires AllSucceed(s, ms) && e in s.ents && s.ents[e].mergedInto.Some?
    ensures e in MergeAll(s, ms).ents && MergeAll(s, ms).ents[e].mergedInto.Some?
    decreases |ms|
  {
    if ms == [] {
    } else {
      StaysMerged(Merge(s, ms[0].loser, ms[0].winner, ms[0].order), ms[1..], e);
    }
  }

  /** Undoing merges revives their losers only. */
  lemma {:induction false} OthersStayMerged(s: State, ms: seq<MergeCall>, choices: seq<UndoChoice>, s': State, e: Id)
    requires UndoneLastFirst(s, ms, choices, s') && e in s.ents && s.ents[e].mergedInto.Some?
    requires forall i :: 0 <= i < |ms| ==> ms[i].loser != e
    ensures e in s'.ents && s'.ents[e].mergedInto.Some?
    decreases |ms|
  {
    if ms == [] {
    } else {
      var t :| && UndoneLastFirst(s, ms[1..], choices[1..], t)
               && Legal(t, DoUnmerge(ms[0].loser, choices[0].order, choices[0].decided))
               && UnmergeCheck(t, ms[0].loser).None?
               && s' == Unmerge(t, ms[0].loser, choices[0].order, choices[0].decided);
      OthersStayMerged(s, ms[1..], choices[1..], t, e);
    }
  }

  /** Whatever the history, the undo goes through: every unmerge finds its row merged. */
  lemma {:induction false} UndoGoesThrough(s: State, ms: seq<MergeCall>)
    requires AllSucceed(s, ms)
    ensures exists choices, s' :: UndoneLastFirst(MergeAll(s, ms), ms, choices, s')
    decreases |ms|
  {
    if ms == [] {
      var none: seq<UndoChoice> := [];
      assert UndoneLastFirst(MergeAll(s, ms), ms, none, s);
    } else {
      var m := ms[0];
      var s1 := Merge(s, m.loser, m.winner, m.order);
      UndoGoesThrough(s1, ms[1..]);
      var choices, t :| UndoneLastFirst(MergeAll(s1, ms[1..]), ms[1..], choices, t);
      LosersStartLive(s1, ms[1..]);
      StaysMerged(s1, ms[1..], m.loser);
      OthersStayMerged(MergeAll(s1, ms[1..]), ms[1..], choices, t, m.loser);
      var c := SomeUndoChoice(t, m.loser);
      UndoneOneMore(MergeAll(s, ms), ms, choices, t, c);
    }
  }

  lemma UndoneOneMore(s: State, ms: seq<MergeCall>, choices: seq<UndoChoice>, t: State, c: UndoChoice)
    requires ms != [] && UndoneLastFirst(s, ms[1..], choices, t)
    requires UnmergeCheck(t, ms[0].loser).None? && Legal(t, DoUnmerge(ms[0].loser, c.order, c.decided))
    ensures UndoneLastFirst(s, ms, [c] + choices, Unmerge(t, ms[0].loser, c.order, c.decided))
  {
  }
}
