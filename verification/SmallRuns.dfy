/** Tools for following one particular run of the identity machine call by call: rows 0, 1, 2, ... of
    one kind, told by their pointers and the log alone. */
module SmallRuns {
  import opened Basics
  import opened Identity
  import opened IdentityRuns

  /** The pointers of rows 0, 1, 2, ... */
  type Ptrs = seq<Option<Id>>

  ghost predicate Shape(s: State, ptr: Ptrs, log: seq<LogRow>) {
    && (forall x :: x in s.ents <==> x < |ptr|)
    && (forall x: Id :: x < |ptr| ==> s.ents[x].mergedInto == ptr[x])
    && (forall x, y :: x in s.ents && y in s.ents ==> s.ents[x].kind == s.ents[y].kind)
    && s.log == log
  }

  ghost predicate Reaches(s0: State, ops: seq<Op>, s: State) {
    LegalRun(s0, ops) && Run(s0, ops) == s
  }

  lemma {:induction false} OneMore(s0: State, ops: seq<Op>, s: State, op: Op)
    requires Reaches(s0, ops, s) && Legal(s, op)
    ensures Reaches(s0, ops + [op], Apply(s, op))
    decreases |ops|
  {
    if ops == [] {
      assert Run(Apply(s, op), []) == Apply(s, op);
      assert (ops + [op])[1..] == [];
    } else {
      OneMore(Apply(s0, ops[0]), ops[1..], s, op);
      assert (ops + [op])[1..] == ops[1..] + [op];
    }
  }

  ghost predicate Ascending(order: seq<Id>) {
    forall i, j :: 0 <= i < j < |order| ==> order[i] < order[j]
  }

  ghost predicate PtrMerged(ptr: Ptrs, l: Id, w: Id, x: Id, p: Option<Id>)
    requires x < |ptr|
  {
    p == if x == l || ptr[x] == Some(l) then Some(w) else ptr[x]
  }

  lemma MergeShape(s0: State, ops: seq<Op>, s: State, ptr: Ptrs, log: seq<LogRow>, l: Id, w: Id, order: seq<Id>,
                   ptr': Ptrs)
    returns (s': State)
    requires Reaches(s0, ops, s) && Shape(s, ptr, log) && l != w && l < |ptr| && w < |ptr| && ptr[l].None?
    requires ptr[w].None?
    requires Ascending(order) && forall x: Id :: x in order <==> x < |ptr| && ptr[x] == Some(l)
    requires |ptr'| == |ptr| && forall x: Id :: x < |ptr| ==> PtrMerged(ptr, l, w, x, ptr'[x])
    ensures Reaches(s0, ops + [DoMerge(l, w, order)], s')
    ensures s'.cand == Restamp(s.cand, PairOf(l, w), Pending, Merged)
    ensures Shape(s', ptr', log + CompressionRows(order, l, w) + [MergeLogged(l, w)])
  {
    s' := Merge(s, l, w, order);
    assert s'.ents.Keys == s.ents.Keys;
    OneMore(s0, ops, s, DoMerge(l, w, order));
    assert forall x: Id :: x < |ptr| ==> PtrMerged(ptr, l, w, x, ptr'[x]);
  }

  ghost predicate PtrUnmerged(ptr: Ptrs, log: seq<LogRow>, e: Id, x: Id, p: Option<Id>)
    requires x < |ptr|
  {
    p == if x == e then None else if MovedVia(log, x, ptr[x], e) then Some(e) else ptr[x]
  }

  lemma UnmergeShape(s0: State, ops: seq<Op>, s: State, ptr: Ptrs, log: seq<LogRow>, e: Id, order: seq<Id>,
                     decided: Id, ptr': Ptrs)
    returns (s': State)
    requires Reaches(s0, ops, s) && Shape(s, ptr, log) && e < |ptr| && ptr[e].Some?
    requires decided in Deepest(log, e, {ptr[e].value}, 0)
    requires |ptr'| == |ptr| && forall x: Id :: x < |ptr| ==> ptr[x] != Some(e) && PtrUnmerged(ptr, log, e, x, ptr'[x])
    requires Ascending(order) && forall x: Id :: x in order <==> x < |ptr| && x != e && ptr[x] != ptr'[x]
    ensures UnmergeCheck(s, e).None? && s' == Unmerge(s, e, order, decided) && Enumerates(order, Restorable(s, e))
    ensures Reaches(s0, ops + [DoUnmerge(e, order, decided)], s')
    ensures s'.cand == Restamp(s.cand, PairOf(e, decided), Merged, Pending)
    ensures Shape(s', ptr', log + RestoreRows(order, ptr[e].value, e) + [Unmerged(e, ptr[e].value)])
  {
    assert forall x: Id :: x < |ptr| ==> PtrUnmerged(ptr, log, e, x, ptr'[x]);
    assert forall x :: x in Restorable(s, e) <==> x in order;
    s' := Unmerge(s, e, order, decided);
    assert s'.ents.Keys == s.ents.Keys;
    OneMore(s0, ops, s, DoUnmerge(e, order, decided));
  }

  /** A row that no compression took to its present survivor is reported with its pointer. */
  lemma NoWayBack(log: seq<LogRow>, e: Id, p: Id)
    requires forall i :: 0 <= i < |log| && log[i].Compressed? ==> log[i].target != e || log[i].into != p
    ensures Deepest(log, e, {p}, 0) == {p}
  {
    assert NextLevel(log, e, {p}) == {};
  }
}
