/** What every run of the identity machine keeps: pointers stay one level deep, and the audit log
    alone reconstructs them. */
module IdentityRuns {
  import opened Basics
  import opened Identity

  /** Every merged row names a live, different row of its own kind. */
  ghost predicate Flat(s: State) {
    forall e :: e in s.ents && s.ents[e].mergedInto.Some? ==>
      var w := s.ents[e].mergedInto.value;
      w != e && Live(s, w) && s.ents[w].kind == s.ents[e].kind
  }

  /** A logged compression concerns two different known rows of one kind, and moved its target past
      the tombstone it names. */
  ghost predicate RowOk(ents: map<Id, Entity>, r: LogRow) {
    && r.target in ents
    && (r.Compressed? ==>
          && r.via in ents
          && r.via != r.target && r.via != r.into
          && ents[r.via].kind == ents[r.target].kind)
  }

  ghost predicate LogOk(s: State) {
    forall i :: 0 <= i < |s.log| ==> RowOk(s.ents, s.log[i])
  }

  /** The after.merged_into a row carries, if it carries one. */
  function PointerAfter(r: LogRow): Option<Option<Id>> {
    match r
    case MergeLogged(_, into) => Some(Some(into))
    case Compressed(_, _, into, _) => Some(Some(into))
    case Restored(_, _, into) => Some(Some(into))
    case Unmerged(_, _) => Some(None)
    case Renamed(_, _, _) => None
    case Repointed(_, _) => None
  }

  /** The pointer of `e` according to the log: the last after.merged_into written for it, or what it
      was when the log began. */
  function Replay(base: map<Id, Option<Id>>, log: seq<LogRow>, e: Id): Option<Id> {
    if log == [] then (if e in base then base[e] else None)
    else
      var r := log[|log| - 1];
      if r.target == e && PointerAfter(r).Some? then PointerAfter(r).value
      else Replay(base, log[..|log| - 1], e)
  }

  /** Nothing moved a pointer without logging it. */
  ghost predicate Replays(base: map<Id, Option<Id>>, s: State) {
    && base.Keys <= s.ents.Keys
    && forall e :: e in s.ents ==> s.ents[e].mergedInto == Replay(base, s.log, e)
  }

  ghost predicate Inv(base: map<Id, Option<Id>>, s: State) {
    Flat(s) && LogOk(s) && Replays(base, s)
  }

  lemma InitialInv(s: State)
    requires Flat(s) && s.log == []
    ensures Inv(Pointers(s), s)
  {
  }

  // ----- replaying appended rows -----

  lemma ReplaySnoc(base: map<Id, Option<Id>>, log: seq<LogRow>, r: LogRow, e: Id)
    ensures Replay(base, log + [r], e)
            == if r.target == e && PointerAfter(r).Some? then PointerAfter(r).value else Replay(base, log, e)
  {
  }

  /** A batch that writes one pointer for each row it lists. */
  lemma {:induction false} ReplayBatch(base: map<Id, Option<Id>>, log: seq<LogRow>, rows: seq<LogRow>,
                                       order: seq<Id>, into: Id, e: Id)
    requires |rows| == |order|
    requires forall i :: 0 <= i < |rows| ==> rows[i].target == order[i] && PointerAfter(rows[i]) == Some(Some(into))
    ensures Replay(base, log + rows, e) == if e in order then Some(into) else Replay(base, log, e)
  {
    if rows == [] {
      assert log + rows == log;
    } else {
      var n := |rows| - 1;
      ReplayBatch(base, log, rows[..n], order[..n], into, e);
      ReplaySnoc(base, log + rows[..n], rows[n], e);
      assert log + rows == (log + rows[..n]) + [rows[n]];
      assert order == order[..n] + [order[n]];
    }
  }

  lemma {:induction false} ReplayUntouched(base: map<Id, Option<Id>>, log: seq<LogRow>, e: Id)
    requires forall i :: 0 <= i < |log| ==> log[i].target != e
    ensures Replay(base, log, e) == if e in base then base[e] else None
  {
    if log == [] {
    } else {
      ReplayUntouched(base, log[..|log| - 1], e);
    }
  }

  // ----- each step -----

  lemma MergeKeepsInv(base: map<Id, Option<Id>>, s: State, l: Id, w: Id, order: seq<Id>)
    requires Inv(base, s) && MergeCheck(s, l, w).None? && Enumerates(order, Orphans(s, l))
    ensures Inv(base, Merge(s, l, w, order))
  {
    var s' := Merge(s, l, w, order);
    var rows := CompressionRows(order, l, w);
    forall e | e in s'.ents
      ensures s'.ents[e].mergedInto == Replay(base, s'.log, e)
    {
      ReplayBatch(base, s.log, rows, order, w, e);
      ReplaySnoc(base, s.log + rows, MergeLogged(l, w), e);
      assert e in order <==> e in Orphans(s, l);
    }
    forall i | 0 <= i < |s'.log|
      ensures RowOk(s'.ents, s'.log[i])
    {
      if |s.log| <= i < |s.log| + |order| {
        assert s'.log[i] == rows[i - |s.log|];
        assert order[i - |s.log|] in Orphans(s, l);
      }
    }
  }

  lemma UnmergeKeepsInv(base: map<Id, Option<Id>>, s: State, e: Id, order: seq<Id>, decided: Id)
    requires Inv(base, s) && UnmergeCheck(s, e).None? && Enumerates(order, Restorable(s, e))
    ensures Inv(base, Unmerge(s, e, order, decided))
  {
    var s' := Unmerge(s, e, order, decided);
    var was := s.ents[e].mergedInto.value;
    var rows := RestoreRows(order, was, e);
    forall t | t in s'.ents
      ensures s'.ents[t].mergedInto == Replay(base, s'.log, t)
    {
      ReplayBatch(base, s.log, rows, order, e, t);
      ReplaySnoc(base, s.log + rows, Unmerged(e, was), t);
      assert t in order <==> t in Restorable(s, e);
    }
    forall i | 0 <= i < |s'.log|
      ensures RowOk(s'.ents, s'.log[i])
    {
      if |s.log| <= i < |s.log| + |order| {
        assert s'.log[i] == rows[i - |s.log|];
        assert order[i - |s.log|] in Restorable(s, e);
      }
    }
  }

  lemma MintKeepsInv(base: map<Id, Option<Id>>, s: State, newId: Id, row: Entity)
    requires Inv(base, s) && newId !in s.ents && row.mergedInto.None?
    ensures Inv(base, Mint(s, newId, row))
  {
    ReplayUntouched(base, s.log, newId);
  }

  /** Rewriting the names of one row moves nothing. */
  lemma RelabelKeepsInv(base: map<Id, Option<Id>>, s: State, e: Id, name: string, aliases: set<string>)
    requires Inv(base, s) && e in s.ents
    ensures Inv(base, s.(ents := s.ents[e := s.ents[e].(name := name, aliases := aliases)]))
  {
  }

  /** Nor does logging something that carries no pointer. */
  lemma QuietRowKeepsInv(base: map<Id, Option<Id>>, s: State, r: LogRow)
    requires Inv(base, s) && r.target in s.ents && PointerAfter(r).None?
    ensures Inv(base, s.(log := s.log + [r]))
  {
  }

  lemma StepKeepsInv(base: map<Id, Option<Id>>, s: State, op: Op)
    requires Inv(base, s) && Legal(s, op)
    ensures Inv(base, Apply(s, op))
  {
    match op
    case DoMerge(l, w, order) =>
      if MergeCheck(s, l, w).None? { MergeKeepsInv(base, s, l, w, order); }
    case DoUnmerge(e, order, decided) =>
      if UnmergeCheck(s, e).None? { UnmergeKeepsInv(base, s, e, order, decided); }
    case DoRename(e, name) =>
      if e in s.ents {
        var row := s.ents[e];
        var aliases := (row.aliases + {row.name}) - {name};
        RelabelKeepsInv(base, s, e, name, aliases);
        QuietRowKeepsInv(base, s.(ents := s.ents[e := row.(name := name, aliases := aliases)]),
            Renamed(e, row.name, name));
      }
    case DoAlias(e, alias) =>
      if e in s.ents {
        RelabelKeepsInv(base, s, e, s.ents[e].name, s.ents[e].aliases + {alias});
      }
    case DoSplit(src, into, newId, moved) =>
      SplitKeepsInv(base, s, src, into, newId, moved);
    case DoResolve(surface, kind, top, v, newId) =>
      ResolveKeepsInv(base, s, surface, kind, top, v, newId);
    case DoQueue(_, _) =>
    case DoKeep(_) =>
  }

  lemma SplitKeepsInv(base: map<Id, Option<Id>>, s: State, src: Id, into: SplitInto, newId: Id, moved: bool)
    requires Inv(base, s) && newId !in s.ents
    ensures Inv(base, Apply(s, DoSplit(src, into, newId, moved)))
  {
    if Split(s, src, into, newId, moved).Ok? {
      match into
      case Existing(t) =>
        if moved { QuietRowKeepsInv(base, s, Repointed(src, t)); }
      case Create(name, kind, aliases) =>
        var row := Entity(if kind.Some? then kind.value else s.ents[src].kind, name, aliases, None);
        MintKeepsInv(base, s, newId, row);
        if moved { QuietRowKeepsInv(base, Mint(s, newId, row), Repointed(src, newId)); }
    }
  }

  lemma ResolveKeepsInv(base: map<Id, Option<Id>>, s: State, surface: string, kind: Kind, top: Option<Top>,
                        v: real, newId: Id)
    requires Inv(base, s) && newId !in s.ents
    requires top.Some? ==> Live(s, top.value.id) && s.ents[top.value.id].kind == kind
    ensures Inv(base, Resolve(s, surface, kind, top, v, newId))
  {
    var minted := Mint(s, newId, Entity(kind, surface, {surface}, None));
    MintKeepsInv(base, s, newId, minted.ents[newId]);
    if top.Some? {
      var t := top.value.id;
      RelabelKeepsInv(base, s, t, s.ents[t].name, s.ents[t].aliases + {surface});
      var queued := QueuePair(minted, newId, t);
      assert Inv(base, queued);
      assert Orphans(queued, newId) == {};
      MergeKeepsInv(base, queued, newId, t, []);
    }
  }

  /** Main result: from any flat table, after any run, every pointer is one level deep and the log
      replays to the table. */
  lemma {:induction false} RunKeepsInv(base: map<Id, Option<Id>>, s: State, ops: seq<Op>)
    requires Inv(base, s) && LegalRun(s, ops)
    ensures Inv(base, Run(s, ops))
    decreases |ops|
  {
    if ops == [] {
    } else {
      StepKeepsInv(base, s, ops[0]);
      RunKeepsInv(base, Apply(s, ops[0]), ops[1..]);
    }
  }

  // ----- what flatness buys: one hop is the whole chase -----

  /** Follow merged_into up to `hops` times. */
  function Chase(s: State, e: Id, hops: nat): Id
    decreases hops
  {
    if hops == 0 || e !in s.ents || s.ents[e].mergedInto.None? then e
    else Chase(s, s.ents[e].mergedInto.value, hops - 1)
  }

  lemma OneHopIsTheWholeChase(base: map<Id, Option<Id>>, s: State, ops: seq<Op>, e: Id, hops: nat)
    requires Inv(base, s) && LegalRun(s, ops)
    requires e in Run(s, ops).ents && hops > 0
    ensures Chase(Run(s, ops), e, hops) == Survivor(Run(s, ops), e)
    ensures Live(Run(s, ops), Survivor(Run(s, ops), e))
    ensures Run(s, ops).ents[Survivor(Run(s, ops), e)].kind == Run(s, ops).ents[e].kind
  {
    RunKeepsInv(base, s, ops);
    var s' := Run(s, ops);
    if s'.ents[e].mergedInto.Some? {
      assert Live(s', s'.ents[e].mergedInto.value);
    }
  }

  ghost predicate SameClass(s: State, x: Id, y: Id)
    requires x in s.ents && y in s.ents
  {
    Survivor(s, x) == Survivor(s, y)
  }

  /** A merge unites the loser's class with the winner's and changes no other. */
  lemma MergeUnitesTwoClasses(s: State, l: Id, w: Id, order: seq<Id>, x: Id, y: Id)
    requires Flat(s) && MergeCheck(s, l, w).None? && x in s.ents && y in s.ents
    ensures !SameClass(s, l, w)
    ensures SameClass(Merge(s, l, w, order), x, y) <==>
            || SameClass(s, x, y)
            || (SameClass(s, x, l) && SameClass(s, y, w))
            || (SameClass(s, x, w) && SameClass(s, y, l))
    ensures Survivor(Merge(s, l, w, order), x) == if SameClass(s, x, l) then w else Survivor(s, x)
  {
  }

  /** An unmerge moves `e` and the rows it restores into a class of their own, and regroups nothing
      else; each row it restores was, like `e`, merged before. */
  lemma UnmergeSplitsOffOneClass(s: State, e: Id, order: seq<Id>, decided: Id, x: Id, y: Id)
    requires Flat(s) && LogOk(s) && UnmergeCheck(s, e).None? && x in s.ents && y in s.ents
    ensures var out := {e} + Restorable(s, e);
            SameClass(Unmerge(s, e, order, decided), x, y) <==>
            ((x in out <==> y in out) && (x in out || SameClass(s, x, y)))
    ensures x in Restorable(s, e) ==> s.ents[x].mergedInto.Some?
  {
  }

  // ----- the audit trail's `before` -----

  /** The before.merged_into a row carries, if it carries a pointer change. */
  function PointerBefore(r: LogRow): Option<Option<Id>> {
    match r
    case MergeLogged(_, _) => Some(None)
    case Compressed(_, was, _, _) => Some(Some(was))
    case Restored(_, was, _) => Some(Some(was))
    case Unmerged(_, was) => Some(Some(was))
    case Renamed(_, _, _) => None
    case Repointed(_, _) => None
  }

  /** Every row one call appended records the pointer its target had when the call began. */
  ghost predicate BeforesTrue(s: State, s': State) {
    && s.log <= s'.log
    && forall i :: |s.log| <= i < |s'.log| && PointerBefore(s'.log[i]).Some? ==>
         s'.log[i].target in s.ents && PointerBefore(s'.log[i]).value == s.ents[s'.log[i].target].mergedInto
  }

  lemma MergeBeforesTrue(s: State, l: Id, w: Id, order: seq<Id>)
    requires MergeCheck(s, l, w).None? && Enumerates(order, Orphans(s, l))
    ensures BeforesTrue(s, Merge(s, l, w, order))
  {
    var s' := Merge(s, l, w, order);
    var rows := CompressionRows(order, l, w);
    forall i | |s.log| <= i < |s'.log|
      ensures s'.log[i].target in s.ents && PointerBefore(s'.log[i]) == Some(s.ents[s'.log[i].target].mergedInto)
    {
      if i < |s.log| + |order| {
        assert s'.log[i] == rows[i - |s.log|];
        assert order[i - |s.log|] in Orphans(s, l);
      }
    }
  }
}
