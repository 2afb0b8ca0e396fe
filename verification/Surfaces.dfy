/** The names an entity can be found by. No service ever takes one away, a merge hands the loser's to the
    winner, and which calls break the promise that a merged entity's names all lead to its survivor. */
module Surfaces {
  import opened Basics
  import opened Identity
  import opened IdentityRuns
  import opened SmallRuns
  import opened UndoHistory

  // ----- one call -----

  /** A rename that goes through adds one name, demotes the old one to an alias, touches nothing else and
      logs both names, unless it changes nothing; it raises exactly on a blank name or an unknown row. */
  lemma RenameAddsOneName(s: State, e: Id, newName: string)
    ensures newName == "" ==> Rename(s, e, newName) == Err(BlankName)
    ensures newName != "" && e !in s.ents ==> Rename(s, e, newName) == Err(NotFound(e))
    ensures newName != "" && e in s.ents ==>
              && Rename(s, e, newName).Ok?
              && var s' := Rename(s, e, newName).value;
              && s'.cand == s.cand && s'.ents.Keys == s.ents.Keys && Pointers(s') == Pointers(s)
              && (forall x :: x in s.ents && x != e ==> s'.ents[x] == s.ents[x])
              && s'.ents[e].kind == s.ents[e].kind && s'.ents[e].name == newName
              && SurfacesOf(s'.ents[e]) == SurfacesOf(s.ents[e]) + {newName}
              && (newName != s.ents[e].name ==> s.ents[e].name in s'.ents[e].aliases && newName !in s'.ents[e].aliases)
              && s'.log == s.log + (if newName != s.ents[e].name then [Renamed(e, s.ents[e].name, newName)] else [])
              && (newName == s.ents[e].name ==> s' == s)
  {
    if Rename(s, e, newName).Ok? {
      var s' := Rename(s, e, newName).value;
      assert forall x :: x in s.ents ==> Pointers(s')[x] == Pointers(s)[x];
    }
  }

  /** An appended alias reaches a live row that is named, and nothing else. */
  lemma AliasAddsOneName(s: State, e: Id, alias: string, x: Id)
    requires x in s.ents
    ensures var s' := AppendAlias(s, e, alias);
            && s'.log == s.log && s'.cand == s.cand && s'.ents.Keys == s.ents.Keys
            && (s'.ents[x] != s.ents[x] ==> x == e)
            && s'.ents[x].kind == s.ents[x].kind && s'.ents[x].name == s.ents[x].name
            && s'.ents[x].mergedInto == s.ents[x].mergedInto
            && (Live(s, e) && alias != "" ==> SurfacesOf(s'.ents[e]) == SurfacesOf(s.ents[e]) + {alias}
                                              && alias in s'.ents[e].aliases)
            && (!Live(s, e) || alias == "" ==> s' == s)
  {
  }

  /** A split that goes through ends with source and target two different live rows, keeps every row it
      found and every candidate, and mints a row as it was asked for, of the source's kind by default. */
  lemma SplitKeepsRows(s: State, source: Id, into: SplitInto, newId: Id, moved: bool)
    requires newId !in s.ents
    ensures Split(s, source, into, newId, moved).Err? <==>
            !Live(s, source) || (into.Existing? && (!Live(s, into.id) || into.id == source))
    ensures Split(s, source, into, newId, moved).Ok? ==>
              var s' := Split(s, source, into, newId, moved).value;
              var target := if into.Existing? then into.id else newId;
              && Live(s', source) && Live(s', target) && source != target
              && s'.ents.Keys == s.ents.Keys + {target} && s'.cand == s.cand
              && (forall x :: x in s.ents ==> s'.ents[x] == s.ents[x])
              && s'.log == s.log + (if moved then [Repointed(source, target)] else [])
              && (into.Create? ==>
                    && s'.ents[newId].name == into.name && s'.ents[newId].aliases == into.aliases
                    && (into.kind.None? ==> s'.ents[newId].kind == s.ents[source].kind)
                    && (into.kind.Some? ==> s'.ents[newId].kind == into.kind.value))
  {
  }

  /** Which error a split raises: the source is looked at first, and a target that is the source last. */
  lemma SplitErrors(s: State, source: Id, into: SplitInto, newId: Id, moved: bool)
    requires Split(s, source, into, newId, moved).Err?
    ensures match Split(s, source, into, newId, moved).error
            case NotFound(x) => x !in s.ents && (x == source || (Live(s, source) && into == Existing(x)))
            case AlreadyMerged(x, p) =>
              && x in s.ents && s.ents[x].mergedInto == Some(p)
              && (x == source || (Live(s, source) && into == Existing(x)))
            case SameEntity => Live(s, source) && into == Existing(source)
            case _ => false
  {
  }

  // ----- the row a merge leaves -----

  /** After a merge a name is an alias of the winner exactly when it is not the winner's own name and was an
      alias of the winner, or the loser's name or alias. */
  lemma MergedAliasesIff(s: State, l: Id, w: Id, order: seq<Id>, a: string)
    requires MergeCheck(s, l, w).None?
    ensures a in Merge(s, l, w, order).ents[w].aliases <==>
            a != s.ents[w].name && (a in s.ents[w].aliases || a == s.ents[l].name || a in s.ents[l].aliases)
  {
  }

  /** Beyond that a merge rewrites pointers only: the loser's, and those that led to the loser. */
  lemma MergedRows(s: State, l: Id, w: Id, order: seq<Id>, x: Id)
    requires MergeCheck(s, l, w).None? && x in s.ents
    ensures var s' := Merge(s, l, w, order);
            && s'.ents.Keys == s.ents.Keys
            && s'.ents[x].kind == s.ents[x].kind && s'.ents[x].name == s.ents[x].name
            && (x != w ==> s'.ents[x].aliases == s.ents[x].aliases)
            && (x == l || s.ents[x].mergedInto == Some(l) ==> s'.ents[x].mergedInto == Some(w))
            && (x != l && s.ents[x].mergedInto != Some(l) ==> s'.ents[x].mergedInto == s.ents[x].mergedInto)
  {
  }

  /** And of the candidates only the pair's own row, when it was pending. */
  lemma MergedCandidates(s: State, l: Id, w: Id, order: seq<Id>, p: Pair)
    requires MergeCheck(s, l, w).None?
    ensures var s' := Merge(s, l, w, order);
            && (p in s'.cand <==> p in s.cand)
            && (p in s.cand ==>
                  s'.cand[p] ==
                  if p.lo <= p.hi && (p == Pair(l, w) || p == Pair(w, l)) && s.cand[p] == Pending
                  then Merged else s.cand[p])
  {
  }

  /** An unmerge leaves every name where it is: the row stands on its own again, the rows that a compression
      through it put where they stand point at it, and of the candidates at most one is reopened. */
  lemma UnmergedRows(s: State, e: Id, order: seq<Id>, decided: Id, x: Id, p: Pair)
    requires UnmergeCheck(s, e).None? && x in s.ents
    ensures var s' := Unmerge(s, e, order, decided);
            && s'.ents.Keys == s.ents.Keys
            && s'.ents[x].kind == s.ents[x].kind && s'.ents[x].name == s.ents[x].name
            && s'.ents[x].aliases == s.ents[x].aliases
            && (x == e ==> s'.ents[x].mergedInto.None?)
            && (x != e ==>
                  s'.ents[x].mergedInto ==
                  if exists i :: 0 <= i < |s.log| && s.log[i].Compressed? && s.log[i].target == x && s.log[i].via == e
                                 && s.ents[x].mergedInto == Some(s.log[i].into)
                  then Some(e) else s.ents[x].mergedInto)
            && (p in s'.cand <==> p in s.cand)
            && (p in s.cand ==>
                  s'.cand[p] ==
                  if p.lo <= p.hi && (p == Pair(e, decided) || p == Pair(decided, e)) && s.cand[p] == Merged
                  then Pending else s.cand[p])
  {
  }

  /** What `alias_appended` reports: a surface form of the loser that the winner lacked, unless the winner
      listed its own name as an alias, which the update drops: then two. */
  lemma AliasAppendedIff(s: State, l: Id, w: Id, order: seq<Id>)
    requires MergeCheck(s, l, w).None?
    ensures var gained := SurfacesOf(s.ents[l]) - SurfacesOf(s.ents[w]);
            |Merge(s, l, w, order).ents[w].aliases| > |s.ents[w].aliases|
            <==> |gained| > if s.ents[w].name in s.ents[w].aliases then 1 else 0
  {
    AliasCount(s.ents[l], s.ents[w]);
  }

  /** So a winner the resolver minted, whose name is its one alias, gains the loser's only name, and the call
      reports that it gained none. */
  lemma GainIsNotReported(s: State, l: Id, w: Id, order: seq<Id>)
    requires MergeCheck(s, l, w).None? && s.ents[w].aliases == {s.ents[w].name}
    requires s.ents[l].aliases <= {s.ents[l].name} && s.ents[l].name != s.ents[w].name
    ensures s.ents[l].name in Merge(s, l, w, order).ents[w].aliases && s.ents[l].name !in s.ents[w].aliases
    ensures |Merge(s, l, w, order).ents[w].aliases| == |s.ents[w].aliases|
  {
    assert Merge(s, l, w, order).ents[w].aliases == {s.ents[l].name};
  }

  /** Why a merge is refused, first failing guard first: the two rows are the same; the loser is unknown, or
      merged; the winner is unknown, or merged; the kinds differ. */
  lemma MergeErrors(s: State, l: Id, w: Id)
    ensures MergeCheck(s, l, w).None? <==> l != w && Live(s, l) && Live(s, w) && s.ents[l].kind == s.ents[w].kind
    ensures MergeCheck(s, l, w) == Some(SameEntity) <==> l == w
    ensures MergeCheck(s, l, w).Some? && l != w ==>
              if !Live(s, l) then
                MergeCheck(s, l, w).value == if l in s.ents then AlreadyMerged(l, Survivor(s, l)) else NotFound(l)
              else if !Live(s, w) then
                MergeCheck(s, l, w).value == if w in s.ents then AlreadyMerged(w, Survivor(s, w)) else NotFound(w)
              else MergeCheck(s, l, w).value == KindMismatch
  {
  }

  lemma UnmergeErrors(s: State, e: Id)
    ensures UnmergeCheck(s, e).None? <==> e in s.ents && !Live(s, e)
    ensures e !in s.ents ==> UnmergeCheck(s, e) == Some(NotFound(e))
    ensures Live(s, e) ==> UnmergeCheck(s, e) == Some(NotMerged(e))
  {
  }

  /** A merge gives the winner exactly the surface forms of the two, and takes none from anyone. */
  lemma MergePassesSurfaces(s: State, l: Id, w: Id, order: seq<Id>)
    requires MergeCheck(s, l, w).None?
    ensures SurfacesOf(Merge(s, l, w, order).ents[w]) == SurfacesOf(s.ents[w]) + SurfacesOf(s.ents[l])
    ensures forall x :: x in s.ents && x != w ==> SurfacesOf(Merge(s, l, w, order).ents[x]) == SurfacesOf(s.ents[x])
  {
  }

  // ----- what the resolver does -----

  /** Above 0.85 the best row takes on the surface and nothing else changes. */
  lemma ResolveReuses(s: State, surface: string, kind: Kind, top: Option<Top>, v: real, newId: Id)
    requires newId !in s.ents && top.Some? && Live(s, top.value.id) && s.ents[top.value.id].kind == kind
    requires top.value.trgm > 0.85
    ensures var s' := Resolve(s, surface, kind, top, v, newId);
            var t := top.value.id;
            && s'.log == s.log && s'.cand == s.cand && s'.ents.Keys == s.ents.Keys
            && (forall x :: x in s.ents && x != t ==> s'.ents[x] == s.ents[x])
            && s'.ents[t].kind == kind && s'.ents[t].name == s.ents[t].name && s'.ents[t].mergedInto.None?
            && forall a :: a in s'.ents[t].aliases <==> a == surface || a in s.ents[t].aliases
  {
  }

  /** At or below 0.55, or without a candidate, a row of its own is minted, listing its name as its alias. */
  lemma ResolveMints(s: State, surface: string, kind: Kind, top: Option<Top>, v: real, newId: Id)
    requires newId !in s.ents && (top.Some? ==> Live(s, top.value.id) && s.ents[top.value.id].kind == kind)
    requires top.None? || top.value.trgm <= 0.55
    ensures var s' := Resolve(s, surface, kind, top, v, newId);
            && s'.log == s.log && s'.cand == s.cand && s'.ents.Keys == s.ents.Keys + {newId}
            && (forall x :: x in s.ents ==> s'.ents[x] == s.ents[x])
            && s'.ents[newId].kind == kind && s'.ents[newId].name == surface && s'.ents[newId].mergedInto.None?
            && forall a :: a in s'.ents[newId].aliases <==> a == surface
  {
  }

  /** In between, a verification below 0.92 changes nothing; one that reaches it mints the surface and merges
      it into the best row, with a candidate row that says so and the audit row of the merge. */
  lemma ResolveVerifies(s: State, surface: string, kind: Kind, top: Option<Top>, v: real, newId: Id)
    requires Flat(s) && newId !in s.ents && top.Some? && Live(s, top.value.id) && s.ents[top.value.id].kind == kind
    requires 0.55 < top.value.trgm <= 0.85
    ensures v < 0.92 ==> Resolve(s, surface, kind, top, v, newId) == s
    ensures v >= 0.92 ==>
              var s' := Resolve(s, surface, kind, top, v, newId);
              var t := top.value.id;
              && s'.ents.Keys == s.ents.Keys + {newId} && s'.log == s.log + [MergeLogged(newId, t)]
              && (forall x :: x in s.ents && x != t ==> s'.ents[x] == s.ents[x])
              && s'.ents[t].kind == kind && s'.ents[t].name == s.ents[t].name && s'.ents[t].mergedInto.None?
              && SurfacesOf(s'.ents[t]) == SurfacesOf(s.ents[t]) + {surface}
              && s'.ents[newId].kind == kind && s'.ents[newId].name == surface && s'.ents[newId].mergedInto == Some(t)
              && s'.ents[newId].aliases == {surface}
              && s'.cand.Keys == s.cand.Keys + {PairOf(newId, t)}
              && (PairOf(newId, t) !in s.cand ==> s'.cand[PairOf(newId, t)] == Merged)
              && forall p :: p in s.cand && p != PairOf(newId, t) ==> s'.cand[p] == s.cand[p]
  {
  }

  // ----- over a run -----

  lemma StepKeepsSurfaces(s: State, op: Op, e: Id)
    requires Legal(s, op) && e in s.ents
    ensures e in Apply(s, op).ents && SurfacesOf(s.ents[e]) <= SurfacesOf(Apply(s, op).ents[e])
  {
  }

  /** Over every run, no row ever loses a surface form. */
  lemma {:induction false} RunKeepsSurfaces(s: State, ops: seq<Op>, e: Id)
    requires LegalRun(s, ops) && e in s.ents
    ensures e in Run(s, ops).ents && SurfacesOf(s.ents[e]) <= SurfacesOf(Run(s, ops).ents[e])
    decreases |ops|
  {
    if ops == [] {
    } else {
      StepKeepsSurfaces(s, ops[0], e);
      RunKeepsSurfaces(Apply(s, ops[0]), ops[1..], e);
    }
  }

  // ----- a name leads to the survivor -----

  /** Every surface form of the row is one of its survivor's. */
  ghost predicate Found(s: State, e: Id)
    requires e in s.ents
  {
    Survivor(s, e) in s.ents && SurfacesOf(s.ents[e]) <= SurfacesOf(s.ents[Survivor(s, e)])
  }

  /** Searching the live rows by any surface form a merged row has finds its survivor. */
  ghost predicate Searchable(s: State) {
    forall e {:trigger Found(s, e)} :: e in s.ents ==> Found(s, e)
  }

  /** The calls that hide a name: renaming a merged row to a name its survivor does not have, and an
      unmerge that restores a row whose names the unmerged row does not all have. */
  ghost predicate Hides(s: State, op: Op) {
    match op
    case DoRename(e, n) =>
      && n != "" && e in s.ents && s.ents[e].mergedInto.Some?
      && Survivor(s, e) in s.ents && n !in SurfacesOf(s.ents[Survivor(s, e)])
    case DoUnmerge(e, _, _) =>
      && UnmergeCheck(s, e).None?
      && exists t :: t in Restorable(s, e) && !(SurfacesOf(s.ents[t]) <= SurfacesOf(s.ents[e]))
    case _ => false
  }

  lemma MergeKeepsSearchable(s: State, l: Id, w: Id, order: seq<Id>)
    requires Searchable(s) && MergeCheck(s, l, w).None?
    ensures Searchable(Merge(s, l, w, order))
  {
    var s' := Merge(s, l, w, order);
    MergePassesSurfaces(s, l, w, order);
    forall e | e in s'.ents
      ensures Found(s', e)
    {
      assert Found(s, e) && Found(s, l);
      MergedIsFound(s, l, w, order, e);
    }
  }

  lemma MergedIsFound(s: State, l: Id, w: Id, order: seq<Id>, e: Id)
    requires MergeCheck(s, l, w).None? && e in s.ents && Found(s, e)
    ensures Found(Merge(s, l, w, order), e)
  {
    MergePassesSurfaces(s, l, w, order);
  }

  lemma UnmergedIsFoundIff(s: State, e: Id, order: seq<Id>, decided: Id, t: Id)
    requires UnmergeCheck(s, e).None? && t in s.ents && Found(s, t)
    ensures Found(Unmerge(s, e, order, decided), t) <==>
            t !in Restorable(s, e) || SurfacesOf(s.ents[t]) <= SurfacesOf(s.ents[e])
  {
    var s' := Unmerge(s, e, order, decided);
    assert forall x :: x in s.ents ==> SurfacesOf(s'.ents[x]) == SurfacesOf(s.ents[x]);
  }

  lemma UnmergeKeepsSearchableIff(s: State, e: Id, order: seq<Id>, decided: Id)
    requires Searchable(s) && UnmergeCheck(s, e).None?
    ensures Searchable(Unmerge(s, e, order, decided)) <==> !Hides(s, DoUnmerge(e, order, decided))
  {
    var s' := Unmerge(s, e, order, decided);
    if t :| t in Restorable(s, e) && !(SurfacesOf(s.ents[t]) <= SurfacesOf(s.ents[e])) {
      UnmergedIsFoundIff(s, e, order, decided, t);
    } else {
      UnmergedIsSearchable(s, e, order, decided, s');
    }
  }

  lemma UnmergedIsSearchable(s: State, e: Id, order: seq<Id>, decided: Id, s': State)
    requires Searchable(s) && UnmergeCheck(s, e).None? && s' == Unmerge(s, e, order, decided)
    requires forall t :: t in Restorable(s, e) ==> SurfacesOf(s.ents[t]) <= SurfacesOf(s.ents[e])
    ensures Searchable(s')
  {
    assert s'.ents.Keys == s.ents.Keys;
    forall t | t in s'.ents
      ensures Found(s', t)
    {
      UnmergedIsFoundIff(s, e, order, decided, t);
    }
  }

  lemma RenameKeepsSearchableIff(s: State, e: Id, n: string)
    requires Flat(s) && Searchable(s)
    ensures Searchable(Apply(s, DoRename(e, n))) <==> !Hides(s, DoRename(e, n))
  {
    if Hides(s, DoRename(e, n)) {
      RenamedIsFoundIff(s, e, n, e);
    } else if Rename(s, e, n).Ok? {
      RenamedIsSearchable(s, e, n, Rename(s, e, n).value);
    }
  }

  lemma RenamedIsSearchable(s: State, e: Id, n: string, s': State)
    requires Flat(s) && Searchable(s) && Rename(s, e, n) == Ok(s')
    requires Live(s, e) || n in SurfacesOf(s.ents[Survivor(s, e)])
    ensures Searchable(s')
  {
    forall x | x in s'.ents
      ensures Found(s', x)
    {
      assert Found(s, x);
      RenamedIsFoundIff(s, e, n, x);
    }
  }

  lemma RenamedIsFoundIff(s: State, e: Id, n: string, x: Id)
    requires Rename(s, e, n).Ok? && x in s.ents && Found(s, x)
    requires s.ents[e].mergedInto.Some? ==> s.ents[e].mergedInto != Some(e) && s.ents[e].mergedInto.value in s.ents
    ensures x in Rename(s, e, n).value.ents
    ensures Found(Rename(s, e, n).value, x) <==> x != e || Live(s, e) || n in SurfacesOf(s.ents[Survivor(s, e)])
  {
    RenameAddsOneName(s, e, n);
    var s' := Rename(s, e, n).value;
    assert Pointers(s')[x] == Pointers(s)[x];
  }

  /** A live row may take on aliases. */
  lemma GrowKeepsSearchable(s: State, t: Id, alias: string, s': State)
    requires Searchable(s) && Live(s, t)
    requires s' == s.(ents := s.ents[t := s.ents[t].(aliases := s.ents[t].aliases + {alias})])
    ensures Searchable(s')
  {
    forall x | x in s'.ents
      ensures Found(s', x)
    {
      assert Found(s, x);
    }
  }

  /** So may the table take on live rows. */
  lemma ExtendKeepsSearchable(s: State, s': State)
    requires Searchable(s) && s.ents.Keys <= s'.ents.Keys
    requires forall x :: x in s.ents ==> s'.ents[x] == s.ents[x]
    requires forall x :: x in s'.ents && x !in s.ents ==> s'.ents[x].mergedInto.None?
    ensures Searchable(s')
  {
    forall x | x in s'.ents
      ensures Found(s', x)
    {
      if x in s.ents { assert Found(s, x); }
    }
  }

  /** Main result: a call keeps every name leading to the survivor if and only if it is not one of the
      two that hide one. */
  lemma StepKeepsSearchableIff(s: State, op: Op)
    requires Flat(s) && Searchable(s) && Legal(s, op)
    ensures Searchable(Apply(s, op)) <==> !Hides(s, op)
  {
    match op
    case DoMerge(l, w, order) => if MergeCheck(s, l, w).None? { MergeKeepsSearchable(s, l, w, order); }
    case DoUnmerge(e, order, decided) =>
      if UnmergeCheck(s, e).None? { UnmergeKeepsSearchableIff(s, e, order, decided); }
    case DoRename(e, n) => RenameKeepsSearchableIff(s, e, n);
    case DoAlias(e, alias) => if alias != "" && Live(s, e) { GrowKeepsSearchable(s, e, alias, Apply(s, op)); }
    case DoSplit(src, into, newId, moved) => SplitKeepsSearchable(s, src, into, newId, moved);
    case DoResolve(surface, kind, top, v, newId) => ResolveKeepsSearchable(s, surface, kind, top, v, newId);
    case DoQueue(_, _) => ExtendKeepsSearchable(s, Apply(s, op));
    case DoKeep(_) => ExtendKeepsSearchable(s, Apply(s, op));
  }

  lemma SplitKeepsSearchable(s: State, src: Id, into: SplitInto, newId: Id, moved: bool)
    requires Searchable(s) && newId !in s.ents
    ensures Searchable(Apply(s, DoSplit(src, into, newId, moved)))
  {
    if Split(s, src, into, newId, moved).Ok? {
      SplitKeepsRows(s, src, into, newId, moved);
      ExtendKeepsSearchable(s, Split(s, src, into, newId, moved).value);
    }
  }

  lemma ResolveKeepsSearchable(s: State, surface: string, kind: Kind, top: Option<Top>, v: real, newId: Id)
    requires Searchable(s) && newId !in s.ents
    requires top.Some? ==> Live(s, top.value.id) && s.ents[top.value.id].kind == kind
    ensures Searchable(Resolve(s, surface, kind, top, v, newId))
  {
    var row := Entity(kind, surface, {surface}, None);
    if top.None? || top.value.trgm <= DISAMBIGUATE_THRESHOLD {
      ExtendKeepsSearchable(s, Mint(s, newId, row));
    } else if top.value.trgm > REUSE_THRESHOLD {
      GrowKeepsSearchable(s, top.value.id, surface, Resolve(s, surface, kind, top, v, newId));
    } else if v >= AUTO_MERGE_THRESHOLD {
      AutoMergeKeepsSearchable(s, newId, row, top.value.id, QueuePair(Mint(s, newId, row), newId, top.value.id));
    }
  }

  lemma AutoMergeKeepsSearchable(s: State, newId: Id, row: Entity, t: Id, queued: State)
    requires Searchable(s) && newId !in s.ents && row.mergedInto.None? && Live(s, t) && row.kind == s.ents[t].kind
    requires queued.ents == s.ents[newId := row]
    ensures MergeCheck(queued, newId, t).None? && Searchable(Merge(queued, newId, t, []))
  {
    ExtendKeepsSearchable(s, queued);
    MergeKeepsSearchable(queued, newId, t, []);
  }

  ghost predicate NothingHidden(s: State, ops: seq<Op>)
    requires LegalRun(s, ops)
    decreases |ops|
  {
    ops == [] || (!Hides(s, ops[0]) && NothingHidden(Apply(s, ops[0]), ops[1..]))
  }

  lemma {:induction false} RunKeepsSearchable(base: map<Id, Option<Id>>, s: State, ops: seq<Op>)
    requires Inv(base, s) && Searchable(s) && LegalRun(s, ops) && NothingHidden(s, ops)
    ensures Searchable(Run(s, ops))
    decreases |ops|
  {
    if ops == [] {
    } else {
      StepKeepsInv(base, s, ops[0]);
      StepKeepsSearchableIff(s, ops[0]);
      RunKeepsSearchable(base, Apply(s, ops[0]), ops[1..]);
    }
  }

  // ----- calls that hide a name -----

  /** Renaming any merged row of a searchable table to a name nobody has hides that name. */
  lemma RenameHides(base: map<Id, Option<Id>>, s: State, e: Id, n: string)
    requires Inv(base, s) && Searchable(s) && e in s.ents && s.ents[e].mergedInto.Some?
    requires n != "" && forall x :: x in s.ents ==> n !in SurfacesOf(s.ents[x])
    ensures !Searchable(Apply(s, DoRename(e, n)))
  {
    StepKeepsSearchableIff(s, DoRename(e, n));
  }

  const HIDING_RUN: seq<Op> := [DoMerge(0, 1, []), DoMerge(1, 2, [0])]

  ghost predicate Unknown(s: State, n: string) {
    n != "" && forall x :: x in s.ents ==> n !in SurfacesOf(s.ents[x])
  }

  lemma MergeKeepsUnknown(s: State, l: Id, w: Id, order: seq<Id>, n: string)
    requires MergeCheck(s, l, w).None? && Unknown(s, n)
    ensures Unknown(Merge(s, l, w, order), n)
  {
    MergePassesSurfaces(s, l, w, order);
  }

  lemma BothMerged(s: State, n: string) returns (s2: State)
    requires Shape(s, [None, None, None], []) && Unknown(s, n)
    ensures Reaches(s, HIDING_RUN, s2) && Shape(s2, [Some(2), Some(2), None], STALE_LOG[..3])
    ensures Searchable(s2) && Unknown(s2, n)
  {
    var s1 := Merge(s, 0, 1, []);
    s2 := TwoMerges(s, [None, None, None]);
    assert STALE_RUN[..2] == HIDING_RUN && HIDING_RUN[1..] == [DoMerge(1, 2, [0])] && HIDING_RUN[1..][1..] == [];
    assert Apply(s, HIDING_RUN[0]) == s1 && Run(s1, HIDING_RUN[1..]) == s2;
    NamesMerged(s, s1, s2, n);
  }

  lemma NamesMerged(s: State, s1: State, s2: State, n: string)
    requires Unknown(s, n) && forall x :: x in s.ents ==> s.ents[x].mergedInto.None?
    requires MergeCheck(s, 0, 1).None? && s1 == Merge(s, 0, 1, []) && MergeCheck(s1, 1, 2).None?
    requires s2 == Merge(s1, 1, 2, [0])
    ensures Searchable(s2) && Unknown(s2, n)
  {
    forall x | x in s.ents
      ensures Found(s, x)
    {
    }
    MergeKeepsUnknown(s, 0, 1, [], n);
    MergeKeepsUnknown(s1, 1, 2, [0], n);
    MergeKeepsSearchable(s, 0, 1, []);
    MergeKeepsSearchable(s1, 1, 2, [0]);
  }

  /** rename(2,n), rename(0,n): the survivor takes the name first, so nothing is hidden. */
  lemma BothRenamed(base: map<Id, Option<Id>>, s2: State, n: string) returns (s4: State)
    requires Inv(base, s2) && Searchable(s2) && Unknown(s2, n) && Shape(s2, [Some(2), Some(2), None], STALE_LOG[..3])
    ensures s4 == Apply(Apply(s2, DoRename(2, n)), DoRename(0, n)) && Searchable(s4)
    ensures s4.ents.Keys == s2.ents.Keys && forall x :: x in s2.ents ==> s4.ents[x].mergedInto == s2.ents[x].mergedInto
    ensures |s4.log| > 1 && s4.log[1] == Compressed(0, 1, 2, 1)
    ensures n in SurfacesOf(s4.ents[0]) && n !in SurfacesOf(s4.ents[1])
  {
    var s3 := Apply(s2, DoRename(2, n));
    s4 := Apply(s3, DoRename(0, n));
    RenameAddsOneName(s2, 2, n);
    RenameAddsOneName(s3, 0, n);
    StepKeepsInv(base, s2, DoRename(2, n));
    assert Pointers(s3)[0] == Some(2);
    forall x | x in s2.ents
      ensures s4.ents[x].mergedInto == s2.ents[x].mergedInto
    {
      assert Pointers(s4)[x] == Pointers(s3)[x] == Pointers(s2)[x];
    }
    assert s4.log[1] == s2.log[1];
    StepKeepsSearchableIff(s2, DoRename(2, n));
    StepKeepsSearchableIff(s3, DoRename(0, n));
  }

  /** merge(0,1), merge(1,2), rename(2,n), rename(0,n), unmerge(1): row 0 is restored to row 1 with a name
      that row 1 never had. */
  lemma UnmergeHides(s: State, n: string) returns (s4: State)
    requires Shape(s, [None, None, None], []) && Unknown(s, n)
    ensures Reaches(s, HIDING_RUN + [DoRename(2, n)] + [DoRename(0, n)], s4)
    ensures Searchable(s4) && Live(s4, 2) && UnmergeCheck(s4, 1).None?
    ensures !Searchable(Unmerge(s4, 1, [0], 2))
  {
    var s2 := BothMerged(s, n);
    s4 := HidingState(s, HIDING_RUN, s2, n);
  }

  lemma HidingState(s: State, run: seq<Op>, s2: State, n: string) returns (s4: State)
    requires Flat(s) && s.log == [] && Reaches(s, run, s2) && Shape(s2, [Some(2), Some(2), None], STALE_LOG[..3])
    requires Searchable(s2) && Unknown(s2, n)
    ensures Reaches(s, run + [DoRename(2, n)] + [DoRename(0, n)], s4)
    ensures Searchable(s4) && Live(s4, 2) && UnmergeCheck(s4, 1).None?
    ensures !Searchable(Unmerge(s4, 1, [0], 2))
  {
    InitialInv(s);
    RunKeepsInv(Pointers(s), s, run);
    s4 := BothRenamed(Pointers(s), s2, n);
    TwoMore(s, run, s2, DoRename(2, n), DoRename(0, n));
    RestoringHides(s4, n);
  }

  lemma TwoMore(s: State, ops: seq<Op>, s2: State, first: Op, second: Op)
    requires Reaches(s, ops, s2) && first.DoRename? && second.DoRename?
    ensures Reaches(s, ops + [first] + [second], Apply(Apply(s2, first), second))
  {
    OneMore(s, ops, s2, first);
    OneMore(s, ops + [first], Apply(s2, first), second);
  }

  lemma RestoringHides(s4: State, n: string)
    requires Searchable(s4) && {0, 1} <= s4.ents.Keys && s4.ents[0].mergedInto == Some(2) && s4.ents[1].mergedInto.Some?
    requires |s4.log| > 1 && s4.log[1] == Compressed(0, 1, 2, 1)
    requires n in SurfacesOf(s4.ents[0]) && n !in SurfacesOf(s4.ents[1])
    ensures !Searchable(Unmerge(s4, 1, [0], 2))
  {
    assert 0 in Restorable(s4, 1);
    UnmergedIsFoundIff(s4, 1, [0], 2, 0);
    assert !Found(Unmerge(s4, 1, [0], 2), 0);
  }
}
