/** What the lineage query finds over every run of the identity machine: the trail each row has left
    since its last merge, when the query leads back along it to the partner that was judged, and runs in
    which it does not. */
module LineageRuns {
  import opened Basics
  import opened Identity
  import opened IdentityRuns
  import opened Lineage

  // ----- the trail of a row -----

  /** A trail cut back to a survivor on it; a row restored to anything else starts anew there. */
  function CutAt(trail: seq<Id>, e: Id): seq<Id> {
    if trail == [] then [e]
    else if Last(trail) == e then trail
    else CutAt(trail[..|trail| - 1], e)
  }

  /** What an audit row does to the trail of its target. */
  function After(trail: seq<Id>, r: LogRow): seq<Id> {
    match r
    case MergeLogged(_, into) => [into]
    case Compressed(_, _, into, _) => trail + [into]
    case Restored(_, _, into) => CutAt(trail, into)
    case Unmerged(_, _) => []
    case Renamed(_, _, _) => trail
    case Repointed(_, _) => trail
  }

  /** Every survivor `a` has had since its last merge, oldest first. */
  function Trail(base: map<Id, Option<Id>>, log: seq<LogRow>, a: Id): seq<Id> {
    if log == [] then (if a in base && base[a].Some? then [base[a].value] else [])
    else
      var r := log[|log| - 1];
      var before := Trail(base, log[..|log| - 1], a);
      if r.target == a then After(before, r) else before
  }

  /** The trail ends at the present survivor, each of its steps is on record, and some merge was judged. */
  ghost predicate TrailOk(base: map<Id, Option<Id>>, s: State, a: Id)
    requires a in s.ents
  {
    var trail := Trail(base, s.log, a);
    && (trail == [] <==> Live(s, a))
    && (trail != [] ==> s.ents[a].mergedInto == Some(Last(trail)) && Judged(base, s.log, a).Some?)
    && Walked(s.log, a, trail)
  }

  ghost predicate LinkAt(trail: seq<Id>, x: Id, y: Id, i: int)
    requires 0 < i < |trail|
  {
    trail[i] == x && trail[i - 1] == y
  }

  ghost predicate LinkOf(trail: seq<Id>, x: Id, y: Id) {
    exists i :: 0 < i < |trail| && LinkAt(trail, x, y, i)
  }

  ghost predicate OnlyLinks(log: seq<LogRow>, a: Id, trail: seq<Id>) {
    forall x, y :: Back(log, a, x, y) ==> LinkOf(trail, x, y)
  }

  /** Without an unmerge: the trail repeats no row, all but its end are retired, the compressions of `a`
      are exactly its steps, and it starts at the judged partner. */
  ghost predicate Plain(base: map<Id, Option<Id>>, s: State, a: Id)
    requires a in s.ents
  {
    PlainOn(s, a, Trail(base, s.log, a), Judged(base, s.log, a), Compressions(s.log, a))
  }

  ghost predicate PlainOn(s: State, a: Id, trail: seq<Id>, judged: Option<Id>, count: nat) {
    && Distinct(trail)
    && (forall i :: 0 <= i < |trail| - 1 ==> Tombstone(s, trail[i]))
    && OnlyLinks(s.log, a, trail)
    && count == (if trail == [] then 0 else |trail| - 1)
    && (trail != [] ==> judged == Some(trail[0]))
  }

  predicate Tombstone(s: State, x: Id) {
    x in s.ents && s.ents[x].mergedInto.Some?
  }

  ghost predicate Good(base: map<Id, Option<Id>>, s: State, plain: bool) {
    forall a :: a in s.ents ==> TrailOk(base, s, a) && (plain ==> Plain(base, s, a))
  }

  // ----- appending rows -----

  lemma Snoc(base: map<Id, Option<Id>>, log: seq<LogRow>, r: LogRow, a: Id)
    ensures Trail(base, log + [r], a) == if r.target == a then After(Trail(base, log, a), r) else Trail(base, log, a)
    ensures Judged(base, log + [r], a) == if r.MergeLogged? && r.target == a then Some(r.into) else Judged(base, log, a)
    ensures Compressions(log + [r], a) == Compressions(log, a) + if r.Compressed? && r.target == a then 1 else 0
  {
    assert (log + [r])[..|log|] == log;
  }

  /** Rows of which `a` is the target of the `i`-th, or of none. */
  lemma {:induction false} Batch(base: map<Id, Option<Id>>, log: seq<LogRow>, rows: seq<LogRow>, a: Id, i: int)
    requires forall k :: 0 <= k < |rows| ==> (rows[k].target == a <==> k == i) && !rows[k].MergeLogged?
    ensures var hit := 0 <= i < |rows|;
            && Trail(base, log + rows, a) == (if hit then After(Trail(base, log, a), rows[i]) else Trail(base, log, a))
            && Judged(base, log + rows, a) == Judged(base, log, a)
            && Compressions(log + rows, a) == Compressions(log, a) + if hit && rows[i].Compressed? then 1 else 0
    decreases |rows|
  {
    if rows == [] {
      assert log + rows == log;
    } else {
      var n := |rows| - 1;
      Batch(base, log, rows[..n], a, i);
      Snoc(base, log + rows[..n], rows[n], a);
      assert log + rows == (log + rows[..n]) + [rows[n]];
    }
  }

  lemma BackConcat(log: seq<LogRow>, rows: seq<LogRow>, a: Id, x: Id, y: Id)
    ensures Back(log + rows, a, x, y) <==> Back(log, a, x, y) || Back(rows, a, x, y)
  {
    if Back(log, a, x, y) {
      var k :| 0 <= k < |log| && log[k].Compressed? && log[k].target == a && log[k].into == x && log[k].via == y;
      assert (log + rows)[k] == log[k];
    }
    if Back(rows, a, x, y) {
      var k :| 0 <= k < |rows| && rows[k].Compressed? && rows[k].target == a && rows[k].into == x && rows[k].via == y;
      assert (log + rows)[|log| + k] == rows[k];
    }
  }

  lemma WalkedGrows(log: seq<LogRow>, rows: seq<LogRow>, a: Id, trail: seq<Id>)
    requires Walked(log, a, trail)
    ensures Walked(log + rows, a, trail)
  {
    forall i | 0 < i < |trail|
      ensures Forth(log + rows, a, trail, i)
    {
      assert Forth(log, a, trail, i);
      BackConcat(log, rows, a, trail[i], trail[i - 1]);
    }
  }

  lemma {:induction false} CutIsPrefix(log: seq<LogRow>, a: Id, trail: seq<Id>, e: Id)
    requires Walked(log, a, trail)
    ensures CutAt(trail, e) != [] && Last(CutAt(trail, e)) == e && Walked(log, a, CutAt(trail, e))
    decreases |trail|
  {
    if trail != [] && Last(trail) != e {
      var rest := trail[..|trail| - 1];
      forall i | 0 < i < |rest|
        ensures Forth(log, a, rest, i)
      {
        assert Forth(log, a, trail, i);
      }
      CutIsPrefix(log, a, rest, e);
    }
  }

  ghost function Position(order: seq<Id>, a: Id): (i: nat)
    requires a in order
    ensures i < |order| && order[i] == a
  {
    var i :| 0 <= i < |order| && order[i] == a; i
  }

  function MergeRows(order: seq<Id>, l: Id, w: Id): seq<LogRow> {
    CompressionRows(order, l, w) + [MergeLogged(l, w)]
  }

  /** What the rows of a merge do to one row's history. */
  lemma MergeHistory(base: map<Id, Option<Id>>, s: State, l: Id, w: Id, order: seq<Id>, a: Id)
    requires MergeCheck(s, l, w).None? && Enumerates(order, Orphans(s, l)) && a in s.ents
    ensures var log', trail := Merge(s, l, w, order).log, Trail(base, s.log, a);
            && log' == s.log + MergeRows(order, l, w)
            && Trail(base, log', a) == (if a == l then [w] else if a in order then trail + [w] else trail)
            && Judged(base, log', a) == (if a == l then Some(w) else Judged(base, s.log, a))
            && Compressions(log', a) == Compressions(s.log, a) + if a in order then 1 else 0
  {
    var rows := CompressionRows(order, l, w);
    var i := if a in order then Position(order, a) else -1;
    Batch(base, s.log, rows, a, i);
    Snoc(base, s.log + rows, MergeLogged(l, w), a);
    assert a in order <==> a in Orphans(s, l);
    assert s.log + rows + [MergeLogged(l, w)] == s.log + MergeRows(order, l, w);
  }

  lemma MergeBack(order: seq<Id>, l: Id, w: Id, a: Id)
    ensures forall x, y :: Back(MergeRows(order, l, w), a, x, y) <==> a in order && x == w && y == l
  {
    if a in order {
      assert MergeRows(order, l, w)[Position(order, a)] == Compressed(a, l, w, l);
    }
  }

  lemma MergeKeepsTrail(base: map<Id, Option<Id>>, s: State, l: Id, w: Id, order: seq<Id>, a: Id)
    requires MergeCheck(s, l, w).None? && Enumerates(order, Orphans(s, l)) && a in s.ents && TrailOk(base, s, a)
    ensures TrailOk(base, Merge(s, l, w, order), a)
  {
    var s' := Merge(s, l, w, order);
    var rows := MergeRows(order, l, w);
    var trail, trail' := Trail(base, s.log, a), Trail(base, s'.log, a);
    MergeHistory(base, s, l, w, order, a);
    MergeBack(order, l, w, a);
    assert a in order <==> a in Orphans(s, l);
    WalkedGrows(s.log, rows, a, trail);
    forall i | 0 < i < |trail'|
      ensures Forth(s'.log, a, trail', i)
    {
      if i < |trail| {
        assert Forth(s'.log, a, trail, i);
      } else {
        BackConcat(s.log, rows, a, w, l);
      }
    }
  }

  lemma MergeKeepsPlain(base: map<Id, Option<Id>>, s: State, l: Id, w: Id, order: seq<Id>, a: Id)
    requires MergeCheck(s, l, w).None? && Enumerates(order, Orphans(s, l)) && a in s.ents
    requires TrailOk(base, s, a) && Plain(base, s, a)
    ensures Plain(base, Merge(s, l, w, order), a)
  {
    var s' := Merge(s, l, w, order);
    MergeHistory(base, s, l, w, order, a);
    MergeBack(order, l, w, a);
    assert a in order <==> a in Orphans(s, l);
    MergePlainOn(s, s', l, w, MergeRows(order, l, w), a, a in order,
                 Trail(base, s.log, a), Judged(base, s.log, a), Compressions(s.log, a));
  }

  /** One merge, by what it does to the trail of `a`: start it, take it one step on, or leave it. */
  lemma MergePlainOn(s: State, s': State, l: Id, w: Id, rows: seq<LogRow>, a: Id, moved: bool,
                     trail: seq<Id>, judged: Option<Id>, count: nat)
    requires PlainOn(s, a, trail, judged, count) && Live(s, w) && Live(s, l) && w != l
    requires (trail == [] <==> Live(s, a)) && (moved ==> trail != [] && Last(trail) == l)
    requires trail != [] ==> Tombstone(s, a)
    requires s'.log == s.log + rows && forall x, y :: Back(rows, a, x, y) <==> moved && x == w && y == l
    requires Tombstone(s', l) && forall x :: Tombstone(s, x) ==> Tombstone(s', x)
    ensures PlainOn(s', a, if a == l then [w] else if moved then trail + [w] else trail,
                    if a == l then Some(w) else judged, count + if moved then 1 else 0)
  {
    var trail' := if a == l then [w] else if moved then trail + [w] else trail;
    LinksGrow(s.log, rows, a, trail, trail', moved, l, w);
    assert forall i :: 0 <= i < |trail| - 1 ==> Tombstone(s, trail[i]);
  }

  /** The links of a trail that stays, starts, or grows by one compression past its end. */
  lemma LinksGrow(log: seq<LogRow>, rows: seq<LogRow>, a: Id, trail: seq<Id>, trail': seq<Id>, grows: bool, l: Id,
                  w: Id)
    requires OnlyLinks(log, a, trail)
    requires forall x, y :: Back(rows, a, x, y) <==> grows && x == w && y == l
    requires if grows then trail != [] && Last(trail) == l && trail' == trail + [w] else trail == [] || trail' == trail
    ensures OnlyLinks(log + rows, a, trail')
  {
    forall x, y | Back(log + rows, a, x, y)
      ensures LinkOf(trail', x, y)
    {
      BackConcat(log, rows, a, x, y);
      if Back(log, a, x, y) {
        assert LinkOf(trail, x, y);
        var i :| 0 < i < |trail| && LinkAt(trail, x, y, i);
        assert LinkAt(trail', x, y, i);
      } else {
        assert LinkAt(trail', x, y, |trail|);
      }
    }
  }

  lemma UnmergeKeepsTrail(base: map<Id, Option<Id>>, s: State, e: Id, order: seq<Id>, decided: Id, a: Id)
    requires UnmergeCheck(s, e).None? && Enumerates(order, Restorable(s, e)) && a in s.ents && TrailOk(base, s, a)
    ensures TrailOk(base, Unmerge(s, e, order, decided), a)
  {
    var s' := Unmerge(s, e, order, decided);
    var was := s.ents[e].mergedInto.value;
    var rows := RestoreRows(order, was, e);
    var trail := Trail(base, s.log, a);
    var i := if a in order then Position(order, a) else -1;
    Batch(base, s.log, rows, a, i);
    Snoc(base, s.log + rows, Unmerged(e, was), a);
    assert a in order <==> a in Restorable(s, e);
    assert s'.log == s.log + (rows + [Unmerged(e, was)]);
    CutIsPrefix(s.log, a, trail, e);
    WalkedGrows(s.log, rows + [Unmerged(e, was)], a, trail);
    WalkedGrows(s.log, rows + [Unmerged(e, was)], a, CutAt(trail, e));
  }

  // ----- the other steps -----

  /** A call that logs no pointer change and retires or revives nothing. */
  ghost predicate Quiet(s: State, s': State) {
    && s.ents.Keys <= s'.ents.Keys && (forall x :: x in s.ents ==> s'.ents[x].mergedInto == s.ents[x].mergedInto)
    && (s'.log == s.log || (exists r :: s'.log == s.log + [r] && (r.Renamed? || r.Repointed?)))
  }

  lemma QuietKeepsTrail(base: map<Id, Option<Id>>, s: State, s': State, a: Id, plain: bool)
    requires Quiet(s, s') && a in s.ents && TrailOk(base, s, a) && (plain ==> Plain(base, s, a))
    ensures TrailOk(base, s', a) && (plain ==> Plain(base, s', a))
  {
    if s'.log != s.log {
      var r :| s'.log == s.log + [r] && (r.Renamed? || r.Repointed?);
      Snoc(base, s.log, r, a);
      WalkedGrows(s.log, [r], a, Trail(base, s.log, a));
      NoBack(s.log, r, a);
    }
    if plain {
      QuietPlainOn(s, s', a, Trail(base, s.log, a), Judged(base, s.log, a), Compressions(s.log, a));
    }
  }

  lemma NoBack(log: seq<LogRow>, r: LogRow, a: Id)
    requires !r.Compressed?
    ensures forall x, y :: Back(log + [r], a, x, y) <==> Back(log, a, x, y)
  {
    forall x, y
      ensures Back(log + [r], a, x, y) <==> Back(log, a, x, y)
    {
      BackConcat(log, [r], a, x, y);
    }
  }

  lemma QuietPlainOn(s: State, s': State, a: Id, trail: seq<Id>, judged: Option<Id>, count: nat)
    requires PlainOn(s, a, trail, judged, count)
    requires forall x, y :: Back(s'.log, a, x, y) <==> Back(s.log, a, x, y)
    requires forall x :: Tombstone(s, x) ==> Tombstone(s', x)
    ensures PlainOn(s', a, trail, judged, count)
  {
  }

  lemma {:induction false} Untouched(base: map<Id, Option<Id>>, log: seq<LogRow>, a: Id)
    requires a !in base && forall i :: 0 <= i < |log| ==> log[i].target != a
    ensures Trail(base, log, a) == [] && Compressions(log, a) == 0
  {
    if log == [] {
    } else {
      Untouched(base, log[..|log| - 1], a);
    }
  }

  lemma MintKeepsGood(base: map<Id, Option<Id>>, s: State, newId: Id, row: Entity, plain: bool)
    requires Inv(base, s) && Good(base, s, plain) && newId !in s.ents && row.mergedInto.None?
    ensures Good(base, Mint(s, newId, row), plain)
  {
    var s' := Mint(s, newId, row);
    forall a | a in s'.ents
      ensures TrailOk(base, s', a) && (plain ==> Plain(base, s', a))
    {
      if a == newId {
        assert forall i :: 0 <= i < |s.log| ==> RowOk(s.ents, s.log[i]);
        Untouched(base, s.log, a);
      } else {
        QuietKeepsTrail(base, s, s', a, plain);
      }
    }
  }

  lemma QuietKeepsGood(base: map<Id, Option<Id>>, s: State, s': State, plain: bool)
    requires Good(base, s, plain) && Quiet(s, s') && s'.ents.Keys == s.ents.Keys
    ensures Good(base, s', plain)
  {
    forall a | a in s'.ents
      ensures TrailOk(base, s', a) && (plain ==> Plain(base, s', a))
    {
      QuietKeepsTrail(base, s, s', a, plain);
    }
  }

  lemma MergeKeepsGood(base: map<Id, Option<Id>>, s: State, l: Id, w: Id, order: seq<Id>, plain: bool)
    requires Good(base, s, plain) && MergeCheck(s, l, w).None? && Enumerates(order, Orphans(s, l))
    ensures Good(base, Merge(s, l, w, order), plain)
  {
    forall a | a in s.ents
      ensures TrailOk(base, Merge(s, l, w, order), a) && (plain ==> Plain(base, Merge(s, l, w, order), a))
    {
      MergeKeepsTrail(base, s, l, w, order, a);
      if plain { MergeKeepsPlain(base, s, l, w, order, a); }
    }
  }

  lemma UnmergeKeepsGood(base: map<Id, Option<Id>>, s: State, e: Id, order: seq<Id>, decided: Id)
    requires Good(base, s, false) && UnmergeCheck(s, e).None? && Enumerates(order, Restorable(s, e))
    ensures Good(base, Unmerge(s, e, order, decided), false)
  {
    forall a | a in s.ents
      ensures TrailOk(base, Unmerge(s, e, order, decided), a)
    {
      UnmergeKeepsTrail(base, s, e, order, decided, a);
    }
  }

  lemma SplitKeepsGood(base: map<Id, Option<Id>>, s: State, src: Id, into: SplitInto, newId: Id, moved: bool,
                       plain: bool)
    requires Inv(base, s) && Good(base, s, plain) && newId !in s.ents
    ensures Good(base, Apply(s, DoSplit(src, into, newId, moved)), plain)
  {
    if Split(s, src, into, newId, moved).Ok? {
      var s' := Split(s, src, into, newId, moved).value;
      match into
      case Existing(t) =>
        assert s' == s || s'.log == s.log + [Repointed(src, t)];
        QuietKeepsGood(base, s, s', plain);
      case Create(name, kind, aliases) =>
        var row := Entity(if kind.Some? then kind.value else s.ents[src].kind, name, aliases, None);
        MintKeepsGood(base, s, newId, row, plain);
        var minted := Mint(s, newId, row);
        assert s' == minted || s'.log == minted.log + [Repointed(src, newId)];
        QuietKeepsGood(base, minted, s', plain);
    }
  }

  lemma NobodyPointsAt(s: State, newId: Id, row: Entity, t: Id)
    requires Flat(s) && newId !in s.ents && row.mergedInto.None?
    ensures Orphans(QueuePair(Mint(s, newId, row), newId, t), newId) == {}
  {
  }

  lemma ResolveKeepsGood(base: map<Id, Option<Id>>, s: State, surface: string, kind: Kind, top: Option<Top>,
                         v: real, newId: Id, plain: bool)
    requires Inv(base, s) && Good(base, s, plain) && newId !in s.ents
    requires top.Some? ==> Live(s, top.value.id) && s.ents[top.value.id].kind == kind
    ensures Good(base, Resolve(s, surface, kind, top, v, newId), plain)
  {
    var row := Entity(kind, surface, {surface}, None);
    if top.None? || top.value.trgm <= DISAMBIGUATE_THRESHOLD {
      MintKeepsGood(base, s, newId, row, plain);
    } else if top.value.trgm > REUSE_THRESHOLD || v < AUTO_MERGE_THRESHOLD {
      QuietKeepsGood(base, s, Resolve(s, surface, kind, top, v, newId), plain);
    } else {
      var t, minted := top.value.id, Mint(s, newId, row);
      MintKeepsGood(base, s, newId, row, plain);
      QuietKeepsGood(base, minted, QueuePair(minted, newId, t), plain);
      NobodyPointsAt(s, newId, row, t);
      MergeKeepsGood(base, QueuePair(minted, newId, t), newId, t, [], plain);
    }
  }

  lemma StepKeepsGood(base: map<Id, Option<Id>>, s: State, op: Op, plain: bool)
    requires Inv(base, s) && Good(base, s, plain) && Legal(s, op) && (plain ==> !op.DoUnmerge?)
    ensures Good(base, Apply(s, op), plain)
  {
    match op
    case DoMerge(l, w, order) => if MergeCheck(s, l, w).None? { MergeKeepsGood(base, s, l, w, order, plain); }
    case DoUnmerge(e, order, decided) => if UnmergeCheck(s, e).None? { UnmergeKeepsGood(base, s, e, order, decided); }
    case DoSplit(src, into, newId, moved) => SplitKeepsGood(base, s, src, into, newId, moved, plain);
    case DoResolve(surface, kind, top, v, newId) => ResolveKeepsGood(base, s, surface, kind, top, v, newId, plain);
    case _ => QuietOps(s, op); QuietKeepsGood(base, s, Apply(s, op), plain);
  }

  lemma QuietOps(s: State, op: Op)
    requires op.DoRename? || op.DoAlias? || op.DoQueue? || op.DoKeep?
    ensures Quiet(s, Apply(s, op)) && Apply(s, op).ents.Keys == s.ents.Keys
  {
  }

  ghost predicate NoUnmerge(ops: seq<Op>) {
    forall i :: 0 <= i < |ops| ==> !ops[i].DoUnmerge?
  }

  /** In every run each row's trail is on record, end to end; in a run without an unmerge nothing else is. */
  lemma {:induction false} RunKeepsTrails(base: map<Id, Option<Id>>, s: State, ops: seq<Op>, plain: bool)
    requires Inv(base, s) && Good(base, s, plain) && LegalRun(s, ops) && (plain ==> NoUnmerge(ops))
    ensures Good(base, Run(s, ops), plain)
    decreases |ops|
  {
    if ops == [] {
    } else {
      StepKeepsInv(base, s, ops[0]);
      StepKeepsGood(base, s, ops[0], plain);
      RunKeepsTrails(base, Apply(s, ops[0]), ops[1..], plain);
    }
  }

  lemma FromEmptyLog(s: State, ops: seq<Op>, plain: bool)
    requires Flat(s) && s.log == [] && LegalRun(s, ops) && (plain ==> NoUnmerge(ops))
    ensures Good(Pointers(s), Run(s, ops), plain)
  {
    InitialInv(s);
    forall a | a in s.ents
      ensures TrailOk(Pointers(s), s, a) && Plain(Pointers(s), s, a)
    {
    }
    RunKeepsTrails(Pointers(s), s, ops, plain);
  }

  // ----- when the query finds the judged partner -----

  /** Corollary of what the query finds: in every reachable state it reports the judged partner of a merged
      row, and nothing else, if and only if no farthest chain of its compressions ends anywhere else. */
  lemma WalkEndsAtJudgedIff(s: State, ops: seq<Op>, a: Id)
    requires Flat(s) && s.log == [] && LegalRun(s, ops) && UnmergeCheck(Run(s, ops), a).None?
    ensures var s', judged := Run(s, ops), Judged(Pointers(s), Run(s, ops).log, a);
            && judged.Some?
            && (DecidedPartners(s', a) == {judged.value} <==>
                forall c :: Farthest(s'.log, a, s'.ents[a].mergedInto.value, c) ==> Last(c) == judged.value)
  {
    FromEmptyLog(s, ops, false);
    var s' := Run(s, ops);
    assert TrailOk(Pointers(s), s', a);
    EndsDecide(s', a, Judged(Pointers(s), s'.log, a).value, DecidedPartners(s', a));
  }

  lemma EndsDecide(s: State, a: Id, judged: Id, found: set<Id>)
    requires UnmergeCheck(s, a).None? && found == DecidedPartners(s, a)
    ensures found == {judged} <==> forall c :: Farthest(s.log, a, s.ents[a].mergedInto.value, c) ==> Last(c) == judged
  {
    var p := s.ents[a].mergedInto.value;
    DeepestNonempty(s.log, a, {p}, 0);
    forall x: Id
      ensures x in found <==> exists c :: Farthest(s.log, a, p, c) && Last(c) == x
    {
      DecidedAreChainEnds(s, a, x);
    }
    if forall c :: Farthest(s.log, a, p, c) ==> Last(c) == judged {
      var x :| x in found;
      assert forall y :: y in found ==> y == judged;
      assert x == judged;
    }
    if found == {judged} {
      forall c | Farthest(s.log, a, p, c)
        ensures Last(c) == judged
      {
        assert Last(c) in found;
      }
    }
  }

  /** In every run, for a row whose trail starts at the judged partner, repeats nothing, and is all that
      its compressions lead to: the query is right if and only if the trail has at most 32 steps. */
  lemma StraightTrailIff(s: State, ops: seq<Op>, a: Id)
    requires Flat(s) && s.log == [] && LegalRun(s, ops) && UnmergeCheck(Run(s, ops), a).None?
    requires var trail := Trail(Pointers(s), Run(s, ops).log, a);
             && Distinct(trail) && Straight(Run(s, ops).log, a, trail)
             && (trail != [] ==> Judged(Pointers(s), Run(s, ops).log, a) == Some(trail[0]))
    ensures var judged, trail := Judged(Pointers(s), Run(s, ops).log, a), Trail(Pointers(s), Run(s, ops).log, a);
            && judged.Some? && trail != []
            && (DecidedPartners(Run(s, ops), a) == {judged.value} <==> |trail| - 1 <= MAX_LINEAGE_DEPTH)
  {
    FromEmptyLog(s, ops, false);
    assert TrailOk(Pointers(s), Run(s, ops), a);
    StraightWalk(Run(s, ops), a, Trail(Pointers(s), Run(s, ops).log, a));
  }

  // ----- a row that went on to new survivors only -----

  ghost predicate Moved(log: seq<LogRow>, a: Id, i: int)
    requires 0 <= i < |log|
  {
    log[i].Compressed? && log[i].target == a
  }

  /** The log up to `since` ends with the last merge of `a`, or is empty and `a` was merged before it began;
      after it `a` was neither restored nor unmerged. */
  ghost predicate LastMergedAt(base: map<Id, Option<Id>>, log: seq<LogRow>, a: Id, since: nat) {
    && since <= |log|
    && (if since == 0 then a in base && base[a].Some? else log[since - 1].MergeLogged? && log[since - 1].target == a)
    && forall i :: since <= i < |log| && log[i].target == a && PointerAfter(log[i]).Some? ==> log[i].Compressed?
  }

  ghost function MergedInto(base: map<Id, Option<Id>>, log: seq<LogRow>, a: Id, since: nat): Id
    requires LastMergedAt(base, log, a, since)
  {
    if since == 0 then base[a].value else log[since - 1].into
  }

  /** No older compression of `a` led to the partner of that merge, and each later one led somewhere no
      compression of `a` had led before. */
  ghost predicate OnlyNewSurvivors(base: map<Id, Option<Id>>, log: seq<LogRow>, a: Id, since: nat)
    requires LastMergedAt(base, log, a, since)
  {
    && (forall i :: 0 <= i < |log| && Moved(log, a, i) ==> log[i].into != MergedInto(base, log, a, since))
    && forall i, j :: 0 <= i < j < |log| && since <= j && Moved(log, a, i) && Moved(log, a, j) ==>
        log[i].into != log[j].into
  }

  /** How often the first `n` rows compress `a`. */
  function Count(log: seq<LogRow>, a: Id, n: nat): nat
    requires n <= |log|
  {
    Compressions(log[..n], a)
  }

  lemma {:induction false} CountGrows(log: seq<LogRow>, a: Id, i: nat, j: nat)
    requires i <= j <= |log|
    ensures Count(log, a, i) <= Count(log, a, j)
    ensures i < j && Moved(log, a, i) ==> Count(log, a, i) < Count(log, a, j)
    decreases j
  {
    if i == j {
    } else {
      assert log[..j][..j - 1] == log[..j - 1];
      CountGrows(log, a, i, j - 1);
    }
  }

  ghost predicate TrailHas(trail: seq<Id>, i: int, x: Id) {
    0 < i < |trail| && trail[i] == x
  }

  /** The trail after `n` rows: the partner of the last merge, then the survivors of the compressions since. */
  ghost predicate TrailIs(base: map<Id, Option<Id>>, log: seq<LogRow>, a: Id, since: nat, n: nat, trail: seq<Id>)
    requires LastMergedAt(base, log, a, since) && since <= n <= |log|
  {
    && trail == Trail(base, log[..n], a)
    && trail != [] && trail[0] == MergedInto(base, log, a, since) && Judged(base, log[..n], a) == Some(trail[0])
    && |trail| == 1 + Count(log, a, n) - Count(log, a, since)
    && forall k :: since <= k < n && Moved(log, a, k) ==>
        TrailHas(trail, 1 + Count(log, a, k) - Count(log, a, since), log[k].into)
  }

  lemma TrailStarts(base: map<Id, Option<Id>>, log: seq<LogRow>, a: Id, since: nat)
    requires LastMergedAt(base, log, a, since)
    ensures TrailIs(base, log, a, since, since, Trail(base, log[..since], a))
  {
    if since == 0 {
      assert log[..0] == [];
    } else {
      assert log[..since][..since - 1] == log[..since - 1];
    }
  }

  lemma TrailOneMore(base: map<Id, Option<Id>>, log: seq<LogRow>, a: Id, since: nat, n: nat, trail: seq<Id>)
    requires LastMergedAt(base, log, a, since) && since <= n < |log| && TrailIs(base, log, a, since, n, trail)
    ensures TrailIs(base, log, a, since, n + 1, if Moved(log, a, n) then trail + [log[n].into] else trail)
  {
    assert log[..n + 1] == log[..n] + [log[n]];
    Snoc(base, log[..n], log[n], a);
    CountGrows(log, a, since, n);
  }

  lemma {:induction false} TrailSince(base: map<Id, Option<Id>>, log: seq<LogRow>, a: Id, since: nat, n: nat)
    requires LastMergedAt(base, log, a, since) && since <= n <= |log|
    ensures TrailIs(base, log, a, since, n, Trail(base, log[..n], a))
    decreases n
  {
    if n == since {
      TrailStarts(base, log, a, since);
    } else {
      TrailSince(base, log, a, since, n - 1);
      TrailOneMore(base, log, a, since, n - 1, Trail(base, log[..n - 1], a));
    }
  }

  /** Each place on the trail but the first is where one compression put it. */
  lemma {:induction false} WhichMove(log: seq<LogRow>, a: Id, since: nat, n: nat, i: int) returns (k: nat)
    requires since <= n <= |log| && 0 < i <= Count(log, a, n) - Count(log, a, since)
    ensures since <= k < n && Moved(log, a, k) && i == 1 + Count(log, a, k) - Count(log, a, since)
    decreases n
  {
    assert log[..n][..n - 1] == log[..n - 1];
    if Moved(log, a, n - 1) && i == Count(log, a, n) - Count(log, a, since) {
      k := n - 1;
    } else {
      k := WhichMove(log, a, since, n - 1, i);
    }
  }

  lemma NewTrailIsDistinct(base: map<Id, Option<Id>>, log: seq<LogRow>, a: Id, since: nat, trail: seq<Id>)
    requires LastMergedAt(base, log, a, since) && OnlyNewSurvivors(base, log, a, since)
    requires TrailIs(base, log, a, since, |log|, trail)
    ensures Distinct(trail)
  {
    forall i, j | 0 <= i < j < |trail|
      ensures trail[i] != trail[j]
    {
      var k := WhichMove(log, a, since, |log|, j);
      assert TrailHas(trail, j, log[k].into);
      if i > 0 {
        var h := WhichMove(log, a, since, |log|, i);
        assert TrailHas(trail, i, log[h].into);
        if k < h { CountGrows(log, a, k, h); }
      }
    }
  }

  lemma NewTrailIsStraight(base: map<Id, Option<Id>>, log: seq<LogRow>, a: Id, since: nat, trail: seq<Id>)
    requires LastMergedAt(base, log, a, since) && OnlyNewSurvivors(base, log, a, since)
    requires TrailIs(base, log, a, since, |log|, trail) && Walked(log, a, trail)
    ensures Straight(log, a, trail)
  {
    forall i, y | 0 <= i < |trail| && Back(log, a, trail[i], y)
      ensures Before(trail, i, y)
    {
      var k :| 0 <= k < |log| && log[k].Compressed? && log[k].target == a && log[k].into == trail[i] && log[k].via == y;
      assert Moved(log, a, k);
      assert i > 0;
      var h := WhichMove(log, a, since, |log|, i);
      assert TrailHas(trail, i, log[h].into);
      assert k == h;
      assert Forth(log, a, trail, i);
      var g :| 0 <= g < |log| && log[g].Compressed? && log[g].target == a && log[g].into == trail[i]
          && log[g].via == trail[i - 1];
      assert Moved(log, a, g);
      assert g == h;
    }
  }

  /** In every run, unmerges and all, for a row that since its last merge was neither restored nor unmerged
      and only went on to new survivors: the query reports the partner of that merge if and only if the row
      was compressed at most 32 times since. */
  lemma NewSurvivorsIff(s: State, ops: seq<Op>, a: Id, since: nat)
    requires Flat(s) && s.log == [] && LegalRun(s, ops) && UnmergeCheck(Run(s, ops), a).None?
    requires LastMergedAt(Pointers(s), Run(s, ops).log, a, since)
    requires OnlyNewSurvivors(Pointers(s), Run(s, ops).log, a, since)
    ensures var log, partner := Run(s, ops).log, MergedInto(Pointers(s), Run(s, ops).log, a, since);
            && Judged(Pointers(s), log, a) == Some(partner)
            && (DecidedPartners(Run(s, ops), a) == {partner} <==>
                Count(log, a, |log|) - Count(log, a, since) <= MAX_LINEAGE_DEPTH)
  {
    var base, s' := Pointers(s), Run(s, ops);
    var trail := Trail(base, s'.log, a);
    FromEmptyLog(s, ops, false);
    assert TrailOk(base, s', a);
    assert s'.log[..|s'.log|] == s'.log;
    TrailSince(base, s'.log, a, since, |s'.log|);
    NewTrailIsDistinct(base, s'.log, a, since, trail);
    NewTrailIsStraight(base, s'.log, a, since, trail);
    StraightTrailIff(s, ops, a);
  }

  /** In particular, before anything was ever unmerged: exactly when the row was compressed at most 32
      times. */
  lemma FirstUnmergeIff(s: State, ops: seq<Op>, a: Id)
    requires Flat(s) && s.log == [] && LegalRun(s, ops) && NoUnmerge(ops) && UnmergeCheck(Run(s, ops), a).None?
    ensures Judged(Pointers(s), Run(s, ops).log, a).Some?
    ensures DecidedPartners(Run(s, ops), a) == {Judged(Pointers(s), Run(s, ops).log, a).value}
            <==> Compressions(Run(s, ops).log, a) <= MAX_LINEAGE_DEPTH
  {
    FromEmptyLog(s, ops, true);
    var s' := Run(s, ops);
    assert TrailOk(Pointers(s), s', a) && Plain(Pointers(s), s', a);
    PlainIsStraight(s'.log, a, Trail(Pointers(s), s'.log, a));
    StraightTrailIff(s, ops, a);
  }

  lemma PlainIsStraight(log: seq<LogRow>, a: Id, trail: seq<Id>)
    requires Distinct(trail) && OnlyLinks(log, a, trail)
    ensures Straight(log, a, trail)
  {
    forall i, y | 0 <= i < |trail| && Back(log, a, trail[i], y)
      ensures Before(trail, i, y)
    {
      assert LinkOf(trail, trail[i], y);
      var k :| 0 < k < |trail| && LinkAt(trail, trail[i], y, k);
      assert k == i;
    }
  }

  /** What that means for the candidates: whatever the database reports, unmerging reopens the judged
      pair's row and touches no other, if and only if no farthest chain ends elsewhere; if one does, some
      report leaves the judged row as it was. */
  lemma UnmergeReopensTheJudgedPairIff(s: State, ops: seq<Op>, a: Id)
    requires Flat(s) && s.log == [] && LegalRun(s, ops) && UnmergeCheck(Run(s, ops), a).None?
    ensures var s1, judged := Run(s, ops), Judged(Pointers(s), Run(s, ops).log, a);
            && judged.Some?
            && ((forall c :: Farthest(s1.log, a, s1.ents[a].mergedInto.value, c) ==> Last(c) == judged.value) <==>
                (forall order, decided :: Legal(s1, DoUnmerge(a, order, decided)) ==> decided == judged.value))
            && (forall order, decided :: Legal(s1, DoUnmerge(a, order, decided)) ==>
                 var cand := Apply(s1, DoUnmerge(a, order, decided)).cand;
                 forall p :: p in s1.cand ==>
                   p in cand && cand[p] ==
                     if p == PairOf(a, decided) && s1.cand[p] == Merged then Pending else s1.cand[p])
  {
    WalkEndsAtJudgedIff(s, ops, a);
    ReportsDecide(Run(s, ops), a, Judged(Pointers(s), Run(s, ops).log, a).value, DecidedPartners(Run(s, ops), a));
  }

  lemma ReportsDecide(s: State, a: Id, judged: Id, found: set<Id>)
    requires UnmergeCheck(s, a).None? && found == DecidedPartners(s, a)
    ensures found == {judged} <==>
            forall order, decided :: Legal(s, DoUnmerge(a, order, decided)) ==> decided == judged
  {
    DeepestNonempty(s.log, a, {s.ents[a].mergedInto.value}, 0);
    var order := Listing(Restorable(s, a));
    forall x | x in found
      ensures Legal(s, DoUnmerge(a, order, x))
    {
    }
  }
}
