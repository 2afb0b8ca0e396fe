/** The entity-identity machine: the rows of brain.entities, the audit log and the candidate table,
    and what each identity service does to them.

    A step takes, besides its own arguments, the choices only the database makes: the order in which
    a statement returns its rows, the id of a freshly minted entity, and which of several equally
    deep partners the lineage query reports. `Legal` says which choices are possible. */
module Identity {
  import opened Basics

  /** A uuid; only equality and the total order on uuids are used. */
  type Id = nat

  datatype Kind = Person | Org | Event | Place | Concept | Animal

  datatype Entity = Entity(kind: Kind, name: string, aliases: set<string>, mergedInto: Option<Id>)

  /** Every surface form of a row: its canonical name and its aliases. */
  function SurfacesOf(e: Entity): set<string> {
    {e.name} + e.aliases
  }

  datatype Status = Pending | Merged | KeptSeparate | Skipped

  /** The key of a merge_candidates row: entity_a < entity_b. */
  datatype Pair = Pair(lo: Id, hi: Id)

  /** One correction_events row with target_kind 'entity'. `was` is before.merged_into, `into` is
      after.merged_into and `via` is after.compressed_via. */
  datatype LogRow =
    | MergeLogged(target: Id, into: Id)
    | Compressed(target: Id, was: Id, into: Id, via: Id)
    | Restored(target: Id, was: Id, into: Id)
    | Unmerged(target: Id, was: Id)
    | Renamed(target: Id, oldName: string, newName: string)
    | Repointed(target: Id, onto: Id)

  datatype State = State(ents: map<Id, Entity>, log: seq<LogRow>, cand: map<Pair, Status>)

  datatype Error =
    | SameEntity
    | NotFound(id: Id)
    | AlreadyMerged(id: Id, into: Id)
    | KindMismatch
    | NotMerged(id: Id)
    | BlankName

  function PairOf(a: Id, b: Id): Pair {
    if a <= b then Pair(a, b) else Pair(b, a)
  }

  predicate Live(s: State, e: Id) {
    e in s.ents && s.ents[e].mergedInto.None?
  }

  function Pointers(s: State): map<Id, Option<Id>> {
    map e | e in s.ents :: s.ents[e].mergedInto
  }

  /** coalesce(merged_into, id), the one-hop read every merge-aware query uses. */
  function Survivor(s: State, e: Id): Id
    requires e in s.ents
  {
    if s.ents[e].mergedInto.Some? then s.ents[e].mergedInto.value else e
  }

  // ----- merge -----

  /** The guards of a merge, in the order the service tests them. */
  function MergeCheck(s: State, loser: Id, winner: Id): Option<Error> {
    if loser == winner then Some(SameEntity)
    else if loser !in s.ents then Some(NotFound(loser))
    else if s.ents[loser].mergedInto.Some? then Some(AlreadyMerged(loser, s.ents[loser].mergedInto.value))
    else if winner !in s.ents then Some(NotFound(winner))
    else if s.ents[winner].mergedInto.Some? then Some(AlreadyMerged(winner, s.ents[winner].mergedInto.value))
    else if s.ents[loser].kind != s.ents[winner].kind then Some(KindMismatch)
    else None
  }

  function Orphans(s: State, loser: Id): set<Id> {
    set e | e in s.ents && s.ents[e].mergedInto == Some(loser)
  }

  function CompressionRows(order: seq<Id>, loser: Id, winner: Id): seq<LogRow> {
    seq(|order|, i requires 0 <= i < |order| => Compressed(order[i], loser, winner, loser))
  }

  function MergedEnts(s: State, loser: Id, winner: Id): map<Id, Entity>
    requires loser in s.ents && winner in s.ents
  {
    map e | e in s.ents ::
      if e == winner then
        s.ents[e].(aliases := (s.ents[e].aliases + {s.ents[loser].name} + s.ents[loser].aliases) - {s.ents[e].name})
      else if e == loser || s.ents[e].mergedInto == Some(loser) then
        s.ents[e].(mergedInto := Some(winner))
      else
        s.ents[e]
  }

  /** Restamp one candidate row, when it has the status the update asks for. */
  function Restamp(cand: map<Pair, Status>, p: Pair, from: Status, to: Status): map<Pair, Status> {
    if p in cand && cand[p] == from then cand[p := to] else cand
  }

  /** merge_entities_on_cursor: aliases, pointer, path compression, candidate row, audit rows. */
  function Merge(s: State, loser: Id, winner: Id, order: seq<Id>): State
    requires MergeCheck(s, loser, winner).None?
  {
    State(MergedEnts(s, loser, winner),
          s.log + CompressionRows(order, loser, winner) + [MergeLogged(loser, winner)],
          Restamp(s.cand, PairOf(loser, winner), Pending, Merged))
  }

  /** How many aliases the winner ends up with. */
  lemma AliasCount(loser: Entity, winner: Entity)
    ensures var gained := SurfacesOf(loser) - SurfacesOf(winner);
            |(winner.aliases + {loser.name} + loser.aliases) - {winner.name}|
            == |winner.aliases| + |gained| - if winner.name in winner.aliases then 1 else 0
  {
    var gained := SurfacesOf(loser) - SurfacesOf(winner);
    var own := winner.aliases - {winner.name};
    assert (winner.aliases + {loser.name} + loser.aliases) - {winner.name} == own + gained;
    assert own !! gained;
    if winner.name in winner.aliases {
      assert winner.aliases == own + {winner.name};
    } else {
      assert own == winner.aliases;
    }
  }

  // ----- unmerge -----

  function UnmergeCheck(s: State, e: Id): Option<Error> {
    if e !in s.ents then Some(NotFound(e))
    else if s.ents[e].mergedInto.None? then Some(NotMerged(e))
    else None
  }

  /** Some logged compression through `via` put `t` where it points now. */
  predicate MovedVia(log: seq<LogRow>, t: Id, pointer: Option<Id>, via: Id) {
    exists i :: 0 <= i < |log| && log[i].Compressed? && log[i].target == t && log[i].via == via
                && pointer == Some(log[i].into)
  }

  /** The rows the decompression update of unmerge_entity touches. */
  function Restorable(s: State, e: Id): set<Id> {
    set t | t in s.ents && t != e && MovedVia(s.log, t, s.ents[t].mergedInto, e)
  }

  function RestoreRows(order: seq<Id>, was: Id, e: Id): seq<LogRow> {
    seq(|order|, i requires 0 <= i < |order| => Restored(order[i], was, e))
  }

  function UnmergedEnts(s: State, e: Id): map<Id, Entity> {
    map t | t in s.ents ::
      if t == e then s.ents[t].(mergedInto := None)
      else if t in Restorable(s, e) then s.ents[t].(mergedInto := Some(e))
      else s.ents[t]
  }

  const MAX_LINEAGE_DEPTH: nat := 32

  /** One round of the recursive lineage query: the tombstones the compressions of `e` onto a
      partner of this level moved past. */
  function NextLevel(log: seq<LogRow>, e: Id, level: set<Id>): set<Id> {
    set i | 0 <= i < |log| && log[i].Compressed? && log[i].target == e && log[i].into in level :: log[i].via
  }

  /** The partners at the greatest depth the lineage query reaches; `limit 1` reports one of them. */
  function Deepest(log: seq<LogRow>, e: Id, level: set<Id>, depth: nat): set<Id>
    decreases MAX_LINEAGE_DEPTH - depth, |log|
  {
    var next := NextLevel(log, e, level);
    if depth >= MAX_LINEAGE_DEPTH || next == {} then level
    else Deepest(log, e, next, depth + 1)
  }

  function DecidedPartners(s: State, e: Id): set<Id>
    requires UnmergeCheck(s, e).None?
  {
    Deepest(s.log, e, {s.ents[e].mergedInto.value}, 0)
  }

  /** unmerge_entity: clear the pointer, undo its compressions, reopen the decided pair, audit. */
  function Unmerge(s: State, e: Id, order: seq<Id>, decided: Id): State
    requires UnmergeCheck(s, e).None?
  {
    var was := s.ents[e].mergedInto.value;
    State(UnmergedEnts(s, e),
          s.log + RestoreRows(order, was, e) + [Unmerged(e, was)],
          Restamp(s.cand, PairOf(e, decided), Merged, Pending))
  }

  // ----- rename, alias, split, resolve, review -----

  /** rename_entity on an already stripped name; keeping the current name writes nothing. */
  function Rename(s: State, e: Id, newName: string): Result<State, Error> {
    if newName == "" then Err(BlankName)
    else if e !in s.ents then Err(NotFound(e))
    else if s.ents[e].name == newName then Ok(s)
    else
      var row := s.ents[e];
      Ok(s.(ents := s.ents[e := row.(name := newName, aliases := (row.aliases + {row.name}) - {newName})],
            log := s.log + [Renamed(e, row.name, newName)]))
  }

  /** append_alias: additive, unaudited, and only on a live row. */
  function AppendAlias(s: State, e: Id, alias: string): State {
    if alias != "" && Live(s, e)
    then s.(ents := s.ents[e := s.ents[e].(aliases := s.ents[e].aliases + {alias})])
    else s
  }

  /** The normalised `into` argument of a split. */
  datatype SplitInto = Existing(id: Id) | Create(name: string, kind: Option<Kind>, aliases: set<string>)

  function Mint(s: State, newId: Id, e: Entity): State {
    s.(ents := s.ents[newId := e])
  }

  /** The identity side of split_entity, split_mention and split_claims: the guards, the minted
      target and one audit row when a reference moved. The references themselves are SplitBindings. */
  function Split(s: State, source: Id, into: SplitInto, newId: Id, moved: bool): Result<State, Error> {
    if source !in s.ents then Err(NotFound(source))
    else if s.ents[source].mergedInto.Some? then Err(AlreadyMerged(source, s.ents[source].mergedInto.value))
    else
      match into
      case Existing(t) =>
        if t !in s.ents then Err(NotFound(t))
        else if s.ents[t].mergedInto.Some? then Err(AlreadyMerged(t, s.ents[t].mergedInto.value))
        else if t == source then Err(SameEntity)
        else Ok(if moved then s.(log := s.log + [Repointed(source, t)]) else s)
      case Create(name, kind, aliases) =>
        var k := if kind.Some? then kind.value else s.ents[source].kind;
        var minted := Mint(s, newId, Entity(k, name, aliases, None));
        Ok(if moved then minted.(log := minted.log + [Repointed(source, newId)]) else minted)
  }

  const REUSE_THRESHOLD: real := 0.85
  const DISAMBIGUATE_THRESHOLD: real := 0.55
  const AUTO_MERGE_THRESHOLD: real := 0.92

  /** The best row of brain.resolve_entity, with its trigram score. */
  datatype Top = Top(id: Id, trgm: real)

  /** resolve_or_create_entity: reuse, auto-merge, provisional bind or mint. */
  function Resolve(s: State, surface: string, kind: Kind, top: Option<Top>, verification: real, newId: Id): State
    requires top.Some? ==> Live(s, top.value.id) && s.ents[top.value.id].kind == kind
    requires newId !in s.ents
  {
    var minted := Mint(s, newId, Entity(kind, surface, {surface}, None));
    if top.Some? && top.value.trgm > REUSE_THRESHOLD then
      var t := top.value.id;
      s.(ents := s.ents[t := s.ents[t].(aliases := s.ents[t].aliases + {surface})])
    else if top.Some? && top.value.trgm > DISAMBIGUATE_THRESHOLD then
      if verification >= AUTO_MERGE_THRESHOLD then
        Merge(QueuePair(minted, newId, top.value.id), newId, top.value.id, [])
      else s
    else minted
  }

  /** insert into merge_candidates ... on conflict do nothing. */
  function QueuePair(s: State, a: Id, b: Id): State {
    var p := PairOf(a, b);
    if p in s.cand then s else s.(cand := s.cand[p := Pending])
  }

  // ----- runs -----

  datatype Op =
    | DoMerge(loser: Id, winner: Id, order: seq<Id>)
    | DoUnmerge(e: Id, order: seq<Id>, decided: Id)
    | DoRename(e: Id, newName: string)
    | DoAlias(e: Id, alias: string)
    | DoSplit(source: Id, into: SplitInto, newId: Id, moved: bool)
    | DoResolve(surface: string, kind: Kind, top: Option<Top>, verification: real, newId: Id)
    | DoQueue(a: Id, b: Id)
    | DoKeep(pair: Pair)

  /** The choices the database may make for this call in this state. */
  ghost predicate Legal(s: State, op: Op) {
    match op
    case DoMerge(l, w, order) => MergeCheck(s, l, w).None? ==> Enumerates(order, Orphans(s, l))
    case DoUnmerge(e, order, decided) =>
      UnmergeCheck(s, e).None? ==> Enumerates(order, Restorable(s, e)) && decided in DecidedPartners(s, e)
    case DoSplit(_, _, newId, _) => newId !in s.ents
    case DoResolve(_, kind, top, _, newId) =>
      && newId !in s.ents
      && (top.Some? ==> Live(s, top.value.id) && s.ents[top.value.id].kind == kind)
    case _ => true
  }

  /** One service call; a call that raises leaves every table as it was. */
  function Apply(s: State, op: Op): State
    requires op.DoResolve? ==> Legal(s, op)
  {
    match op
    case DoMerge(l, w, order) => if MergeCheck(s, l, w).None? then Merge(s, l, w, order) else s
    case DoUnmerge(e, order, decided) => if UnmergeCheck(s, e).None? then Unmerge(s, e, order, decided) else s
    case DoRename(e, name) => (match Rename(s, e, name) case Ok(s') => s' case Err(_) => s)
    case DoAlias(e, alias) => AppendAlias(s, e, alias)
    case DoSplit(src, into, newId, moved) =>
      (match Split(s, src, into, newId, moved) case Ok(s') => s' case Err(_) => s)
    case DoResolve(surface, kind, top, v, newId) => Resolve(s, surface, kind, top, v, newId)
    case DoQueue(a, b) => QueuePair(s, a, b)
    case DoKeep(p) => s.(cand := Restamp(s.cand, p, Pending, KeptSeparate))
  }

  ghost predicate LegalRun(s: State, ops: seq<Op>)
    decreases |ops|
  {
    ops == [] || (Legal(s, ops[0]) && LegalRun(Apply(s, ops[0]), ops[1..]))
  }

  ghost function Run(s: State, ops: seq<Op>): State
    requires LegalRun(s, ops)
    decreases |ops|
  {
    if ops == [] then s else Run(Apply(s, ops[0]), ops[1..])
  }
}
