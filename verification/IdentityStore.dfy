/** The identity tables as the services update them: each method runs one transaction and is proved
    to make exactly the step of module Identity, or to raise that step's error and change nothing. */
module IdentityStore {
  import opened Basics
  import opened Identity
  import opened Scoring

  class Tables {
    var ents: map<Id, Entity>
    var log: seq<LogRow>
    var cand: map<Pair, Status>

    ghost function Now(): State
      reads this
    {
      State(ents, log, cand)
    }

    constructor ()
      ensures Now() == State(map[], [], map[])
    {
      ents, log, cand := map[], [], map[];
    }

    method MergeEntities(loser: Id, winner: Id) returns (r: Result<bool, Error>)
      modifies this
      ensures MergeCheck(old(Now()), loser, winner).Some? ==>
                r == Err(MergeCheck(old(Now()), loser, winner).value) && Now() == old(Now())
      ensures MergeCheck(old(Now()), loser, winner).None? ==>
                && r.Ok?
                && (exists order :: Enumerates(order, Orphans(old(Now()), loser))
                                    && Now() == Merge(old(Now()), loser, winner, order))
                && winner in ents && winner in old(ents) && loser in old(ents)
                && (forall a :: a in ents[winner].aliases <==>
                      && a != old(ents)[winner].name
                      && (a in old(ents)[winner].aliases
                          || a == old(ents)[loser].name || a in old(ents)[loser].aliases))
                && (r.value <==> |SurfacesOf(old(ents)[loser]) - SurfacesOf(old(ents)[winner])|
                                 > if old(ents)[winner].name in old(ents)[winner].aliases then 1 else 0)
    {
      if loser == winner { return Err(SameEntity); }
      if loser !in ents { return Err(NotFound(loser)); }
      if ents[loser].mergedInto.Some? { return Err(AlreadyMerged(loser, ents[loser].mergedInto.value)); }
      if winner !in ents { return Err(NotFound(winner)); }
      if ents[winner].mergedInto.Some? { return Err(AlreadyMerged(winner, ents[winner].mergedInto.value)); }
      if ents[loser].kind != ents[winner].kind { return Err(KindMismatch); }

      AliasCount(ents[loser], ents[winner]);
      var appended, order := ApplyMerge(loser, winner);
      return Ok(appended);
    }

    /** merge_entities_on_cursor past its guards. */
    method ApplyMerge(loser: Id, winner: Id) returns (appended: bool, ghost order: seq<Id>)
      requires MergeCheck(Now(), loser, winner).None?
      modifies this
      ensures Enumerates(order, Orphans(old(Now()), loser))
      ensures Now() == Merge(old(Now()), loser, winner, order)
      ensures appended == (|Now().ents[winner].aliases| > |old(Now()).ents[winner].aliases|)
    {
      ghost var start := Now();
      MergedInSteps(start, loser, winner);
      var kept := ents[winner].aliases;
      ents := AliasesAppended(ents, loser, winner);
      appended := |ents[winner].aliases| > |kept|;
      ents := ents[loser := ents[loser].(mergedInto := Some(winner))];
      var orphaned := set e | e in ents && ents[e].mergedInto == Some(loser);
      ents := map e | e in ents :: if e in orphaned then ents[e].(mergedInto := Some(winner)) else ents[e];
      assert ents == MergedEnts(start, loser, winner);
      order := RecordCompressions(orphaned, loser, winner);
      assert log == start.log + CompressionRows(order, loser, winner);
      cand := Restamp(cand, PairOf(loser, winner), Pending, Merged);
      log := log + [MergeLogged(loser, winner)];
    }

    /** The alias update: the winner takes on every surface form of the loser. */
    static function AliasesAppended(ents: map<Id, Entity>, loser: Id, winner: Id): map<Id, Entity>
      requires loser in ents && winner in ents
    {
      var incoming := {ents[loser].name} + ents[loser].aliases;
      ents[winner := ents[winner].(aliases := (ents[winner].aliases + incoming) - {ents[winner].name})]
    }

    /** Alias row, pointer and path compression, one update after the other, make the merged table. */
    static lemma MergedInSteps(s: State, loser: Id, winner: Id)
      requires MergeCheck(s, loser, winner).None?
      ensures var named := AliasesAppended(s.ents, loser, winner);
              var pointed := named[loser := named[loser].(mergedInto := Some(winner))];
              var orphaned := set e | e in pointed && pointed[e].mergedInto == Some(loser);
              && orphaned == Orphans(s, loser)
              && (map e | e in pointed :: if e in orphaned then pointed[e].(mergedInto := Some(winner)) else pointed[e])
                 == MergedEnts(s, loser, winner)
    {
      assert s.ents[winner].aliases + ({s.ents[loser].name} + s.ents[loser].aliases)
             == s.ents[winner].aliases + {s.ents[loser].name} + s.ents[loser].aliases;
    }

    /** One audit row per repointed row, in whatever order the rows come. */
    method RecordCompressions(orphaned: set<Id>, loser: Id, winner: Id) returns (ghost order: seq<Id>)
      modifies `log
      ensures Enumerates(order, orphaned)
      ensures log == old(log) + CompressionRows(order, loser, winner)
    {
      order := [];
      var rest := orphaned;
      while rest != {}
        invariant rest <= orphaned && Enumerates(order, orphaned - rest)
        invariant log == old(log) + CompressionRows(order, loser, winner)
        decreases rest
      {
        var t :| t in rest;
        rest := rest - {t};
        log := log + [Compressed(t, loser, winner, loser)];
        order := order + [t];
      }
    }

    method UnmergeEntity(e: Id) returns (r: Result<Id, Error>)
      modifies this
      ensures UnmergeCheck(old(Now()), e).Some? ==>
                r == Err(UnmergeCheck(old(Now()), e).value) && Now() == old(Now())
      ensures UnmergeCheck(old(Now()), e).None? ==>
                && r == Ok(old(Now()).ents[e].mergedInto.value)
                && exists order, decided ::
                     && Enumerates(order, Restorable(old(Now()), e))
                     && decided in DecidedPartners(old(Now()), e)
                     && Now() == Unmerge(old(Now()), e, order, decided)
    {
      if e !in ents { return Err(NotFound(e)); }
      if ents[e].mergedInto.None? { return Err(NotMerged(e)); }

      ghost var start := Now();
      var was := ents[e].mergedInto.value;
      ents := ents[e := ents[e].(mergedInto := None)];
      var restored := set t | t in ents && MovedVia(log, t, ents[t].mergedInto, e);
      assert restored == Restorable(start, e);
      ents := map t | t in ents :: if t in restored then ents[t].(mergedInto := Some(e)) else ents[t];
      assert ents == UnmergedEnts(start, e);
      ghost var order := RecordRestores(restored, was, e);

      var decided := Lineage(e, was, start.log);
      var p := PairOf(e, decided);
      if p in cand && cand[p] == Merged { cand := cand[p := Pending]; }
      log := log + [Unmerged(e, was)];
      assert Now() == Unmerge(start, e, order, decided);
      return Ok(was);
    }

    method RecordRestores(restored: set<Id>, was: Id, e: Id) returns (ghost order: seq<Id>)
      modifies `log
      ensures Enumerates(order, restored)
      ensures log == old(log) + RestoreRows(order, was, e)
    {
      order := [];
      var rest := restored;
      while rest != {}
        invariant rest <= restored && Enumerates(order, restored - rest)
        invariant log == old(log) + RestoreRows(order, was, e)
        decreases rest
      {
        var t :| t in rest;
        rest := rest - {t};
        log := log + [Restored(t, was, e)];
        order := order + [t];
      }
    }

    /** The recursive lineage query, round by round, over the log this call has already extended with
        restores; those are no compressions, so it reads what stood there before. */
    method Lineage(e: Id, partner: Id, ghost before: seq<LogRow>) returns (decided: Id)
      requires before <= log && forall i :: |before| <= i < |log| ==> !log[i].Compressed?
      ensures decided in Deepest(before, e, {partner}, 0)
    {
      var level, depth := {partner}, 0;
      while depth < MAX_LINEAGE_DEPTH
        invariant depth <= MAX_LINEAGE_DEPTH && level != {}
        invariant Deepest(before, e, {partner}, 0) == Deepest(before, e, level, depth)
        decreases MAX_LINEAGE_DEPTH - depth
      {
        var next := NextLevel(log, e, level);
        SameLevel(before, log, e, level);
        if next == {} { break; }
        level, depth := next, depth + 1;
      }
      decided :| decided in level;
    }

    static lemma SameLevel(before: seq<LogRow>, log: seq<LogRow>, e: Id, level: set<Id>)
      requires before <= log && forall i :: |before| <= i < |log| ==> !log[i].Compressed?
      ensures NextLevel(before, e, level) == NextLevel(log, e, level)
    {
    }

    method RenameEntity(e: Id, newName: string) returns (r: Result<bool, Error>)
      modifies this
      ensures match Rename(old(Now()), e, newName)
              case Ok(s) => Now() == s && r == Ok(s != old(Now()))
              case Err(err) => Now() == old(Now()) && r == Err(err)
    {
      if newName == "" { return Err(BlankName); }
      if e !in ents { return Err(NotFound(e)); }
      var row := ents[e];
      if row.name == newName { return Ok(false); }
      ents := ents[e := row.(name := newName, aliases := (row.aliases + {row.name}) - {newName})];
      log := log + [Renamed(e, row.name, newName)];
      return Ok(true);
    }

    method AppendSurface(e: Id, alias: string) returns (targeted: bool)
      modifies this
      ensures Now() == AppendAlias(old(Now()), e, alias)
      ensures targeted == (alias != "" && Live(old(Now()), e))
    {
      if alias == "" { return false; }
      if e in ents && ents[e].mergedInto.None? {
        ents := ents[e := ents[e].(aliases := ents[e].aliases + {alias})];
        return true;
      }
      return false;
    }

    method SplitEntity(source: Id, into: SplitInto, newId: Id, moved: bool) returns (r: Result<Id, Error>)
      requires newId !in ents
      modifies this
      ensures match Split(old(Now()), source, into, newId, moved)
              case Ok(s) => Now() == s && r == Ok(if into.Existing? then into.id else newId)
              case Err(err) => Now() == old(Now()) && r == Err(err)
    {
      if source !in ents { return Err(NotFound(source)); }
      if ents[source].mergedInto.Some? { return Err(AlreadyMerged(source, ents[source].mergedInto.value)); }
      var target := newId;
      match into {
        case Existing(t) =>
          if t !in ents { return Err(NotFound(t)); }
          if ents[t].mergedInto.Some? { return Err(AlreadyMerged(t, ents[t].mergedInto.value)); }
          if t == source { return Err(SameEntity); }
          target := t;
        case Create(name, kind, aliases) =>
          var k := if kind.Some? then kind.value else ents[source].kind;
          ents := ents[newId := Entity(k, name, aliases, None)];
      }
      if moved { log := log + [Repointed(source, target)]; }
      return Ok(target);
    }

    method ResolveOrCreate(surface: string, kind: Kind, top: Option<Top>, norm: (Kind, string, set<string>) -> Names,
                           newId: Id)
      returns (bound: Id)
      requires newId !in ents
      requires top.Some? ==> Live(Now(), top.value.id) && ents[top.value.id].kind == kind
      requires forall e :: e in ents ==> ents[e].mergedInto != Some(newId)
      modifies this
      ensures Now() ==
              Resolve(old(Now()), surface, kind, top, Verification(old(Now()), surface, kind, top, norm), newId)
      ensures bound == if top.Some? && top.value.trgm > DISAMBIGUATE_THRESHOLD then top.value.id else newId
      ensures Live(Now(), bound)
    {
      ghost var start := Now();
      var row := Entity(kind, surface, {surface}, None);
      if top.Some? && top.value.trgm > REUSE_THRESHOLD {
        var t := top.value.id;
        ents := ents[t := ents[t].(aliases := ents[t].aliases + {surface})];
        return t;
      }
      if top.Some? && top.value.trgm > DISAMBIGUATE_THRESHOLD {
        var t := top.value.id;
        var verification := MatchScore(norm(kind, ents[t].name, ents[t].aliases), norm(kind, surface, {surface}));
        if verification >= AUTO_MERGE_THRESHOLD {
          ents := ents[newId := row];
          var p := PairOf(newId, t);
          if p !in cand { cand := cand[p := Pending]; }
          assert Now() == QueuePair(Mint(start, newId, row), newId, t);
          ghost var queued := Now();
          assert Orphans(queued, newId) == {};
          var _, order := ApplyMerge(newId, t);
          NothingListed(order);
        }
        return t;
      }
      ents := ents[newId := row];
      return newId;
    }

    /** insert into merge_candidates ... on conflict do nothing: one row per queued pair. */
    method InsertCandidate(a: Id, b: Id) returns (inserted: bool)
      modifies this
      ensures Now() == QueuePair(old(Now()), a, b)
      ensures inserted == (PairOf(a, b) !in old(cand))
    {
      var p := PairOf(a, b);
      if p in cand { return false; }
      cand := cand[p := Pending];
      return true;
    }
  }
}
