/** Soft deletions that overlap. A deletion looks for the claims it leaves without a live source, and its
    updates commit later; any number of other deletions may look or commit in between. */
module DeleteRace {
  import opened Basics
  import opened ClaimSupport

  /** Where a call of soft_delete_experience stands. */
  datatype Phase = Started(x: Id) | Looked(x: Id, seen: set<Id>) | Committed(x: Id) | AlreadyDeleted

  datatype World = World(db: State, calls: map<nat, Phase>)

  datatype Event =
    | Begin(call: nat, x: Id)                        // the row is read
    | Look(call: nat, x: Id)                         // its update takes the row lock, the orphans are listed
    | Commit(call: nat, x: Id, order: seq<Id>)       // the retractions, the audit rows, and the commit

  ghost predicate Enabled(w: World, e: Event) {
    match e
    case Begin(call, x) => call !in w.calls && x in w.db.exps
    case Look(call, x) =>
      && call in w.calls && w.calls[call] == Started(x) && x in w.db.exps
      && forall k :: k in w.calls && w.calls[k].Looked? ==> w.calls[k].x != x
    case Commit(call, x, order) =>
      && call in w.calls && w.calls[call].Looked? && w.calls[call].x == x && x in w.db.exps
      && Enumerates(order, w.calls[call].seen)
  }

  /** The updates of a deletion that saw `seen`: they retract what is still asserted of it. */
  function Deleted(s: State, x: Id, seen: set<Id>, order: seq<Id>): State
    requires x in s.exps
  {
    s.(exps := s.exps[x := s.exps[x].(deleted := true)],
       claims := RetractAll(s.claims, set c | c in seen && IsAsserted(s, c)),
       log := s.log + RetractionRows(order) + [ExperienceDeleted(x)])
  }

  ghost function Next(w: World, e: Event): World
    requires Enabled(w, e)
  {
    match e
    case Begin(call, x) => w.(calls := w.calls[call := if w.db.exps[x].deleted then AlreadyDeleted else Started(x)])
    case Look(call, x) => w.(calls := w.calls[call := Looked(x, Orphaned(w.db, x))])
    case Commit(call, x, order) =>
      World(Deleted(w.db, x, w.calls[call].seen, order), w.calls[call := Committed(x)])
  }

  ghost predicate LegalRun(w: World, events: seq<Event>)
    decreases |events|, 0
  {
    events == [] ||
    var n := |events| - 1;
    LegalRun(w, events[..n]) && Enabled(Run(w, events[..n]), events[n])
  }

  ghost function Run(w: World, events: seq<Event>): World
    requires LegalRun(w, events)
    decreases |events|, 1
  {
    if events == [] then w
    else
      var n := |events| - 1;
      Next(Run(w, events[..n]), events[n])
  }

  ghost predicate AtRest(w: World) {
    forall k :: k in w.calls ==> w.calls[k].Committed? || w.calls[k].AlreadyDeleted?
  }

  /** Uninterrupted, the three events are soft_delete_experience. */
  lemma AloneIsSoftDelete(w: World, call: nat, x: Id, order: seq<Id>)
    requires call !in w.calls && x in w.db.exps && !w.db.exps[x].deleted && Enumerates(order, Orphaned(w.db, x))
    requires forall k :: k in w.calls && w.calls[k].Looked? ==> w.calls[k].x != x
    ensures var w1 := Next(w, Begin(call, x));
            && Enabled(w1, Look(call, x)) && Enabled(Next(w1, Look(call, x)), Commit(call, x, order))
            && Next(Next(w1, Look(call, x)), Commit(call, x, order)).db == SoftDelete(w.db, x, order)
  {
    assert (set c | c in Orphaned(w.db, x) && IsAsserted(w.db, c)) == Orphaned(w.db, x);
  }

  // ----- one claim -----

  predicate LiveSource(s: State, c: Id, z: Id) {
    Source(c, z) in s.sources && Live(s, z)
  }

  ghost predicate Unsupported(s: State, c: Id) {
    forall z: Id :: !LiveSource(s, c, z)
  }

  /** A claim is found orphaned when it is asserted and no other source of it is live. */
  lemma OrphanedIff(s: State, x: Id, c: Id)
    requires c in s.claims
    ensures c in Orphaned(s, x) <==>
            IsAsserted(s, c) && Source(c, x) in s.sources && forall z: Id :: LiveSource(s, c, z) ==> z == x
  {
    if Source(c, x) in s.sources {
      if z: Id :| LiveSource(s, c, z) && z != x {
        assert Source(c, z) in s.sources && Live(s, Source(c, z).exp);
      }
      if r :| r in s.sources && r.claim == c && r.exp != x && Live(s, r.exp) {
        assert r == Source(c, r.exp) && LiveSource(s, c, r.exp);
      }
    }
  }

  ghost predicate GoneBefore(events: seq<Event>, i: nat, z: Id)
    requires i <= |events|
  {
    exists j :: 0 <= j < i && events[j].Commit? && events[j].x == z
  }

  /** At event `i` a deletion of a source of `c` looks, and each other live source is already gone. */
  ghost predicate LooksLast(s: State, events: seq<Event>, c: Id, i: nat)
    requires i < |events|
  {
    && events[i].Look? && Source(c, events[i].x) in s.sources
    && forall z: Id :: LiveSource(s, c, z) && z != events[i].x ==> GoneBefore(events, i, z)
  }

  ghost predicate SomeoneLooksLast(s: State, events: seq<Event>, c: Id) {
    exists i :: 0 <= i < |events| && LooksLast(s, events, c, i)
  }

  /** The sources of `c` that are live now. */
  ghost predicate SourcesLeft(s: State, events: seq<Event>, c: Id, now: State) {
    && now.sources == s.sources && now.exps.Keys == s.exps.Keys && now.claims.Keys == s.claims.Keys
    && forall z: Id :: LiveSource(now, c, z) <==> LiveSource(s, c, z) && !GoneBefore(events, |events|, z)
  }

  /** While `c` is asserted, whoever looked last has not committed. */
  ghost predicate StillPending(s: State, events: seq<Event>, c: Id, w: World) {
    IsAsserted(w.db, c) ==> forall i: nat :: i < |events| && LooksLast(s, events, c, i) ==>
      events[i].call in w.calls && w.calls[events[i].call].Looked? && c in w.calls[events[i].call].seen
  }

  /** `c` is only retracted, or seen to be orphaned, when someone has looked last. */
  ghost predicate Justified(s: State, events: seq<Event>, c: Id, w: World) {
    && (!IsAsserted(w.db, c) ==> SomeoneLooksLast(s, events, c))
    && forall k :: k in w.calls && w.calls[k].Looked? && c in w.calls[k].seen ==> SomeoneLooksLast(s, events, c)
  }

  ghost predicate Midway(s: State, events: seq<Event>, c: Id, w: World) {
    SourcesLeft(s, events, c, w.db) && StillPending(s, events, c, w) && Justified(s, events, c, w)
  }

  lemma Longer(s: State, events: seq<Event>, e: Event, c: Id)
    ensures forall i, z :: 0 <= i <= |events| ==> (GoneBefore(events + [e], i, z) <==> GoneBefore(events, i, z))
    ensures forall i: nat :: i < |events| ==> (LooksLast(s, events + [e], c, i) <==> LooksLast(s, events, c, i))
    ensures forall z :: GoneBefore(events + [e], |events| + 1, z) <==>
              GoneBefore(events, |events|, z) || (e.Commit? && e.x == z)
    ensures SomeoneLooksLast(s, events + [e], c) <==>
              SomeoneLooksLast(s, events, c) || LooksLast(s, events + [e], c, |events|)
  {
    var longer := events + [e];
    forall i, z | 0 <= i <= |events|
      ensures GoneBefore(longer, i, z) <==> GoneBefore(events, i, z)
    {
      if j :| 0 <= j < i && events[j].Commit? && events[j].x == z {
        assert longer[j] == events[j];
      }
    }
    forall z
      ensures GoneBefore(longer, |events| + 1, z) <==> GoneBefore(events, |events|, z) || (e.Commit? && e.x == z)
    {
      if j :| 0 <= j < |events| && events[j].Commit? && events[j].x == z {
        assert longer[j] == events[j];
      }
      if e.Commit? && e.x == z {
        assert longer[|events|] == e;
      }
    }
    if i :| 0 <= i < |events| && LooksLast(s, events, c, i) {
      assert LooksLast(s, longer, c, i);
    }
  }

  lemma StepMidway(s: State, events: seq<Event>, e: Event, c: Id, w: World)
    requires Enabled(w, e) && c in s.claims && Midway(s, events, c, w)
    ensures Midway(s, events + [e], c, Next(w, e))
  {
    Longer(s, events, e, c);
    match e
    case Begin(_, _) =>
    case Look(call, x) => LookMidway(s, events, e, c, w);
    case Commit(call, x, order) => CommitMidway(s, events, e, c, w);
  }

  lemma LookMidway(s: State, events: seq<Event>, e: Event, c: Id, w: World)
    requires Enabled(w, e) && c in s.claims && Midway(s, events, c, w) && e.Look?
    ensures Midway(s, events + [e], c, Next(w, e))
  {
    Longer(s, events, e, c);
    OrphanedIff(w.db, e.x, c);
    assert LooksLast(s, events + [e], c, |events|) <==>
        Source(c, e.x) in s.sources && forall z: Id :: LiveSource(w.db, c, z) ==> z == e.x;
  }

  lemma CommitMidway(s: State, events: seq<Event>, e: Event, c: Id, w: World)
    requires Enabled(w, e) && c in s.claims && Midway(s, events, c, w) && e.Commit?
    ensures Midway(s, events + [e], c, Next(w, e))
  {
    Longer(s, events, e, c);
    var w' := Next(w, e);
    assert IsAsserted(w'.db, c) <==> IsAsserted(w.db, c) && c !in w.calls[e.call].seen;
    assert forall z: Id :: LiveSource(w'.db, c, z) <==> LiveSource(w.db, c, z) && z != e.x;
  }

  lemma {:induction false} RunMidway(w: World, events: seq<Event>, c: Id)
    requires w.calls == map[] && IsAsserted(w.db, c) && LegalRun(w, events)
    ensures Midway(w.db, events, c, Run(w, events))
    decreases |events|
  {
    if events == [] {
    } else {
      var n := |events| - 1;
      RunMidway(w, events[..n], c);
      StepMidway(w.db, events[..n], events[n], c, Run(w, events[..n]));
      assert events == events[..n] + [events[n]];
    }
  }

  /** Main result: however many deletions overlap, and however they do, at rest a claim that was asserted with
      a live source is asserted without one if and only if every live source is gone and no deletion looked
      after all the others were. */
  lemma StrandedIff(w: World, events: seq<Event>, c: Id)
    requires w.calls == map[] && IsAsserted(w.db, c) && !Unsupported(w.db, c)
    requires LegalRun(w, events) && AtRest(Run(w, events))
    ensures IsAsserted(Run(w, events).db, c) && Unsupported(Run(w, events).db, c) <==>
            && (forall z: Id :: LiveSource(w.db, c, z) ==> GoneBefore(events, |events|, z))
            && !SomeoneLooksLast(w.db, events, c)
  {
    RunMidway(w, events, c);
    var w' := Run(w, events);
    assert IsAsserted(w'.db, c) ==> forall i: nat :: i < |events| ==> !LooksLast(w.db, events, c, i);
  }

  // ----- both ends of the scale -----

  /** If all look before any commits, a claim with two live sources is stranded once all are gone. */
  lemma AllLookFirst(w: World, events: seq<Event>, c: Id, y: Id, z: Id)
    requires w.calls == map[] && IsAsserted(w.db, c) && y != z && LiveSource(w.db, c, y) && LiveSource(w.db, c, z)
    requires LegalRun(w, events) && AtRest(Run(w, events))
    requires forall i, j :: 0 <= i < |events| && 0 <= j < |events| && events[i].Look? && events[j].Commit? ==> i < j
    requires forall z: Id :: LiveSource(w.db, c, z) ==> GoneBefore(events, |events|, z)
    ensures IsAsserted(Run(w, events).db, c) && Unsupported(Run(w, events).db, c)
  {
    StrandedIff(w, events, c);
    forall i: nat | i < |events| && events[i].Look?
      ensures !LooksLast(w.db, events, c, i)
    {
      var other := if events[i].x == y then z else y;
      assert !GoneBefore(events, i, other);
    }
  }

  /** The live source that goes last. */
  lemma {:induction false} LastToGo(s: State, events: seq<Event>, c: Id, n: nat, some: Id) returns (j: nat)
    requires n <= |events| && LiveSource(s, c, some)
    requires forall z: Id :: LiveSource(s, c, z) ==> GoneBefore(events, n, z)
    ensures j < n && events[j].Commit? && LiveSource(s, c, events[j].x)
    ensures forall z: Id :: LiveSource(s, c, z) && z != events[j].x ==> GoneBefore(events, j, z)
    decreases n
  {
    assert GoneBefore(events, n, some);
    if z0: Id :| LiveSource(s, c, z0) && !GoneBefore(events, n - 1, z0) {
      assert GoneBefore(events, n, z0);
      j := n - 1;
    } else {
      j := LastToGo(s, events, c, n - 1, some);
    }
  }

  /** If each deletion commits as soon as it has looked, no claim is ever stranded. */
  lemma OneAfterTheOther(w: World, events: seq<Event>, c: Id)
    requires w.calls == map[] && IsAsserted(w.db, c) && !Unsupported(w.db, c)
    requires LegalRun(w, events) && AtRest(Run(w, events))
    requires forall i :: 0 <= i < |events| && events[i].Commit? ==>
               i > 0 && events[i - 1] == Look(events[i].call, events[i].x)
    ensures !(IsAsserted(Run(w, events).db, c) && Unsupported(Run(w, events).db, c))
  {
    StrandedIff(w, events, c);
    if forall z: Id :: LiveSource(w.db, c, z) ==> GoneBefore(events, |events|, z) {
      var some: Id :| LiveSource(w.db, c, some);
      var j := LastToGo(w.db, events, c, |events|, some);
      forall z: Id | LiveSource(w.db, c, z) && z != events[j].x
        ensures GoneBefore(events, j - 1, z)
      {
        assert GoneBefore(events, j, z);
      }
      assert LooksLast(w.db, events, c, j - 1);
    }
  }

  // ----- the smallest such run -----

  lemma OneMore(w: World, events: seq<Event>, w1: World, e: Event) returns (w2: World)
    requires LegalRun(w, events) && Run(w, events) == w1 && Enabled(w1, e)
    ensures LegalRun(w, events + [e]) && Run(w, events + [e]) == w2 && w2 == Next(w1, e)
  {
    assert (events + [e])[..|events|] == events;
    w2 := Next(w1, e);
  }

  /** Claim 0, asserted on the word of 1 and 2. */
  function TwoSources(): World {
    World(State(map[1 := Experience(false, None), 2 := Experience(false, None)], map[0 := Asserted],
                map[Source(0, 1) := Verbatim, Source(0, 2) := Verbatim], []), map[])
  }

  lemma NeitherIsOrphaned(s: State)
    requires s == TwoSources().db
    ensures Orphaned(s, 1) == {} && Orphaned(s, 2) == {}
  {
    assert Source(0, 1) in s.sources && Source(0, 2) in s.sources && Live(s, 1) && Live(s, 2);
  }

  const BOTH_LOOK: seq<Event> := [Begin(1, 1), Begin(2, 2), Look(1, 1), Look(2, 2)]
  const BOTH_DELETE: seq<Event> := BOTH_LOOK + [Commit(1, 1, []), Commit(2, 2, [])]

  lemma BothLook() returns (w4: World)
    ensures LegalRun(TwoSources(), BOTH_LOOK) && Run(TwoSources(), BOTH_LOOK) == w4
    ensures w4.db == TwoSources().db && w4.calls == map[1 := Looked(1, {}), 2 := Looked(2, {})]
  {
    var w := TwoSources();
    NeitherIsOrphaned(w.db);
    assert LegalRun(w, []) && Run(w, []) == w;
    var w1 := OneMore(w, [], w, Begin(1, 1));
    var w2 := OneMore(w, [] + [Begin(1, 1)], w1, Begin(2, 2));
    var w3 := OneMore(w, [] + [Begin(1, 1)] + [Begin(2, 2)], w2, Look(1, 1));
    w4 := OneMore(w, [] + [Begin(1, 1)] + [Begin(2, 2)] + [Look(1, 1)], w3, Look(2, 2));
    assert [] + [Begin(1, 1)] + [Begin(2, 2)] + [Look(1, 1)] + [Look(2, 2)] == BOTH_LOOK;
  }

  lemma BothCommit()
    ensures LegalRun(TwoSources(), BOTH_DELETE) && AtRest(Run(TwoSources(), BOTH_DELETE))
  {
    var w4 := BothLook();
    var w5 := OneMore(TwoSources(), BOTH_LOOK, w4, Commit(1, 1, []));
    var w6 := OneMore(TwoSources(), BOTH_LOOK + [Commit(1, 1, [])], w5, Commit(2, 2, []));
    assert BOTH_LOOK + [Commit(1, 1, [])] + [Commit(2, 2, [])] == BOTH_DELETE;
  }

  /** Both are deleted, each deletion counting on the other. */
  lemma TwoStrand()
    ensures LegalRun(TwoSources(), BOTH_DELETE) && AtRest(Run(TwoSources(), BOTH_DELETE)) && Supported(TwoSources().db)
    ensures IsAsserted(Run(TwoSources(), BOTH_DELETE).db, 0) && Unsupported(Run(TwoSources(), BOTH_DELETE).db, 0)
  {
    var s, events := TwoSources().db, BOTH_DELETE;
    BothCommit();
    assert Speaks(s, 0, 1) && LiveSource(s, 0, 1) && LiveSource(s, 0, 2);
    assert events[4] == Commit(1, 1, []) && events[5] == Commit(2, 2, []);
    assert GoneBefore(events, |events|, 1) && GoneBefore(events, |events|, 2);
    AllLookFirst(TwoSources(), events, 0, 1, 2);
  }
}
