/** Confirming a merge candidate in two steps: resolve_merge_candidate reads the row's status, and the
    merge runs later in a transaction of its own. Anything may come in between. */
module CandidateRace {
  import opened Basics
  import opened Identity
  import opened IdentityStore

  /** A confirming call between its read and its merge, and after it. */
  datatype Call = Ready(pair: Pair, winner: Id) | Confirmed(pair: Pair, winner: Id) | Refused

  datatype World = World(db: State, calls: map<nat, Call>)

  datatype Event =
    | Look(call: nat, pair: Pair, winner: Id)     // the read, and the checks made on it
    | Finish(call: nat, order: seq<Id>)           // merge_entities
    | Service(op: Op)                             // any identity service, a rejection (DoKeep) among them

  function Loser(pair: Pair, winner: Id): Id {
    if winner == pair.lo then pair.hi else pair.lo
  }

  ghost predicate Enabled(w: World, e: Event) {
    match e
    case Look(call, pair, _) => call !in w.calls && pair.lo < pair.hi
    case Finish(call, order) =>
      && call in w.calls && w.calls[call].Ready?
      && Legal(w.db, DoMerge(Loser(w.calls[call].pair, w.calls[call].winner), w.calls[call].winner, order))
    case Service(op) => Legal(w.db, op)
  }

  ghost function Next(w: World, e: Event): World
    requires Enabled(w, e)
  {
    match e
    case Look(call, pair, winner) =>
      var ok := pair in w.db.cand && w.db.cand[pair] == Pending && winner in {pair.lo, pair.hi};
      w.(calls := w.calls[call := if ok then Ready(pair, winner) else Refused])
    case Finish(call, order) =>
      var c := w.calls[call];
      var loser := Loser(c.pair, c.winner);
      if MergeCheck(w.db, loser, c.winner).None?
      then World(Merge(w.db, loser, c.winner, order), w.calls[call := Confirmed(c.pair, c.winner)])
      else w.(calls := w.calls[call := Refused])
    case Service(op) => w.(db := Apply(w.db, op))
  }

  ghost predicate LegalRun(w: World, events: seq<Event>)
    decreases |events|, 0
  {
    events == [] ||
    var n := |events| - 1;
    LegalRun(w, events[..n]) && Enabled(Run(w, events[..n]), events[n])
  }

  ghost function Run(w: World, events: seq<Event>): World
    requires LegalRun(w, events)
    decreases |events|, 1
  {
    if events == [] then w
    else
      var n := |events| - 1;
      Next(Run(w, events[..n]), events[n])
  }

  /** The world before event `n`. */
  ghost function At(w: World, events: seq<Event>, n: nat): World
    requires n <= |events| && LegalRun(w, events[..n])
  {
    Run(w, events[..n])
  }

  lemma {:induction false} PrefixLegal(w: World, events: seq<Event>, n: nat)
    requires LegalRun(w, events) && n <= |events|
    ensures LegalRun(w, events[..n])
    decreases |events|
  {
    if n == |events| {
      assert events[..n] == events;
    } else {
      PrefixLegal(w, events[..|events| - 1], n);
      assert events[..|events| - 1][..n] == events[..n];
    }
  }

  lemma OneEvent(w: World, events: seq<Event>, n: nat)
    requires LegalRun(w, events) && n < |events|
    ensures LegalRun(w, events[..n]) && LegalRun(w, events[..n + 1])
    ensures Enabled(At(w, events, n), events[n]) && At(w, events, n + 1) == Next(At(w, events, n), events[n])
  {
    PrefixLegal(w, events, n);
    PrefixLegal(w, events, n + 1);
    assert events[..n + 1][..n] == events[..n];
  }

  // ----- the row between read and merge -----

  /** A rejection that takes effect: the conditional update finds the row pending. */
  ghost predicate Rejects(w: World, e: Event, p: Pair) {
    e == Service(DoKeep(p)) && p in w.db.cand && w.db.cand[p] == Pending
  }

  /** A row only leaves pending and merged by a rejection, and a rejection is final. */
  lemma StatusStep(w: World, e: Event, p: Pair)
    requires Enabled(w, e) && p in w.db.cand
    ensures p in Next(w, e).db.cand
    ensures w.db.cand[p] in {Pending, Merged} ==>
              if Rejects(w, e, p) then Next(w, e).db.cand[p] == KeptSeparate
              else Next(w, e).db.cand[p] in {Pending, Merged}
    ensures w.db.cand[p] == KeptSeparate ==> Next(w, e).db.cand[p] == KeptSeparate
  {
  }

  ghost predicate RejectedWithin(w: World, events: seq<Event>, i: nat, j: nat, p: Pair)
    requires LegalRun(w, events) && j <= |events|
  {
    exists k :: i < k < j && RejectsAt(w, events, k, p)
  }

  ghost predicate RejectsAt(w: World, events: seq<Event>, k: nat, p: Pair)
    requires LegalRun(w, events) && k < |events|
  {
    LegalRun(w, events[..k]) && Rejects(At(w, events, k), events[k], p)
  }

  lemma RejectedStep(w: World, events: seq<Event>, i: nat, n: nat, p: Pair)
    requires LegalRun(w, events) && i < n < |events|
    ensures RejectedWithin(w, events, i, n + 1, p) <==> RejectedWithin(w, events, i, n, p) || RejectsAt(w, events, n, p)
  {
    if k :| i < k < n && RejectsAt(w, events, k, p) {
      assert k < n + 1;
    }
    if k :| i < k < n + 1 && RejectsAt(w, events, k, p) {
      assert k < n || k == n;
    }
  }

  lemma {:induction false} StatusSince(w: World, events: seq<Event>, i: nat, n: nat, p: Pair)
    requires LegalRun(w, events) && i < n <= |events|
    requires LegalRun(w, events[..i + 1]) && p in At(w, events, i + 1).db.cand
    requires At(w, events, i + 1).db.cand[p] == Pending
    ensures LegalRun(w, events[..n]) && p in At(w, events, n).db.cand
    ensures if RejectedWithin(w, events, i, n, p) then At(w, events, n).db.cand[p] == KeptSeparate
            else At(w, events, n).db.cand[p] in {Pending, Merged}
    decreases n
  {
    if n == i + 1 {
    } else {
      StatusSince(w, events, i, n - 1, p);
      OneEvent(w, events, n - 1);
      StatusStep(At(w, events, n - 1), events[n - 1], p);
      RejectedStep(w, events, i, n - 1, p);
    }
  }

  /** Once read, a call stays as it is until it finishes. */
  lemma {:induction false} CallSince(w: World, events: seq<Event>, i: nat, n: nat, call: nat)
    requires LegalRun(w, events) && i < n <= |events|
    requires LegalRun(w, events[..i + 1]) && call in At(w, events, i + 1).calls
    ensures LegalRun(w, events[..n]) && call in At(w, events, n).calls
    ensures At(w, events, n).calls[call].Ready? ==> At(w, events, n).calls[call] == At(w, events, i + 1).calls[call]
    decreases n
  {
    if n == i + 1 {
    } else {
      CallSince(w, events, i, n - 1, call);
      OneEvent(w, events, n - 1);
    }
  }

  /** Main result: in every interleaving, a confirmed call has merged the pair, and its candidate row says
      so if and only if nobody rejected the pair between the call's read and its merge. */
  lemma ConfirmStampsIff(w: World, events: seq<Event>, i: nat, j: nat)
    requires LegalRun(w, events) && i < j < |events| && events[i].Look? && events[j].Finish?
    requires events[j].call == events[i].call
    requires LegalRun(w, events[..j + 1]) && events[j].call in At(w, events, j + 1).calls
    requires At(w, events, j + 1).calls[events[j].call].Confirmed?
    ensures var p, after := events[i].pair, At(w, events, j + 1).db;
            && p in after.cand
            && (after.cand[p] == Merged <==> !RejectedWithin(w, events, i, j, p))
            && Loser(p, events[i].winner) in after.ents
            && after.ents[Loser(p, events[i].winner)].mergedInto == Some(events[i].winner)
  {
    var p, winner, call := events[i].pair, events[i].winner, events[i].call;
    OneEvent(w, events, i);
    OneEvent(w, events, j);
    CallSince(w, events, i, j, call);
    assert At(w, events, i + 1).calls[call] == Ready(p, winner);
    StatusSince(w, events, i, j, p);
  }

  /** The run that fails: the row is read, rejected, and merged all the same. */
  lemma RejectedAndMerged(w: World, p: Pair) returns (events: seq<Event>)
    requires p.lo < p.hi && p in w.db.cand && w.db.cand[p] == Pending && w.calls == map[]
    requires MergeCheck(w.db, p.lo, p.hi).None?
    ensures |events| == 3 && events[0] == Look(1, p, p.hi) && events[1] == Service(DoKeep(p)) && events[2].Finish?
    ensures LegalRun(w, events)
    ensures var w' := Run(w, events);
            && 1 in w'.calls && w'.calls[1] == Confirmed(p, p.hi)
            && p in w'.db.cand && w'.db.cand[p] == KeptSeparate
            && p.lo in w'.db.ents && w'.db.ents[p.lo].mergedInto == Some(p.hi)
  {
    events := [Look(1, p, p.hi), Service(DoKeep(p)), Finish(1, Listing(Orphans(w.db, p.lo)))];
    assert LegalRun(w, []) && Run(w, []) == w;
    OneMore(w, [], events[0]);
    var w1 := Next(w, events[0]);
    assert [] + [events[0]] == events[..1];
    OneMore(w, events[..1], events[1]);
    var w2 := Next(w1, events[1]);
    assert events[..1] + [events[1]] == events[..2];
    assert Orphans(w2.db, p.lo) == Orphans(w.db, p.lo);
    OneMore(w, events[..2], events[2]);
    assert events[..2] + [events[2]] == events;
  }

  lemma OneMore(w: World, events: seq<Event>, e: Event)
    requires LegalRun(w, events) && Enabled(Run(w, events), e)
    ensures LegalRun(w, events + [e]) && Run(w, events + [e]) == Next(Run(w, events), e)
  {
    assert (events + [e])[..|events|] == events;
  }

  // ----- one call on its own -----

  datatype CandidateError =
    | NoSuchCandidate
    | AlreadyResolved(status: Status)
    | WinnerNotInPair
    | MergeRaised(error: Error)

  /** resolve_merge_candidate, uninterrupted: a confirmed pair is merged and stamped 'merged', a
      rejected one stamped 'kept_separate' and not touched otherwise. */
  method ResolveMergeCandidate(db: Tables, p: Pair, confirm: bool, winner: Id)
    returns (r: Result<Status, CandidateError>)
    requires p.lo < p.hi
    modifies db
    ensures r.Err? ==> db.Now() == old(db.Now())
    ensures p !in old(db.cand) ==> r == Err(NoSuchCandidate)
    ensures p in old(db.cand) && old(db.cand)[p] != Pending ==> r == Err(AlreadyResolved(old(db.cand)[p]))
    ensures p in old(db.cand) && old(db.cand)[p] == Pending && confirm && winner != p.lo && winner != p.hi ==>
              r == Err(WinnerNotInPair)
    ensures r.Ok? ==> r.value == if confirm then Merged else KeptSeparate
    ensures r.Ok? <==>
            && p in old(db.cand) && old(db.cand)[p] == Pending
            && (confirm ==> winner in {p.lo, p.hi}
                            && MergeCheck(old(db.Now()), if winner == p.lo then p.hi else p.lo, winner).None?)
    ensures r.Ok? && !confirm ==> db.Now() == old(db.Now()).(cand := old(db.cand)[p := KeptSeparate])
    ensures r.Ok? && confirm ==>
              && p in db.cand && db.cand[p] == Merged
              && var loser := if winner == p.lo then p.hi else p.lo;
                 exists order :: Enumerates(order, Orphans(old(db.Now()), loser))
                     && db.Now() == Merge(old(db.Now()), loser, winner, order)
  {
    if p !in db.cand { return Err(NoSuchCandidate); }
    if db.cand[p] != Pending { return Err(AlreadyResolved(db.cand[p])); }
    if !confirm {
      db.cand := db.cand[p := KeptSeparate];
      return Ok(KeptSeparate);
    }
    if winner != p.lo && winner != p.hi { return Err(WinnerNotInPair); }
    var loser := if winner == p.lo then p.hi else p.lo;
    var merged := db.MergeEntities(loser, winner);
    if merged.Err? { return Err(MergeRaised(merged.error)); }
    return Ok(Merged);
  }
}
