/** The batch dedup planner: verify every candidate pair, orient the confident ones, demote the
    ambiguous and the contested, queue the rest. With the contested gate on, what survives is a
    disjoint union of cliques, each edge oriented up a strict total order. */
module DedupPlan {
  import opened Basics
  import opened Identity
  import opened QueueCap
  import opened Scoring

  /** What the planner reads of an entity. */
  datatype Ent = Ent(names: Names, aliasCount: nat, nameLength: nat)

  /** The scorer seam: a score, two cut-points and whether the contested gate is on. */
  datatype Scorer = Scorer(score: (Names, Names) -> real, autoMerge: real, queueFloor: real, gate: bool)

  /** A pair at or above the merge bar, oriented; `subset` names the side that abbreviates the other. */
  datatype Proposal = Proposal(loser: Id, winner: Id, score: real, subset: Option<Id>)

  /** Candidate pairs: ordered ids of known entities of one kind. */
  ghost predicate Candidates(ents: map<Id, Ent>, cands: seq<Pair>) {
    forall i :: 0 <= i < |cands| ==>
      && cands[i].lo < cands[i].hi && cands[i].lo in ents && cands[i].hi in ents
      && ents[cands[i].lo].names.kind == ents[cands[i].hi].names.kind
  }

  // ----- one pair -----

  datatype Side = Left | Right

  /** The first abbreviation met when running over the forms of both sides. */
  function AbbreviatedSide(fa: seq<Form>, fb: seq<Form>): Option<Side> {
    if fa == [] then None
    else
      var row := AbbreviatedInRow(fa[0], fb);
      if row.Some? then row else AbbreviatedSide(fa[1..], fb)
  }

  function AbbreviatedInRow(x: Form, fb: seq<Form>): Option<Side> {
    if fb == [] then None
    else if IsAbbreviation(x, fb[0]) then Some(Left)
    else if IsAbbreviation(fb[0], x) then Some(Right)
    else AbbreviatedInRow(x, fb[1..])
  }

  function AbbreviationSubset(ents: map<Id, Ent>, a: Id, b: Id): Option<Id>
    requires a in ents && b in ents
  {
    if ents[a].names.kind != ents[b].names.kind || ents[a].names.kind != Person then None
    else
      match AbbreviatedSide(ents[a].names.forms, ents[b].names.forms)
      case None => None
      case Some(Left) => Some(a)
      case Some(Right) => Some(b)
  }

  /** The strict total order a fuzzy merge follows: more aliases, then the longer name, then the
      smaller id wins. */
  predicate Beats(ents: map<Id, Ent>, x: Id, y: Id)
    requires x in ents && y in ents
  {
    var ex, ey := ents[x], ents[y];
    || ex.aliasCount > ey.aliasCount
    || (ex.aliasCount == ey.aliasCount && ex.nameLength > ey.nameLength)
    || (ex.aliasCount == ey.aliasCount && ex.nameLength == ey.nameLength && x < y)
  }

  /** _pick_winner, by its own key comparison: each key ends in the other side's id. */
  function PickWinner(ents: map<Id, Ent>, a: Id, b: Id): Id
    requires a in ents && b in ents
  {
    var ea, eb := ents[a], ents[b];
    if ea.aliasCount != eb.aliasCount then (if ea.aliasCount > eb.aliasCount then a else b)
    else if ea.nameLength != eb.nameLength then (if ea.nameLength > eb.nameLength then a else b)
    else if b >= a then a else b
  }

  function ScoreOf(ents: map<Id, Ent>, scorer: Scorer, p: Pair): real
    requires p.lo in ents && p.hi in ents
  {
    scorer.score(ents[p.lo].names, ents[p.hi].names)
  }

  function Propose(ents: map<Id, Ent>, scorer: Scorer, p: Pair): Proposal
    requires p.lo in ents && p.hi in ents
  {
    var subset := AbbreviationSubset(ents, p.lo, p.hi);
    var winner := if subset.Some? then (if subset.value == p.lo then p.hi else p.lo) else PickWinner(ents, p.lo, p.hi);
    Proposal(if winner == p.lo then p.hi else p.lo, winner, ScoreOf(ents, scorer, p), subset)
  }

  predicate Identical(ents: map<Id, Ent>, p: Pair)
    requires p.lo in ents && p.hi in ents
  {
    var a, b := ents[p.lo].names, ents[p.hi].names;
    a.kind == Person && b.kind == Person && SharesForm(a, b)
  }

  // ----- the first pass -----

  function Proposals(ents: map<Id, Ent>, scorer: Scorer, cands: seq<Pair>): seq<Proposal>
    requires forall i :: 0 <= i < |cands| ==> cands[i].lo in ents && cands[i].hi in ents
  {
    if cands == [] then []
    else
      var n := |cands| - 1;
      Proposals(ents, scorer, cands[..n])
      + if ScoreOf(ents, scorer, cands[n]) >= scorer.autoMerge then [Propose(ents, scorer, cands[n])] else []
  }

  function FirstQueue(ents: map<Id, Ent>, scorer: Scorer, cands: seq<Pair>): seq<Queued>
    requires forall i :: 0 <= i < |cands| ==> cands[i].lo in ents && cands[i].hi in ents
  {
    if cands == [] then []
    else
      var n := |cands| - 1;
      var score := ScoreOf(ents, scorer, cands[n]);
      FirstQueue(ents, scorer, cands[..n])
      + if score < scorer.autoMerge && (score >= scorer.queueFloor || Identical(ents, cands[n]))
        then [Queued(cands[n].lo, cands[n].hi, score)] else []
  }

  // ----- the gates -----

  predicate Edge(m: Proposal, x: Id, y: Id) {
    (m.loser == x && m.winner == y) || (m.loser == y && m.winner == x)
  }

  predicate Joins(ms: seq<Proposal>, x: Id, y: Id) {
    exists i :: 0 <= i < |ms| && Edge(ms[i], x, y)
  }

  /** Two merge partners of `e` that do not merge with each other. */
  ghost predicate Contested(ms: seq<Proposal>, e: Id) {
    exists x, y :: x != y && Joins(ms, e, x) && Joins(ms, e, y) && !Joins(ms, x, y)
  }

  /** An abbreviation with two different winners. */
  ghost predicate Ambiguous(ms: seq<Proposal>, e: Id) {
    exists i, j :: 0 <= i < |ms| && 0 <= j < |ms| && ms[i].subset == Some(e) && ms[j].subset == Some(e)
                   && ms[i].winner != ms[j].winner
  }

  ghost predicate Demoted(ms: seq<Proposal>, gate: bool, m: Proposal) {
    || (m.subset.Some? && Ambiguous(ms, m.subset.value))
    || (gate && (Contested(ms, m.loser) || Contested(ms, m.winner)))
  }

  /** The merges the plan keeps, out of the list `ms` seen from the prefix `part`. */
  ghost function Kept(ms: seq<Proposal>, gate: bool, part: seq<Proposal>): seq<Proposal> {
    if part == [] then []
    else
      var n := |part| - 1;
      Kept(ms, gate, part[..n]) + if Demoted(ms, gate, part[n]) then [] else [part[n]]
  }

  ghost function DemotedQueue(ms: seq<Proposal>, gate: bool, part: seq<Proposal>): seq<Queued> {
    if part == [] then []
    else
      var n := |part| - 1;
      var p := PairOf(part[n].loser, part[n].winner);
      DemotedQueue(ms, gate, part[..n]) + if Demoted(ms, gate, part[n]) then [Queued(p.lo, p.hi, part[n].score)] else []
  }

  /** The merges of the plan. */
  ghost function SafeMerges(ents: map<Id, Ent>, scorer: Scorer, cands: seq<Pair>): seq<Proposal>
    requires Candidates(ents, cands)
  {
    var ms := Proposals(ents, scorer, cands);
    Kept(ms, scorer.gate, ms)
  }

  // ----- the loops -----

  function Neighbours(partners: map<Id, set<Id>>, e: Id): set<Id> {
    if e in partners then partners[e] else {}
  }

  function Link(partners: map<Id, set<Id>>, a: Id, b: Id): map<Id, set<Id>> {
    partners[a := Neighbours(partners, a) + {b}]
  }

  lemma LinkAdds(partners: map<Id, set<Id>>, a: Id, b: Id)
    ensures forall e: Id, x: Id :: x in Neighbours(Link(partners, a, b), e) <==>
              x in Neighbours(partners, e) || (e == a && x == b)
  {
  }

  /** _contested_entities: collect each entity's merge partners, then look for a missing edge. */
  method ContestedEntities(ms: seq<Proposal>) returns (contested: set<Id>)
    ensures forall e :: e in contested <==> Contested(ms, e)
  {
    var partners: map<Id, set<Id>> := map[];
    for i := 0 to |ms|
      invariant forall e: Id, x: Id :: x in Neighbours(partners, e) <==> JoinsWithin(ms, i, e, x)
    {
      forall e: Id, x: Id
        ensures JoinsWithin(ms, i + 1, e, x) <==> JoinsWithin(ms, i, e, x) || Edge(ms[i], e, x)
      {
        JoinsStep(ms, i, e, x);
      }
      var l, w := ms[i].loser, ms[i].winner;
      LinkAdds(partners, l, w);
      LinkAdds(Link(partners, l, w), w, l);
      partners := Link(Link(partners, l, w), w, l);
    }
    assert forall e: Id, x: Id :: JoinsWithin(ms, |ms|, e, x) <==> Joins(ms, e, x);
    contested := set e | e in partners
                         && exists x :: x in partners[e] && exists y :: y in partners[e] && x != y && !Joins(ms, x, y);
    forall e | Contested(ms, e)
      ensures e in contested
    {
      var x, y :| x != y && Joins(ms, e, x) && Joins(ms, e, y) && !Joins(ms, x, y);
      assert x in Neighbours(partners, e) && y in Neighbours(partners, e);
    }
    forall e | e in contested
      ensures Contested(ms, e)
    {
      var x :| x in partners[e] && exists y :: y in partners[e] && x != y && !Joins(ms, x, y);
      var y :| y in partners[e] && x != y && !Joins(ms, x, y);
      assert x in Neighbours(partners, e) && y in Neighbours(partners, e);
    }
  }

  ghost predicate JoinsWithin(ms: seq<Proposal>, n: nat, x: Id, y: Id)
    requires n <= |ms|
  {
    exists k :: 0 <= k < n && Edge(ms[k], x, y)
  }

  lemma JoinsStep(ms: seq<Proposal>, i: nat, x: Id, y: Id)
    requires i < |ms|
    ensures JoinsWithin(ms, i + 1, x, y) <==> JoinsWithin(ms, i, x, y) || Edge(ms[i], x, y)
  {
  }

  /** One of the first `n` proposals has `w` consume the abbreviation `e`. */
  ghost predicate Claims(ms: seq<Proposal>, n: nat, e: Id, w: Id)
    requires n <= |ms|
  {
    exists k :: 0 <= k < n && ms[k].subset == Some(e) && ms[k].winner == w
  }

  lemma ClaimsStep(ms: seq<Proposal>, i: nat, e: Id, w: Id)
    requires i < |ms|
    ensures Claims(ms, i + 1, e, w) <==> Claims(ms, i, e, w) || (ms[i].subset == Some(e) && ms[i].winner == w)
  {
  }

  /** The abbreviations claimed by more than one winner. */
  method AmbiguousSubsets(ms: seq<Proposal>) returns (ambiguous: set<Id>)
    ensures forall e :: e in ambiguous <==> Ambiguous(ms, e)
  {
    var winners: map<Id, set<Id>> := map[];
    for i := 0 to |ms|
      invariant forall e: Id, w: Id :: w in Neighbours(winners, e) <==> Claims(ms, i, e, w)
    {
      forall e: Id, w: Id
        ensures Claims(ms, i + 1, e, w) <==> Claims(ms, i, e, w) || (ms[i].subset == Some(e) && ms[i].winner == w)
      {
        ClaimsStep(ms, i, e, w);
      }
      if ms[i].subset.Some? {
        LinkAdds(winners, ms[i].subset.value, ms[i].winner);
        winners := Link(winners, ms[i].subset.value, ms[i].winner);
      }
    }
    ambiguous := set e | e in winners && exists v :: v in winners[e] && exists w :: w in winners[e] && v != w;
    forall e | Ambiguous(ms, e)
      ensures e in ambiguous
    {
      var i, j :| 0 <= i < |ms| && 0 <= j < |ms| && ms[i].subset == Some(e) && ms[j].subset == Some(e)
                  && ms[i].winner != ms[j].winner;
      assert Claims(ms, |ms|, e, ms[i].winner) && Claims(ms, |ms|, e, ms[j].winner);
      assert ms[i].winner in Neighbours(winners, e) && ms[j].winner in Neighbours(winners, e);
    }
    forall e | e in ambiguous
      ensures Ambiguous(ms, e)
    {
      var v :| v in winners[e] && exists w :: w in winners[e] && v != w;
      var w :| w in winners[e] && v != w;
      assert v in Neighbours(winners, e) && w in Neighbours(winners, e);
    }
  }

  /** The last loop of the plan: a merge touching an ambiguous name or a contested entity waits. */
  method Demote(ms: seq<Proposal>, gate: bool, ambiguous: set<Id>, contested: set<Id>, first: seq<Queued>)
    returns (merges: seq<Proposal>, waiting: seq<Queued>)
    requires forall m :: m in ms ==> m.loser != m.winner
    requires forall e :: e in ambiguous <==> Ambiguous(ms, e)
    requires forall e :: e in contested <==> gate && Contested(ms, e)
    ensures merges == Kept(ms, gate, ms) && waiting == first + DemotedQueue(ms, gate, ms)
  {
    merges, waiting := [], first;
    for i := 0 to |ms|
      invariant merges == Kept(ms, gate, ms[..i]) && waiting == first + DemotedQueue(ms, gate, ms[..i])
    {
      var m := ms[i];
      assert ms[..i + 1][..i] == ms[..i];
      if (m.subset.Some? && m.subset.value in ambiguous) || m.loser in contested || m.winner in contested {
        assert Demoted(ms, gate, m);
        var p := PairOf(m.loser, m.winner);
        waiting := waiting + [Queued(p.lo, p.hi, m.score)];
      } else {
        assert !Demoted(ms, gate, m);
        merges := merges + [m];
      }
    }
    assert ms[..|ms|] == ms;
  }

  /** plan_dedup over one listing of the candidate pairs. */
  method PlanDedup(ents: map<Id, Ent>, scorer: Scorer, cands: seq<Pair>)
    returns (merges: seq<Proposal>, queue: seq<Queued>)
    requires Candidates(ents, cands)
    ensures merges == SafeMerges(ents, scorer, cands)
    ensures var ms := Proposals(ents, scorer, cands);
            var all := FirstQueue(ents, scorer, cands) + DemotedQueue(ms, scorer.gate, ms);
            queue == Chosen(Sort(all), Greedy(Sort(all)))
  {
    var ms, waiting := Scan(ents, scorer, cands);
    var ambiguous := AmbiguousSubsets(ms);
    var contested: set<Id> := {};
    if scorer.gate { contested := ContestedEntities(ms); }
    ProposalsAreOriented(ents, scorer, cands);
    merges, waiting := Demote(ms, scorer.gate, ambiguous, contested, waiting);
    assert forall q :: q in waiting ==> q.a != q.b by {
      DemotedAreProper(ms, scorer.gate, ms);
      FirstAreProper(ents, scorer, cands);
    }
    queue := CapQueue(waiting);
  }

  method Scan(ents: map<Id, Ent>, scorer: Scorer, cands: seq<Pair>) returns (ms: seq<Proposal>, queue: seq<Queued>)
    requires Candidates(ents, cands)
    ensures ms == Proposals(ents, scorer, cands) && queue == FirstQueue(ents, scorer, cands)
  {
    ms, queue := [], [];
    for i := 0 to |cands|
      invariant ms == Proposals(ents, scorer, cands[..i]) && queue == FirstQueue(ents, scorer, cands[..i])
    {
      assert cands[..i + 1][..i] == cands[..i];
      var p := cands[i];
      var score := scorer.score(ents[p.lo].names, ents[p.hi].names);
      if score >= scorer.autoMerge {
        ms := ms + [Propose(ents, scorer, p)];
      } else if score >= scorer.queueFloor || Identical(ents, p) {
        queue := queue + [Queued(p.lo, p.hi, score)];
      }
    }
    assert cands[..|cands|] == cands;
  }

  lemma {:induction false} FirstAreProper(ents: map<Id, Ent>, scorer: Scorer, cands: seq<Pair>)
    requires Candidates(ents, cands)
    ensures forall q :: q in FirstQueue(ents, scorer, cands) ==> q.a != q.b
  {
    if cands == [] {
    } else {
      FirstAreProper(ents, scorer, cands[..|cands| - 1]);
    }
  }

  lemma {:induction false} DemotedAreProper(ms: seq<Proposal>, gate: bool, part: seq<Proposal>)
    requires forall m :: m in part ==> m.loser != m.winner
    ensures forall q :: q in DemotedQueue(ms, gate, part) ==> q.a != q.b
  {
    if part == [] {
    } else {
      DemotedAreProper(ms, gate, part[..|part| - 1]);
    }
  }

  // ----- what the plan looks like -----

  /** Every proposal comes from a candidate pair that reached the bar, and every such pair is there. */
  lemma {:induction false} ProposalsAreOriented(ents: map<Id, Ent>, scorer: Scorer, cands: seq<Pair>)
    requires Candidates(ents, cands)
    ensures forall m :: m in Proposals(ents, scorer, cands) ==>
              && m.loser != m.winner && PairOf(m.loser, m.winner) in cands
              && m.loser in ents && m.winner in ents && ents[m.loser].names.kind == ents[m.winner].names.kind
              && m.score >= scorer.autoMerge
              && m == Propose(ents, scorer, PairOf(m.loser, m.winner))
  {
    if cands == [] {
    } else {
      var n := |cands| - 1;
      ProposalsAreOriented(ents, scorer, cands[..n]);
      assert cands[n] in cands;
    }
  }

  lemma {:induction false} KeptAre(ms: seq<Proposal>, gate: bool, part: seq<Proposal>, m: Proposal)
    ensures m in Kept(ms, gate, part) <==> m in part && !Demoted(ms, gate, m)
  {
    if part == [] {
    } else {
      var n := |part| - 1;
      KeptAre(ms, gate, part[..n], m);
      assert part == part[..n] + [part[n]];
    }
  }

  lemma BeatsIsStrictTotalOrder(ents: map<Id, Ent>, x: Id, y: Id, z: Id)
    requires x in ents && y in ents && z in ents
    ensures !Beats(ents, x, x)
    ensures x != y ==> (Beats(ents, x, y) <==> !Beats(ents, y, x))
    ensures Beats(ents, x, y) && Beats(ents, y, z) ==> Beats(ents, x, z)
    ensures x != y ==> Beats(ents, PickWinner(ents, x, y), if PickWinner(ents, x, y) == x then y else x)
    ensures PickWinner(ents, x, y) == PickWinner(ents, y, x)
  {
  }

  /** Who wins a fuzzy merge: the side with more aliases; among equals the longer name; then the smaller id. */
  lemma WinnerIff(ents: map<Id, Ent>, x: Id, y: Id)
    requires x in ents && y in ents && x != y
    ensures ents[x].aliasCount > ents[y].aliasCount ==> PickWinner(ents, x, y) == x
    ensures ents[x].aliasCount == ents[y].aliasCount && ents[x].nameLength > ents[y].nameLength ==>
              PickWinner(ents, x, y) == x
    ensures ents[x].aliasCount == ents[y].aliasCount && ents[x].nameLength == ents[y].nameLength && x < y ==>
              PickWinner(ents, x, y) == x
    ensures Beats(ents, x, y) <==> PickWinner(ents, x, y) == x
    ensures Beats(ents, y, x) <==> PickWinner(ents, x, y) == y
  {
  }

  /** The scorer never lets an abbreviation reach its merge bar. */
  ghost predicate KeepsAbbreviationsLow(ents: map<Id, Ent>, scorer: Scorer) {
    forall a, b :: a in ents && b in ents && scorer.score(ents[a].names, ents[b].names) >= scorer.autoMerge ==>
      AbbreviationSubset(ents, a, b).None?
  }

  /** Main result, first half: with the gate on, surviving merges are closed under sharing a partner,
      so they form disjoint cliques. */
  lemma SurvivorsFormCliques(ents: map<Id, Ent>, scorer: Scorer, cands: seq<Pair>, x: Id, y: Id, z: Id)
    requires Candidates(ents, cands) && scorer.gate && KeepsAbbreviationsLow(ents, scorer)
    requires x != z && Joins(SafeMerges(ents, scorer, cands), x, y) && Joins(SafeMerges(ents, scorer, cands), y, z)
    ensures Joins(SafeMerges(ents, scorer, cands), x, z)
  {
    var ms := Proposals(ents, scorer, cands);
    JoinsKept(ents, scorer, cands, x, y);
    JoinsKept(ents, scorer, cands, y, z);
    assert !Contested(ms, y);
    assert Joins(ms, y, x) && Joins(ms, y, z);
    JoinsKept(ents, scorer, cands, x, z);
  }

  /** A pair survives exactly when it was proposed and neither side is contested. */
  lemma JoinsKept(ents: map<Id, Ent>, scorer: Scorer, cands: seq<Pair>, x: Id, y: Id)
    requires Candidates(ents, cands) && scorer.gate && KeepsAbbreviationsLow(ents, scorer)
    ensures var ms := Proposals(ents, scorer, cands);
            Joins(SafeMerges(ents, scorer, cands), x, y) <==> Joins(ms, x, y) && !Contested(ms, x) && !Contested(ms, y)
  {
    var ms := Proposals(ents, scorer, cands);
    var kept := SafeMerges(ents, scorer, cands);
    ProposalsAreOriented(ents, scorer, cands);
    if i :| 0 <= i < |kept| && Edge(kept[i], x, y) {
      KeptAre(ms, true, ms, kept[i]);
      var k :| 0 <= k < |ms| && ms[k] == kept[i];
      assert Joins(ms, x, y);
    }
    if Joins(ms, x, y) && !Contested(ms, x) && !Contested(ms, y) {
      var i :| 0 <= i < |ms| && Edge(ms[i], x, y);
      assert ms[i] in ms;
      assert ms[i].subset.None?;
      KeptAre(ms, true, ms, ms[i]);
      var k :| 0 <= k < |kept| && kept[k] == ms[i];
      assert Joins(kept, x, y);
    }
  }

  /** Main result, second half: each surviving merge points up the strict total order, between known
      entities of one kind. */
  lemma SurvivorsPointUp(ents: map<Id, Ent>, scorer: Scorer, cands: seq<Pair>, m: Proposal)
    requires Candidates(ents, cands) && KeepsAbbreviationsLow(ents, scorer)
    requires m in SafeMerges(ents, scorer, cands)
    ensures m.loser in ents && m.winner in ents && ents[m.loser].names.kind == ents[m.winner].names.kind
    ensures Beats(ents, m.winner, m.loser)
  {
    var ms := Proposals(ents, scorer, cands);
    KeptAre(ms, scorer.gate, ms, m);
    ProposalsAreOriented(ents, scorer, cands);
    var p := PairOf(m.loser, m.winner);
    assert AbbreviationSubset(ents, p.lo, p.hi).None?;
    BeatsIsStrictTotalOrder(ents, p.lo, p.hi, p.lo);
  }

  // ----- the plan from outside -----

  lemma {:induction false} ReachingIsProposed(ents: map<Id, Ent>, scorer: Scorer, cands: seq<Pair>, p: Pair)
    requires Candidates(ents, cands) && p in cands && ScoreOf(ents, scorer, p) >= scorer.autoMerge
    ensures Propose(ents, scorer, p) in Proposals(ents, scorer, cands)
  {
    var n := |cands| - 1;
    if p == cands[n] {
    } else {
      assert cands == cands[..n] + [cands[n]];
      ReachingIsProposed(ents, scorer, cands[..n], p);
    }
  }

  ghost predicate Proposed(ms: seq<Proposal>, l: Id, w: Id) {
    exists m :: m in ms && m.loser == l && m.winner == w
  }

  /** `l` is proposed to lose to `w` exactly when they are a candidate pair at the bar and `w` beats `l`. */
  lemma ProposedIff(ents: map<Id, Ent>, scorer: Scorer, cands: seq<Pair>, l: Id, w: Id)
    requires Candidates(ents, cands) && KeepsAbbreviationsLow(ents, scorer) && l in ents && w in ents
    ensures Proposed(Proposals(ents, scorer, cands), l, w) <==>
            PairOf(l, w) in cands && ScoreOf(ents, scorer, PairOf(l, w)) >= scorer.autoMerge && Beats(ents, w, l)
  {
    var ms := Proposals(ents, scorer, cands);
    var p := PairOf(l, w);
    BeatsIsStrictTotalOrder(ents, l, w, l);
    if m :| m in ms && m.loser == l && m.winner == w {
      ProposalsAreOriented(ents, scorer, cands);
      assert AbbreviationSubset(ents, p.lo, p.hi).None?;
      BeatsIsStrictTotalOrder(ents, p.lo, p.hi, p.lo);
    }
    if p in cands && ScoreOf(ents, scorer, p) >= scorer.autoMerge && Beats(ents, w, l) {
      ReachingIsProposed(ents, scorer, cands, p);
      BeatsIsStrictTotalOrder(ents, p.lo, p.hi, p.lo);
      assert Propose(ents, scorer, p).loser == l && Propose(ents, scorer, p).winner == w;
    }
  }

  lemma {:induction false} NoneDemoted(ms: seq<Proposal>, part: seq<Proposal>)
    requires (forall m :: m in part ==> m in ms) && forall m :: m in ms ==> m.subset.None?
    ensures Kept(ms, false, part) == part
  {
    if part == [] {
    } else {
      var n := |part| - 1;
      NoneDemoted(ms, part[..n]);
      assert part[n] in part && part == part[..n] + [part[n]];
    }
  }

  /** Without the gate, and with abbreviations below the bar, the plan is everything proposed. */
  lemma UngatedPlanIsAll(ents: map<Id, Ent>, scorer: Scorer, cands: seq<Pair>)
    requires Candidates(ents, cands) && !scorer.gate && KeepsAbbreviationsLow(ents, scorer)
    ensures SafeMerges(ents, scorer, cands) == Proposals(ents, scorer, cands)
  {
    ProposalsAreOriented(ents, scorer, cands);
    NoneDemoted(Proposals(ents, scorer, cands), Proposals(ents, scorer, cands));
  }
}
