/** Runs of the dedup command that end badly: a batch whose result depends on how a set is walked, and a
    batch that unites a pair a human kept apart. */
module BatchRuns {
  import opened Basics
  import opened Identity
  import opened IdentityRuns
  import opened Scoring
  import opened ScoringAgrees
  import opened DedupPlan
  import opened DedupApply
  import opened ListOrder
  import opened PlanListings
  import opened HeldPairs

  // ----- a plan with a choice -----

  /** Three organisations: 0 bears a name of 1 and a name of 2, which share none. */
  function Bridged(): map<Id, Ent> {
    map[0 := Ent(Names(Org, {"acme", "apex"}, [["acme"], ["apex"]]), 1, 4),
        1 := Ent(Names(Org, {"acme", "bolt"}, [["bolt"], ["acme"]]), 2, 4),
        2 := Ent(Names(Org, {"apex", "crux"}, [["crux"], ["apex"]]), 2, 4)]
  }

  /** The scores and the order of the three, and no more. */
  ghost predicate Bridges(ents: map<Id, Ent>, scorer: Scorer, cands: seq<Pair>) {
    && ents.Keys == {0, 1, 2} && Candidates(ents, cands) && Pair(0, 1) in cands && Pair(0, 2) in cands
    && ScoreOf(ents, scorer, Pair(0, 1)) >= scorer.autoMerge && ScoreOf(ents, scorer, Pair(0, 2)) >= scorer.autoMerge
    && ScoreOf(ents, scorer, Pair(1, 2)) < scorer.autoMerge
    && Beats(ents, 1, 0) && Beats(ents, 2, 0)
  }

  lemma BridgedBridges(cands: seq<Pair>)
    requires Candidates(Bridged(), cands) && Pair(0, 1) in cands && Pair(0, 2) in cands
    ensures Bridges(Bridged(), DefaultScorer(), cands)
  {
    var e := Bridged();
    assert "acme" in (e[0].names.light - {""}) * (e[1].names.light - {""});
    assert "apex" in (e[0].names.light - {""}) * (e[2].names.light - {""});
    assert "acme"[0] == 'a' && "acme"[1] == 'c' && "apex"[0] == 'a' && "apex"[1] == 'p' && "bolt"[0] == 'b'
        && "crux"[0] == 'c';
    assert (e[1].names.light - {""}) * (e[2].names.light - {""}) == {};
    assert ["acme"][0] == "acme" && ["apex"][0] == "apex" && ["bolt"][0] == "bolt" && ["crux"][0] == "crux";
    assert !SharesForm(e[1].names, e[2].names);
  }

  /** The plan merges 0 into 1 and into 2, and 1 and 2 not at all. */
  lemma BridgedPlan(ents: map<Id, Ent>, scorer: Scorer, cands: seq<Pair>)
    requires Bridges(ents, scorer, cands) && !scorer.gate && KeepsAbbreviationsLow(ents, scorer)
    ensures forall a :: a in Arrows(SafeMerges(ents, scorer, cands)) <==> a == Arrow(0, 1) || a == Arrow(0, 2)
  {
    forall a
      ensures a in Arrows(SafeMerges(ents, scorer, cands)) <==> a == Arrow(0, 1) || a == Arrow(0, 2)
    {
      UngatedArrowIff(ents, scorer, cands, a);
    }
  }

  lemma BridgedBothWays(base: map<Id, Option<Id>>, s: State, ents: map<Id, Ent>, ms: seq<Arrow>)
    returns (p: seq<Arrow>, s1: State, q: seq<Arrow>, s2: State)
    requires Inv(base, s) && Loaded(s, ents) && ents.Keys == {0, 1, 2} && Uphill(ents, ms)
    requires forall a :: a in ms <==> a == Arrow(0, 1) || a == Arrow(0, 2)
    ensures !OrderFree(ms) && Permutes(ms, p) && Applied(s, p, s1) && Permutes(ms, q) && Applied(s, q, s2)
    ensures 0 in s1.ents && Survivor(s1, 0) == 1 && 0 in s2.ents && Survivor(s2, 0) == 2
  {
    assert Arrow(0, 1) in ms && Arrow(0, 2) in ms && !HasTop(ms, 0);
    assert !HasTop(ms, 1) && !HasTop(ms, 2);
    assert Torn(ents, ms, 0);
    p, s1 := StartedWith(base, s, ents, ms, 0, 1);
    q, s2 := StartedWith(base, s, ents, ms, 0, 2);
  }

  /** With nothing held back, the command applies the whole plan. */
  lemma {:induction false} NothingSifted(merges: seq<Proposal>)
    ensures Sift(merges, {}, false) == merges
  {
    if merges == [] {
    } else {
      NothingSifted(merges[..|merges| - 1]);
      assert merges == merges[..|merges| - 1] + [merges[|merges| - 1]];
    }
  }

  /** With these three, over any candidate pairs that hold the two that match, the default scorer's batch may
      leave 0 with 1 and may leave it with 2. */
  lemma TwoWinners(base: map<Id, Option<Id>>, s: State, cands: seq<Pair>) returns (s1: State, s2: State)
    requires Inv(base, s) && Loaded(s, Bridged()) && s.cand == map[]
    requires Candidates(Bridged(), cands) && Pair(0, 1) in cands && Pair(0, 2) in cands
    ensures BatchEnds(s, Bridged(), DefaultScorer(), cands, s1) && 0 in s1.ents && Survivor(s1, 0) == 1
    ensures BatchEnds(s, Bridged(), DefaultScorer(), cands, s2) && 0 in s2.ents && Survivor(s2, 0) == 2
  {
    var ents, scorer := Bridged(), DefaultScorer();
    BridgedBridges(cands);
    DefaultKeepsAbbreviationsLow(ents);
    BridgedPlan(ents, scorer, cands);
    PlanIsUphill(ents, scorer, cands);
    NothingSifted(SafeMerges(ents, scorer, cands));
    assert HeldKeys(s) == {};
    var p, q;
    p, s1, q, s2 := BridgedBothWays(base, s, ents, Allowed(s, ents, scorer, cands));
    BatchRunsAnyOrder(s, ents, scorer, cands, p, s1);
    BatchRunsAnyOrder(s, ents, scorer, cands, q, s2);
  }

  // ----- a verdict the batch overrules -----

  /** Both scorers merge two organisations that share a name. */
  lemma CommandMergesShared(scorer: Scorer, a: Names, b: Names, shared: string)
    requires CommandScorer(scorer) && a.kind == b.kind == Org && a.forms != [] && b.forms != []
    requires shared != "" && shared in a.light && shared in b.light
    ensures scorer.score(a, b) >= scorer.autoMerge
  {
    assert shared in (a.light - {""}) * (b.light - {""});
    assert MatchScore(a, b) == 1.0;
    if scorer != DefaultScorer() {
      var exp2 :| IsExp2(exp2) && scorer == FsScorer(exp2);
      SameAutoMerges(exp2, a, b);
    }
  }

  lemma JoinsIsProposed(ms: seq<Proposal>, x: Id, y: Id)
    ensures Joins(ms, x, y) <==> Proposed(ms, x, y) || Proposed(ms, y, x)
  {
    if m :| m in ms && Edge(m, x, y) {
      var i :| 0 <= i < |ms| && ms[i] == m;
      assert Joins(ms, x, y);
    }
    if i :| 0 <= i < |ms| && Edge(ms[i], x, y) {
      assert ms[i] in ms;
    }
  }

  /** Three organisations of one name, 2 above 1 above 0. */
  function Namesakes(): map<Id, Ent> {
    map[0 := Ent(Names(Org, {"acme"}, [["acme"]]), 0, 4),
        1 := Ent(Names(Org, {"acme"}, [["acme"]]), 1, 4),
        2 := Ent(Names(Org, {"acme"}, [["acme"]]), 2, 4)]
  }

  /** All that is used of them. */
  ghost predicate AllMatch(ents: map<Id, Ent>, scorer: Scorer, cands: seq<Pair>) {
    && ents.Keys == {0, 1, 2} && Candidates(ents, cands)
    && Pair(0, 1) in cands && Pair(0, 2) in cands && Pair(1, 2) in cands
    && (forall p :: p in cands ==> p.lo in ents && p.hi in ents && ScoreOf(ents, scorer, p) >= scorer.autoMerge)
    && Beats(ents, 1, 0) && Beats(ents, 2, 0) && Beats(ents, 2, 1)
  }

  lemma NamesakesMatch(scorer: Scorer, cands: seq<Pair>)
    requires CommandScorer(scorer) && Candidates(Namesakes(), cands)
    requires Pair(0, 1) in cands && Pair(0, 2) in cands && Pair(1, 2) in cands
    ensures AllMatch(Namesakes(), scorer, cands)
  {
    var ents := Namesakes();
    forall p | p in cands
      ensures p.lo in ents && p.hi in ents && ScoreOf(ents, scorer, p) >= scorer.autoMerge
    {
      var i :| 0 <= i < |cands| && cands[i] == p;
      CommandMergesShared(scorer, ents[p.lo].names, ents[p.hi].names, "acme");
    }
  }

  /** The gate has nothing to object to: the plan merges each pair of the three. */
  lemma NamesakesPlan(ents: map<Id, Ent>, scorer: Scorer, cands: seq<Pair>, l: Id, w: Id)
    requires AllMatch(ents, scorer, cands) && KeepsAbbreviationsLow(ents, scorer)
    ensures Proposed(SafeMerges(ents, scorer, cands), l, w) <==> (l == 0 && w in {1, 2}) || (l == 1 && w == 2)
  {
    var ms := Proposals(ents, scorer, cands);
    forall a: Id, b: Id
      ensures Proposed(ms, a, b) <==> (a == 0 && b in {1, 2}) || (a == 1 && b == 2)
    {
      NamesakesProposed(ents, scorer, cands, a, b);
    }
    ProposalsAreOriented(ents, scorer, cands);
    assert forall m :: m in ms ==> m.subset.None?;
    forall e: Id
      ensures !Contested(ms, e)
    {
      NamesakesUncontested(ms, e);
    }
    NoObjection(ms, scorer.gate, l, w);
  }

  lemma NoObjection(ms: seq<Proposal>, gate: bool, l: Id, w: Id)
    requires (forall m :: m in ms ==> m.subset.None?) && forall e: Id :: !Contested(ms, e)
    ensures Proposed(Kept(ms, gate, ms), l, w) <==> Proposed(ms, l, w)
  {
    forall m
      ensures m in Kept(ms, gate, ms) <==> m in ms
    {
      KeptAre(ms, gate, ms, m);
    }
  }

  lemma NamesakesProposed(ents: map<Id, Ent>, scorer: Scorer, cands: seq<Pair>, l: Id, w: Id)
    requires AllMatch(ents, scorer, cands) && KeepsAbbreviationsLow(ents, scorer)
    ensures Proposed(Proposals(ents, scorer, cands), l, w) <==> (l == 0 && w in {1, 2}) || (l == 1 && w == 2)
  {
    if l in ents && w in ents {
      ProposedIff(ents, scorer, cands, l, w);
      BeatsIsStrictTotalOrder(ents, l, w, l);
    } else {
      ProposalsAreOriented(ents, scorer, cands);
    }
  }

  lemma NamesakesUncontested(ms: seq<Proposal>, e: Id)
    requires forall l, w :: Proposed(ms, l, w) <==> (l == 0 && w in {1, 2}) || (l == 1 && w == 2)
    ensures !Contested(ms, e)
  {
    forall x: Id, y: Id
      ensures Joins(ms, x, y) <==> x != y && x <= 2 && y <= 2
    {
      JoinsIsProposed(ms, x, y);
    }
  }

  lemma VerdictHeld(s: State, ents: map<Id, Ent>)
    requires Loaded(s, ents) && 0 in ents && 1 in ents && s.cand == map[Pair(0, 1) := KeptSeparate]
    ensures HeldKeys(s) == {Pair(0, 1)}
  {
    assert PairOf(Survivor(s, 0), Survivor(s, 1)) in HeldKeys(s);
  }

  lemma NamesakesLeft(s: State, ents: map<Id, Ent>, scorer: Scorer, cands: seq<Pair>)
    requires AllMatch(ents, scorer, cands) && KeepsAbbreviationsLow(ents, scorer) && HeldKeys(s) == {Pair(0, 1)}
    ensures forall a :: a in Allowed(s, ents, scorer, cands) <==> a == Arrow(0, 2) || a == Arrow(1, 2)
  {
    forall a
      ensures a in Allowed(s, ents, scorer, cands) <==> a == Arrow(0, 2) || a == Arrow(1, 2)
    {
      AllowedAre(s, ents, scorer, cands, a);
      NamesakesPlan(ents, scorer, cands, a.loser, a.winner);
    }
  }

  lemma OneTop(left: seq<Arrow>)
    requires forall a :: a in left <==> a == Arrow(0, 2) || a == Arrow(1, 2)
    ensures OrderFree(left) && TopOf(left, 0) == 2 && TopOf(left, 1) == 2
  {
    assert Arrow(0, 2) in left && Arrow(1, 2) in left;
    assert IsTopOf(left, 0, 2) && IsTopOf(left, 1, 2);
    TopIsUnique(left, 0, TopOf(left, 0), 2);
    TopIsUnique(left, 1, TopOf(left, 1), 2);
  }

  /** A human kept 0 and 1 apart; whatever the walk, and with either scorer, the batch puts them in one class
      all the same. */
  lemma VerdictOverruled(base: map<Id, Option<Id>>, s: State, scorer: Scorer, cands: seq<Pair>)
    requires Inv(base, s) && Loaded(s, Namesakes()) && s.cand == map[Pair(0, 1) := KeptSeparate]
    requires CommandScorer(scorer)
    requires Candidates(Namesakes(), cands) && Pair(0, 1) in cands && Pair(0, 2) in cands && Pair(1, 2) in cands
    ensures HeldKeys(s) == {Pair(0, 1)} && exists s' :: BatchEnds(s, Namesakes(), scorer, cands, s')
    ensures forall s' :: BatchEnds(s, Namesakes(), scorer, cands, s') ==>
              0 in s'.ents && 1 in s'.ents && SameClass(s', 0, 1)
  {
    var ents := Namesakes();
    CommandKeepsAbbreviationsLow(ents, scorer);
    NamesakesMatch(scorer, cands);
    VerdictHeld(s, ents);
    NamesakesLeft(s, ents, scorer, cands);
    var left := Allowed(s, ents, scorer, cands);
    OneTop(left);
    var some := SomeRun(s, left);
    BatchRunsAnyOrder(s, ents, scorer, cands, left, some);
    forall s' | BatchEnds(s, ents, scorer, cands, s')
      ensures 0 in s'.ents && 1 in s'.ents && SameClass(s', 0, 1)
    {
      BatchTogetherIff(base, s, ents, scorer, cands, s', 0, 1);
    }
  }
}
