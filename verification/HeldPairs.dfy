/** Pairs a human has ruled on are held out of the batch. What is left can still bring such a pair
    together, through a third row: exactly when the merges that are left lead from both to one row. */
module HeldPairs {
  import opened Basics
  import opened Identity
  import opened IdentityRuns
  import opened DedupPlan
  import opened DedupApply
  import opened ListOrder
  import opened PlanListings
  import opened Unions

  /** The ruled-on pairs in terms of live rows. */
  function HeldKeys(s: State): set<Pair> {
    set p | p in s.cand && s.cand[p] in {KeptSeparate, Skipped} && p.lo in s.ents && p.hi in s.ents
            && Survivor(s, p.lo) != Survivor(s, p.hi)
          :: PairOf(Survivor(s, p.lo), Survivor(s, p.hi))
  }

  /** A human has ruled on the candidate row, one way or the other: the row is neither pending nor merged. */
  predicate RuledOn(s: State, p: Pair) {
    p in s.cand && s.cand[p] != Pending && s.cand[p] != Merged
  }

  /** The two ends of the pair survive in the two rows. */
  predicate EndsIn(s: State, p: Pair, x: Id, y: Id) {
    && p.lo in s.ents && p.hi in s.ents
    && ((Survivor(s, p.lo) == x && Survivor(s, p.hi) == y) || (Survivor(s, p.lo) == y && Survivor(s, p.hi) == x))
  }

  /** A verdict stands between two rows: it was given on a pair whose two ends survive in them. */
  ghost predicate VerdictBetween(s: State, x: Id, y: Id) {
    x != y && exists p: Pair :: RuledOn(s, p) && EndsIn(s, p, x, y)
  }

  /** The keys, from outside: exactly the pairs with a verdict between them. */
  lemma HeldKeysIff(s: State, x: Id, y: Id)
    ensures PairOf(x, y) in HeldKeys(s) <==> VerdictBetween(s, x, y)
  {
    if p: Pair :| RuledOn(s, p) && EndsIn(s, p, x, y) && x != y {
      assert s.cand[p] in {KeptSeparate, Skipped};
      assert PairOf(Survivor(s, p.lo), Survivor(s, p.hi)) == PairOf(x, y);
    }
    if PairOf(x, y) in HeldKeys(s) {
      var p :| p in s.cand && s.cand[p] in {KeptSeparate, Skipped} && p.lo in s.ents && p.hi in s.ents
               && Survivor(s, p.lo) != Survivor(s, p.hi)
               && PairOf(Survivor(s, p.lo), Survivor(s, p.hi)) == PairOf(x, y);
      assert RuledOn(s, p) && EndsIn(s, p, x, y);
    }
  }

  /** Where a row ends up when `l` is merged into `w`. */
  function Along(l: Id, w: Id, x: Id): Id {
    if x == l then w else x
  }

  /** A verdict follows the rows it was given on: merging `l` into `w` moves each verdict of `l` to `w`, unless
      that would put both its ends in one row, and makes no other. */
  lemma VerdictsFollowMerges(s: State, l: Id, w: Id, order: seq<Id>, x: Id, y: Id)
    requires Flat(s) && MergeCheck(s, l, w).None?
    ensures VerdictBetween(Merge(s, l, w, order), x, y) <==>
            x != y && exists a: Id, b: Id :: VerdictBetween(s, a, b) && Along(l, w, a) == x && Along(l, w, b) == y
  {
    var s' := Merge(s, l, w, order);
    forall p: Pair
      ensures RuledOn(s', p) <==> RuledOn(s, p)
    {
    }
    forall e | e in s.ents
      ensures Survivor(s', e) == Along(l, w, Survivor(s, e))
    {
      MergeUnitesTwoClasses(s, l, w, order, e, e);
    }
    if p: Pair :| RuledOn(s', p) && EndsIn(s', p, x, y) && x != y {
      assert EndsIn(s, p, Survivor(s, p.lo), Survivor(s, p.hi)) && EndsIn(s, p, Survivor(s, p.hi), Survivor(s, p.lo));
      assert VerdictBetween(s, Survivor(s, p.lo), Survivor(s, p.hi));
      assert VerdictBetween(s, Survivor(s, p.hi), Survivor(s, p.lo));
    }
    if a: Id, b: Id :| VerdictBetween(s, a, b) && Along(l, w, a) == x && Along(l, w, b) == y && x != y {
      var p: Pair :| RuledOn(s, p) && EndsIn(s, p, a, b);
      assert RuledOn(s', p) && EndsIn(s', p, x, y);
    }
  }

  /** The key that goes stale: a verdict on (0, 1), whether kept apart or skipped, and then merge(1,2), holds
      0 and 2 apart. */
  lemma StaleVerdictHolds(s: State, order: seq<Id>)
    requires Flat(s) && Live(s, 0) && MergeCheck(s, 1, 2).None?
    requires Pair(0, 1) in s.cand && (s.cand[Pair(0, 1)] == KeptSeparate || s.cand[Pair(0, 1)] == Skipped)
    ensures Pair(0, 2) in HeldKeys(Merge(s, 1, 2, order))
  {
    assert RuledOn(s, Pair(0, 1)) && EndsIn(s, Pair(0, 1), 0, 1);
    assert VerdictBetween(s, 0, 1);
    assert Along(1, 2, 0) == 0 && Along(1, 2, 1) == 2;
    VerdictsFollowMerges(s, 1, 2, order, 0, 2);
    HeldKeysIff(Merge(s, 1, 2, order), 0, 2);
    assert PairOf(0, 2) == Pair(0, 2);
  }

  lemma {:induction false} SiftMember(merges: seq<Proposal>, keys: set<Pair>, ruledOn: bool, m: Proposal)
    ensures m in Sift(merges, keys, ruledOn) <==> m in merges && (PairOf(m.loser, m.winner) in keys <==> ruledOn)
  {
    if merges == [] {
    } else {
      var n := |merges| - 1;
      SiftMember(merges[..n], keys, ruledOn, m);
      assert merges == merges[..n] + [merges[n]];
    }
  }

  lemma {:induction false} SiftsConserve(merges: seq<Proposal>, keys: set<Pair>)
    ensures multiset(Sift(merges, keys, false)) + multiset(Sift(merges, keys, true)) == multiset(merges)
  {
    if merges == [] {
    } else {
      var n := |merges| - 1;
      SiftsConserve(merges[..n], keys);
      assert merges == merges[..n] + [merges[n]];
    }
  }

  /** The two parts hold every merge exactly once, each on the side its pair belongs to. */
  lemma SiftsSplit(merges: seq<Proposal>, keys: set<Pair>, m: Proposal)
    ensures multiset(Sift(merges, keys, false)) + multiset(Sift(merges, keys, true)) == multiset(merges)
    ensures m in Sift(merges, keys, true) <==> m in merges && PairOf(m.loser, m.winner) in keys
    ensures m in Sift(merges, keys, false) <==> m in merges && PairOf(m.loser, m.winner) !in keys
  {
    SiftsConserve(merges, keys);
    SiftMember(merges, keys, true, m);
    SiftMember(merges, keys, false, m);
  }

  /** _drop_held_pairs */
  method DropHeldPairs(s: State, merges: seq<Proposal>) returns (allowed: seq<Proposal>, held: seq<Proposal>)
    ensures allowed == Sift(merges, HeldKeys(s), false) && held == Sift(merges, HeldKeys(s), true)
    ensures forall m :: m in allowed <==> m in merges && !VerdictBetween(s, m.loser, m.winner)
    ensures forall m :: m in held <==> m in merges && VerdictBetween(s, m.loser, m.winner)
  {
    allowed, held := [], [];
    var keys := HeldKeys(s);
    for i := 0 to |merges|
      invariant allowed == Sift(merges[..i], keys, false) && held == Sift(merges[..i], keys, true)
    {
      assert merges[..i + 1][..i] == merges[..i];
      if PairOf(merges[i].loser, merges[i].winner) in keys {
        held := held + [merges[i]];
      } else {
        allowed := allowed + [merges[i]];
      }
    }
    assert merges[..|merges|] == merges;
    forall m
      ensures (m in allowed <==> m in merges && !VerdictBetween(s, m.loser, m.winner))
              && (m in held <==> m in merges && VerdictBetween(s, m.loser, m.winner))
    {
      SiftsSplit(merges, keys, m);
      HeldKeysIff(s, m.loser, m.winner);
    }
  }

  // ----- the batch -----

  /** The merges the command applies: the plan without the pairs a human has ruled on. */
  ghost function Allowed(s: State, ents: map<Id, Ent>, scorer: Scorer, cands: seq<Pair>): seq<Arrow>
    requires Candidates(ents, cands)
  {
    Remaining(ents, scorer, cands, HeldKeys(s))
  }

  /** With these candidate pairs, walked over in some order, the command can leave the tables like this. */
  ghost predicate BatchEnds(s: State, ents: map<Id, Ent>, scorer: Scorer, cands: seq<Pair>, s': State) {
    exists walk :: Relists(ents, cands, walk) && Applied(s, Allowed(s, ents, scorer, walk), s')
  }

  ghost predicate BatchMayUnite(s: State, ents: map<Id, Ent>, scorer: Scorer, cands: seq<Pair>, x: Id, y: Id) {
    exists s' :: BatchEnds(s, ents, scorer, cands, s') && x in s'.ents && y in s'.ents && SameClass(s', x, y)
  }

  lemma BatchRunsAnOrder(s: State, ents: map<Id, Ent>, scorer: Scorer, cands: seq<Pair>, s': State)
    returns (p: seq<Arrow>)
    requires Candidates(ents, cands) && BatchEnds(s, ents, scorer, cands, s')
    ensures Permutes(Allowed(s, ents, scorer, cands), p) && Applied(s, p, s')
  {
    var walk :| Relists(ents, cands, walk) && Applied(s, Allowed(s, ents, scorer, walk), s');
    WalksPermute(ents, scorer, cands, walk, HeldKeys(s));
    p := Allowed(s, ents, scorer, walk);
  }

  lemma BatchRunsAnyOrder(s: State, ents: map<Id, Ent>, scorer: Scorer, cands: seq<Pair>, p: seq<Arrow>, s': State)
    requires Candidates(ents, cands) && Permutes(Allowed(s, ents, scorer, cands), p) && Applied(s, p, s')
    ensures BatchEnds(s, ents, scorer, cands, s')
  {
    var walk := EveryOrderIsAWalk(ents, scorer, cands, HeldKeys(s), p);
  }

  lemma AllowedAre(s: State, ents: map<Id, Ent>, scorer: Scorer, cands: seq<Pair>, a: Arrow)
    requires Candidates(ents, cands)
    ensures a in Allowed(s, ents, scorer, cands) <==>
            Proposed(SafeMerges(ents, scorer, cands), a.loser, a.winner) && PairOf(a.loser, a.winner) !in HeldKeys(s)
  {
    var plan := SafeMerges(ents, scorer, cands);
    forall m
      ensures m in Sift(plan, HeldKeys(s), false) <==> m in plan && PairOf(m.loser, m.winner) !in HeldKeys(s)
    {
      SiftMember(plan, HeldKeys(s), false, m);
    }
    ArrowsAreProposed(Sift(plan, HeldKeys(s), false), a);
  }

  lemma AllowedIsUphill(s: State, ents: map<Id, Ent>, scorer: Scorer, cands: seq<Pair>)
    requires Candidates(ents, cands) && KeepsAbbreviationsLow(ents, scorer)
    ensures Uphill(ents, Allowed(s, ents, scorer, cands))
  {
    var left := Allowed(s, ents, scorer, cands);
    forall i | 0 <= i < |left|
      ensures left[i].loser in ents && left[i].winner in ents && Beats(ents, left[i].winner, left[i].loser)
              && ents[left[i].loser].names.kind == ents[left[i].winner].names.kind
    {
      assert left[i] in left;
      AllowedAre(s, ents, scorer, cands, left[i]);
      var m :| m in SafeMerges(ents, scorer, cands) && m.loser == left[i].loser && m.winner == left[i].winner;
      SurvivorsPointUp(ents, scorer, cands, m);
    }
  }

  /** Main result: with either scorer, and whatever pairs have been ruled on, the batch can bring `x` and
      `y` together if and only if the merges that are left lead from both to one row. */
  lemma BatchMayUniteIff(base: map<Id, Option<Id>>, s: State, ents: map<Id, Ent>, scorer: Scorer, cands: seq<Pair>,
                         x: Id, y: Id)
    requires Inv(base, s) && Loaded(s, ents) && Candidates(ents, cands) && CommandScorer(scorer)
    requires x in ents && y in ents
    ensures BatchMayUnite(s, ents, scorer, cands, x, y) <==> MeetAbove(Allowed(s, ents, scorer, cands), x, y)
  {
    var left := Allowed(s, ents, scorer, cands);
    CommandKeepsAbbreviationsLow(ents, scorer);
    AllowedIsUphill(s, ents, scorer, cands);
    MayUniteIff(base, s, ents, left, x, y);
    if p, s' :| Unites(s, left, x, y, p, s') {
      BatchRunsAnyOrder(s, ents, scorer, cands, p, s');
    }
    if s' :| BatchEnds(s, ents, scorer, cands, s') && x in s'.ents && y in s'.ents && SameClass(s', x, y) {
      var p := BatchRunsAnOrder(s, ents, scorer, cands, s');
      assert Unites(s, left, x, y, p, s');
    }
  }

  // ----- one pair of a gated plan -----

  /** `x` loses to `y` by the plan, the pair is held back, and no other held pair of the plan has `x` or `y`. */
  ghost predicate HeldAlone(s: State, plan: seq<Proposal>, x: Id, y: Id) {
    && Proposed(plan, x, y) && PairOf(x, y) in HeldKeys(s)
    && forall m :: m in plan && PairOf(m.loser, m.winner) in HeldKeys(s) && (Has(m, x) || Has(m, y)) ==> Edge(m, x, y)
  }

  predicate Has(m: Proposal, e: Id) {
    m.loser == e || m.winner == e
  }

  lemma NotHeld(s: State, ents: map<Id, Ent>, scorer: Scorer, cands: seq<Pair>, x: Id, y: Id, l: Id, w: Id)
    requires Candidates(ents, cands) && HeldAlone(s, SafeMerges(ents, scorer, cands), x, y)
    requires Proposed(SafeMerges(ents, scorer, cands), l, w) && (l == x || l == y || w == x || w == y)
    requires !((l == x && w == y) || (l == y && w == x))
    ensures Arrow(l, w) in Allowed(s, ents, scorer, cands)
  {
    AllowedAre(s, ents, scorer, cands, Arrow(l, w));
  }

  lemma JoinedIsProposed(ents: map<Id, Ent>, scorer: Scorer, cands: seq<Pair>, l: Id, w: Id)
    requires Candidates(ents, cands) && KeepsAbbreviationsLow(ents, scorer)
    ensures var plan := SafeMerges(ents, scorer, cands);
            && (Joins(plan, l, w) <==> Proposed(plan, l, w) || Proposed(plan, w, l))
            && (Proposed(plan, l, w) ==> l in ents && w in ents && l != w && Beats(ents, w, l) && !Proposed(plan, w, l))
  {
    var plan := SafeMerges(ents, scorer, cands);
    forall m | m in plan
      ensures m.loser in ents && m.winner in ents && m.loser != m.winner
              && Beats(ents, m.winner, m.loser) && !Beats(ents, m.loser, m.winner)
    {
      SurvivorsPointUp(ents, scorer, cands, m);
      BeatsIsStrictTotalOrder(ents, m.winner, m.loser, m.winner);
    }
    if Joins(plan, l, w) {
      var i :| 0 <= i < |plan| && Edge(plan[i], l, w);
      assert plan[i] in plan;
    }
    if Proposed(plan, l, w) {
      var m :| m in plan && m.loser == l && m.winner == w;
      var i :| 0 <= i < |plan| && plan[i] == m;
      assert Edge(plan[i], l, w);
    }
    if Proposed(plan, w, l) {
      var m :| m in plan && m.loser == w && m.winner == l;
      var i :| 0 <= i < |plan| && plan[i] == m;
      assert Edge(plan[i], l, w);
    }
  }

  /** In a gated plan the partners of a row are each other's partners, the higher of them winning. */
  lemma PartnersArePartners(ents: map<Id, Ent>, scorer: Scorer, cands: seq<Pair>, x: Id, y: Id, z: Id)
    requires Candidates(ents, cands) && scorer.gate && KeepsAbbreviationsLow(ents, scorer)
    requires var plan := SafeMerges(ents, scorer, cands);
             (Proposed(plan, x, y) || Proposed(plan, y, x)) && (Proposed(plan, x, z) || Proposed(plan, z, x)) && y != z
    ensures var plan := SafeMerges(ents, scorer, cands); Proposed(plan, y, z) || Proposed(plan, z, y)
  {
    JoinedIsProposed(ents, scorer, cands, y, x);
    JoinedIsProposed(ents, scorer, cands, x, z);
    SurvivorsFormCliques(ents, scorer, cands, y, x, z);
    JoinedIsProposed(ents, scorer, cands, y, z);
  }

  lemma ThirdAbove(s: State, ents: map<Id, Ent>, scorer: Scorer, cands: seq<Pair>, x: Id, y: Id, z: Id)
    requires Candidates(ents, cands) && scorer.gate && KeepsAbbreviationsLow(ents, scorer)
    requires HeldAlone(s, SafeMerges(ents, scorer, cands), x, y) && z != y
    requires Proposed(SafeMerges(ents, scorer, cands), x, z)
    ensures MeetAbove(Allowed(s, ents, scorer, cands), x, y)
  {
    var plan, left := SafeMerges(ents, scorer, cands), Allowed(s, ents, scorer, cands);
    JoinedIsProposed(ents, scorer, cands, x, y);
    JoinedIsProposed(ents, scorer, cands, x, z);
    PartnersArePartners(ents, scorer, cands, x, y, z);
    NotHeld(s, ents, scorer, cands, x, y, x, z);
    StaysPut(left, x);
    StaysPut(left, y);
    StaysPut(left, z);
    OneStepOn(left, x, x, z);
    if Proposed(plan, y, z) {
      NotHeld(s, ents, scorer, cands, x, y, y, z);
      OneStepOn(left, y, y, z);
    } else {
      NotHeld(s, ents, scorer, cands, x, y, z, y);
      OneStepOn(left, x, z, y);
    }
  }

  lemma NoThirdAbove(s: State, ents: map<Id, Ent>, scorer: Scorer, cands: seq<Pair>, x: Id, y: Id)
    requires Candidates(ents, cands) && scorer.gate && KeepsAbbreviationsLow(ents, scorer)
    requires HeldAlone(s, SafeMerges(ents, scorer, cands), x, y)
    requires forall z: Id :: Proposed(SafeMerges(ents, scorer, cands), x, z) ==> z == y
    ensures !MeetAbove(Allowed(s, ents, scorer, cands), x, y)
  {
    var plan, left := SafeMerges(ents, scorer, cands), Allowed(s, ents, scorer, cands);
    JoinedIsProposed(ents, scorer, cands, x, y);
    forall a | a in left
      ensures a.loser != x && a.loser != y
    {
      AllowedAre(s, ents, scorer, cands, a);
      if a.loser == y {
        var z := a.winner;
        JoinedIsProposed(ents, scorer, cands, y, z);
        PartnersArePartners(ents, scorer, cands, y, x, z);
        JoinedIsProposed(ents, scorer, cands, z, x);
        BeatsIsStrictTotalOrder(ents, z, y, x);
        BeatsIsStrictTotalOrder(ents, x, z, x);
      }
    }
    if z: Id :| LeadsTo(left, x, z) && LeadsTo(left, y, z) {
      LeadsNowhere(left, x, z);
      LeadsNowhere(left, y, z);
    }
  }

  /** Main result: of a gated plan, a pair held back, and no other of its rows' pairs with it, can still be
      united by the batch exactly when the lower of the two loses to a third row as well. */
  lemma HeldPairUnitedIff(base: map<Id, Option<Id>>, s: State, ents: map<Id, Ent>, scorer: Scorer, cands: seq<Pair>,
                          x: Id, y: Id)
    requires Inv(base, s) && Loaded(s, ents) && Candidates(ents, cands) && CommandScorer(scorer) && scorer.gate
    requires HeldAlone(s, SafeMerges(ents, scorer, cands), x, y)
    ensures BatchMayUnite(s, ents, scorer, cands, x, y) <==>
            exists z: Id :: z != y && Proposed(SafeMerges(ents, scorer, cands), x, z)
  {
    CommandKeepsAbbreviationsLow(ents, scorer);
    JoinedIsProposed(ents, scorer, cands, x, y);
    BatchMayUniteIff(base, s, ents, scorer, cands, x, y);
    if z: Id :| z != y && Proposed(SafeMerges(ents, scorer, cands), x, z) {
      ThirdAbove(s, ents, scorer, cands, x, y, z);
    } else {
      NoThirdAbove(s, ents, scorer, cands, x, y);
    }
  }

  // ----- what is left, in any order -----

  /** Main result: the tables the command leaves depend on how it walks over the set of candidate pairs if
      and only if some loser that is left has no top. */
  lemma BatchOrderIff(base: map<Id, Option<Id>>, s: State, ents: map<Id, Ent>, scorer: Scorer, cands: seq<Pair>)
    requires Inv(base, s) && Loaded(s, ents) && Candidates(ents, cands) && CommandScorer(scorer)
    ensures OrderFree(Allowed(s, ents, scorer, cands)) <==>
            forall s1, s2 :: BatchEnds(s, ents, scorer, cands, s1) && BatchEnds(s, ents, scorer, cands, s2) ==>
              SameOutcome(ents, s1, s2)
  {
    if OrderFree(Allowed(s, ents, scorer, cands)) {
      forall s1, s2 | BatchEnds(s, ents, scorer, cands, s1) && BatchEnds(s, ents, scorer, cands, s2)
        ensures SameOutcome(ents, s1, s2)
      {
        OneOutcome(base, s, ents, scorer, cands, s1);
        OneOutcome(base, s, ents, scorer, cands, s2);
      }
    } else {
      var s1, s2 := TwoOutcomes(base, s, ents, scorer, cands);
    }
  }

  lemma OneOutcome(base: map<Id, Option<Id>>, s: State, ents: map<Id, Ent>, scorer: Scorer, cands: seq<Pair>, s': State)
    requires Inv(base, s) && Loaded(s, ents) && Candidates(ents, cands) && CommandScorer(scorer)
    requires OrderFree(Allowed(s, ents, scorer, cands)) && BatchEnds(s, ents, scorer, cands, s')
    ensures forall x :: x in ents ==> x in s'.ents && Survivor(s', x) == TopOf(Allowed(s, ents, scorer, cands), x)
  {
    var left := Allowed(s, ents, scorer, cands);
    CommandKeepsAbbreviationsLow(ents, scorer);
    AllowedIsUphill(s, ents, scorer, cands);
    var p := BatchRunsAnOrder(s, ents, scorer, cands, s');
    forall x | x in ents
      ensures x in s'.ents && Survivor(s', x) == TopOf(left, x)
    {
      PermutedOutcome(base, s, ents, left, p, s', x);
    }
  }

  lemma TwoOutcomes(base: map<Id, Option<Id>>, s: State, ents: map<Id, Ent>, scorer: Scorer, cands: seq<Pair>)
    returns (s1: State, s2: State)
    requires Inv(base, s) && Loaded(s, ents) && Candidates(ents, cands) && CommandScorer(scorer)
    requires !OrderFree(Allowed(s, ents, scorer, cands))
    ensures BatchEnds(s, ents, scorer, cands, s1) && BatchEnds(s, ents, scorer, cands, s2) && !SameOutcome(ents, s1, s2)
  {
    var left := Allowed(s, ents, scorer, cands);
    CommandKeepsAbbreviationsLow(ents, scorer);
    AllowedIsUphill(s, ents, scorer, cands);
    var l := SomeTorn(ents, left);
    var p, q;
    p, s1, q, s2 := TornGoesBothWays(base, s, ents, left, l);
    BatchRunsAnyOrder(s, ents, scorer, cands, p, s1);
    BatchRunsAnyOrder(s, ents, scorer, cands, q, s2);
  }

  /** Where they do not, two rows end together exactly when they have the same top, held pair or not. */
  lemma BatchTogetherIff(base: map<Id, Option<Id>>, s: State, ents: map<Id, Ent>, scorer: Scorer, cands: seq<Pair>,
                         s': State, x: Id, y: Id)
    requires Inv(base, s) && Loaded(s, ents) && Candidates(ents, cands) && CommandScorer(scorer)
    requires x in ents && y in ents
    requires OrderFree(Allowed(s, ents, scorer, cands)) && BatchEnds(s, ents, scorer, cands, s')
    ensures x in s'.ents && y in s'.ents
    ensures var left := Allowed(s, ents, scorer, cands); SameClass(s', x, y) <==> TopOf(left, x) == TopOf(left, y)
  {
    OneOutcome(base, s, ents, scorer, cands, s');
  }
}
