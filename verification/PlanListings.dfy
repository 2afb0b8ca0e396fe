/** The planner walks over a set of candidate pairs, so its merges come in an order of the set's own
    choosing. Every order of the merges is the order some walk gives them, and no walk changes what they are. */
module PlanListings {
  import opened Basics
  import opened Identity
  import opened DedupPlan
  import opened DedupApply
  import opened ListOrder

  // ----- picking from a list -----

  ghost function Pick<T, U>(xs: seq<T>, g: T -> Option<U>): seq<U> {
    if xs == [] then []
    else
      var n := |xs| - 1;
      Pick(xs[..n], g) + if g(xs[n]).Some? then [g(xs[n]).value] else []
  }

  ghost predicate SameItems<T>(xs: seq<T>, ys: seq<T>) {
    multiset(xs) == multiset(ys)
  }

  lemma {:induction false} PickConcat<T, U>(xs: seq<T>, ys: seq<T>, g: T -> Option<U>)
    ensures Pick(xs + ys, g) == Pick(xs, g) + Pick(ys, g)
    decreases |ys|
  {
    if ys == [] {
      assert xs + ys == xs;
    } else {
      var n := |ys| - 1;
      PickConcat(xs, ys[..n], g);
      assert (xs + ys)[..|xs| + n] == xs + ys[..n];
    }
  }

  lemma PickSnoc<T, U>(xs: seq<T>, x: T, g: T -> Option<U>)
    ensures Pick(xs + [x], g) == Pick(xs, g) + if g(x).Some? then [g(x).value] else []
  {
    assert (xs + [x])[..|xs|] == xs;
  }

  function Without<T>(xs: seq<T>, i: nat): seq<T>
    requires i < |xs|
  {
    xs[..i] + xs[i + 1..]
  }

  lemma TakeOut<T>(xs: seq<T>, i: nat)
    requires i < |xs|
    ensures multiset(xs) == multiset(Without(xs, i)) + multiset{xs[i]}
  {
    assert xs == xs[..i] + ([xs[i]] + xs[i + 1..]);
  }

  lemma PickTakeOut<T, U>(xs: seq<T>, g: T -> Option<U>, i: nat)
    requires i < |xs|
    ensures multiset(Pick(xs, g)) ==
            multiset(Pick(Without(xs, i), g)) + if g(xs[i]).Some? then multiset{g(xs[i]).value} else multiset{}
  {
    var a, b := xs[..i], xs[i + 1..];
    assert xs == a + ([xs[i]] + b);
    PickConcat(a, [xs[i]] + b, g);
    PickConcat([xs[i]], b, g);
    PickConcat(a, b, g);
    assert Pick([xs[i]], g) == if g(xs[i]).Some? then [g(xs[i]).value] else [];
  }

  lemma LastOut<T>(ys: seq<T>)
    requires ys != []
    ensures multiset(ys) == multiset(ys[..|ys| - 1]) + multiset{ys[|ys| - 1]} && ys[|ys| - 1] in multiset(ys)
  {
    assert ys == ys[..|ys| - 1] + [ys[|ys| - 1]];
  }

  lemma Cancel<T>(a: multiset<T>, b: multiset<T>, x: T)
    requires a + multiset{x} == b + multiset{x}
    ensures a == b
  {
    assert a == (a + multiset{x}) - multiset{x} && b == (b + multiset{x}) - multiset{x};
  }

  lemma NoneIsNone<T>(xs: seq<T>)
    requires multiset(xs) == multiset{}
    ensures xs == []
  {
    assert |multiset(xs)| == |xs|;
  }

  /** What is picked from a list does not depend on its order. */
  lemma {:induction false} PickPermutes<T, U>(xs: seq<T>, ys: seq<T>, g: T -> Option<U>)
    requires SameItems(xs, ys)
    ensures SameItems(Pick(xs, g), Pick(ys, g))
    decreases |ys|
  {
    if ys == [] {
      NoneIsNone(xs);
    } else {
      var n := |ys| - 1;
      LastOut(ys);
      var i :| 0 <= i < |xs| && xs[i] == ys[n];
      TakeOut(xs, i);
      PickTakeOut(xs, g, i);
      Cancel(multiset(Without(xs, i)), multiset(ys[..n]), ys[n]);
      PickPermutes(Without(xs, i), ys[..n], g);
    }
  }

  lemma {:induction false} PickedFrom<T, U>(xs: seq<T>, g: T -> Option<U>, u: U) returns (i: nat)
    requires u in Pick(xs, g)
    ensures i < |xs| && g(xs[i]) == Some(u)
  {
    var n := |xs| - 1;
    if g(xs[n]) == Some(u) {
      i := n;
    } else {
      i := PickedFrom(xs[..n], g, u);
    }
  }

  lemma OneLess<T, U>(xs: seq<T>, g: T -> Option<U>, p: seq<U>, i: nat)
    requires SameItems(Pick(xs, g), p) && p != [] && i < |xs| && g(xs[i]) == Some(p[|p| - 1])
    ensures SameItems(Pick(Without(xs, i), g), p[..|p| - 1])
  {
    LastOut(p);
    PickTakeOut(xs, g, i);
    Cancel(multiset(Pick(Without(xs, i), g)), multiset(p[..|p| - 1]), p[|p| - 1]);
  }

  lemma PutLast<T, U>(xs: seq<T>, g: T -> Option<U>, p: seq<U>, i: nat, rest: seq<T>)
    requires p != [] && i < |xs| && g(xs[i]) == Some(p[|p| - 1])
    requires SameItems(Without(xs, i), rest) && Pick(rest, g) == p[..|p| - 1]
    ensures SameItems(xs, rest + [xs[i]]) && Pick(rest + [xs[i]], g) == p
  {
    TakeOut(xs, i);
    PickSnoc(rest, xs[i], g);
    assert p == p[..|p| - 1] + [p[|p| - 1]];
  }

  /** Every order of what is picked is the order in which some rearranged list yields it. */
  lemma {:induction false} PickRealises<T, U>(xs: seq<T>, g: T -> Option<U>, p: seq<U>) returns (ys: seq<T>)
    requires SameItems(Pick(xs, g), p)
    ensures SameItems(xs, ys) && Pick(ys, g) == p
    decreases |p|
  {
    if p == [] {
      NoneIsNone(Pick(xs, g));
      ys := xs;
    } else {
      LastOut(p);
      var i := PickedFrom(xs, g, p[|p| - 1]);
      OneLess(xs, g, p, i);
      var rest := PickRealises(Without(xs, i), g, p[..|p| - 1]);
      PutLast(xs, g, p, i, rest);
      ys := rest + [xs[i]];
    }
  }

  // ----- the plan as a choice of candidate pairs -----

  /** What becomes of one candidate pair, given all proposals and the pairs held back. */
  ghost function Chosen(ents: map<Id, Ent>, scorer: Scorer, ms: seq<Proposal>, keys: set<Pair>,
                        p: Pair): Option<Arrow>
  {
    if p.lo !in ents || p.hi !in ents || ScoreOf(ents, scorer, p) < scorer.autoMerge then None
    else
      var m := Propose(ents, scorer, p);
      if Demoted(ms, scorer.gate, m) || PairOf(m.loser, m.winner) in keys then None else Some(Arrow(m.loser, m.winner))
  }

  ghost function Chooser(ents: map<Id, Ent>, scorer: Scorer, ms: seq<Proposal>,
                         keys: set<Pair>): Pair -> Option<Arrow>
  {
    p => Chosen(ents, scorer, ms, keys, p)
  }

  /** The planned merges that are not held back. */
  ghost function Remaining(ents: map<Id, Ent>, scorer: Scorer, cands: seq<Pair>, keys: set<Pair>): seq<Arrow>
    requires Candidates(ents, cands)
  {
    Arrows(Sift(SafeMerges(ents, scorer, cands), keys, false))
  }

  /** The merges whose pair is, or is not, among the keys, in list order. */
  function Sift(merges: seq<Proposal>, keys: set<Pair>, ruledOn: bool): seq<Proposal> {
    if merges == [] then []
    else
      var n := |merges| - 1;
      Sift(merges[..n], keys, ruledOn)
      + if PairOf(merges[n].loser, merges[n].winner) in keys <==> ruledOn then [merges[n]] else []
  }

  lemma SiftOneMore(merges: seq<Proposal>, m: Proposal, keys: set<Pair>)
    ensures Sift(merges + [m], keys, false) ==
            Sift(merges, keys, false) + if PairOf(m.loser, m.winner) in keys then [] else [m]
  {
    assert (merges + [m])[..|merges|] == merges;
  }

  lemma KeptOneMore(ms: seq<Proposal>, gate: bool, part: seq<Proposal>, m: Proposal)
    ensures Kept(ms, gate, part + [m]) == Kept(ms, gate, part) + if Demoted(ms, gate, m) then [] else [m]
  {
    assert (part + [m])[..|part|] == part;
  }

  lemma ArrowsOneMore(merges: seq<Proposal>, m: Proposal)
    ensures Arrows(merges + [m]) == Arrows(merges) + [Arrow(m.loser, m.winner)]
  {
  }

  lemma PlanOneMore(ms: seq<Proposal>, gate: bool, part: seq<Proposal>, m: Proposal, keys: set<Pair>)
    ensures Arrows(Sift(Kept(ms, gate, part + [m]), keys, false)) ==
            Arrows(Sift(Kept(ms, gate, part), keys, false))
            + if Demoted(ms, gate, m) || PairOf(m.loser, m.winner) in keys then [] else [Arrow(m.loser, m.winner)]
  {
    var kept := Kept(ms, gate, part);
    var left := Sift(kept, keys, false);
    KeptOneMore(ms, gate, part, m);
    SiftOneMore(kept, m, keys);
    ArrowsOneMore(left, m);
    if Demoted(ms, gate, m) {
      assert Kept(ms, gate, part + [m]) == kept;
    } else if PairOf(m.loser, m.winner) in keys {
      assert Sift(kept + [m], keys, false) == left;
    }
  }

  lemma {:induction false} RemainingIsPicked(ents: map<Id, Ent>, scorer: Scorer, ms: seq<Proposal>, keys: set<Pair>,
                                             part: seq<Pair>)
    requires Candidates(ents, part)
    ensures Arrows(Sift(Kept(ms, scorer.gate, Proposals(ents, scorer, part)), keys, false))
            == Pick(part, Chooser(ents, scorer, ms, keys))
  {
    if part == [] {
    } else {
      var n := |part| - 1;
      var before := Proposals(ents, scorer, part[..n]);
      RemainingIsPicked(ents, scorer, ms, keys, part[..n]);
      if ScoreOf(ents, scorer, part[n]) >= scorer.autoMerge {
        var m := Propose(ents, scorer, part[n]);
        assert Proposals(ents, scorer, part) == before + [m];
        PlanOneMore(ms, scorer.gate, before, m, keys);
        assert Chooser(ents, scorer, ms, keys)(part[n]) == Chosen(ents, scorer, ms, keys, part[n]);
      } else {
        assert Proposals(ents, scorer, part) == before;
      }
    }
  }

  // ----- another walk over the same set -----

  /** Another listing of the same candidate pairs. */
  ghost predicate Relists(ents: map<Id, Ent>, cands: seq<Pair>, other: seq<Pair>) {
    SameItems(cands, other) && Candidates(ents, other)
  }

  lemma RelistsIfSame(ents: map<Id, Ent>, cands: seq<Pair>, other: seq<Pair>)
    requires Candidates(ents, cands) && SameItems(cands, other)
    ensures Relists(ents, cands, other) && forall p :: p in cands <==> p in other
  {
    forall p
      ensures p in cands <==> p in other
    {
      assert p in multiset(cands) <==> p in multiset(other);
    }
    forall i | 0 <= i < |other|
      ensures other[i] in cands
    {
    }
  }

  lemma SameProposals(ents: map<Id, Ent>, scorer: Scorer, cands: seq<Pair>, other: seq<Pair>, m: Proposal)
    requires Candidates(ents, cands) && Relists(ents, cands, other) && m in Proposals(ents, scorer, cands)
    ensures m in Proposals(ents, scorer, other)
  {
    RelistsIfSame(ents, cands, other);
    ProposalsAreOriented(ents, scorer, cands);
    ReachingIsProposed(ents, scorer, other, PairOf(m.loser, m.winner));
  }

  lemma SameDemotions(ms: seq<Proposal>, other: seq<Proposal>, gate: bool, m: Proposal)
    requires (forall x :: x in ms <==> x in other) && Demoted(ms, gate, m)
    ensures Demoted(other, gate, m)
  {
    if m.subset.Some? && Ambiguous(ms, m.subset.value) {
      var e := m.subset.value;
      var i, j :| 0 <= i < |ms| && 0 <= j < |ms| && ms[i].subset == Some(e) && ms[j].subset == Some(e)
                  && ms[i].winner != ms[j].winner;
      assert ms[i] in other && ms[j] in other;
      assert Ambiguous(other, e);
    } else if Contested(ms, m.loser) {
      SameContests(ms, other, m.loser);
    } else {
      SameContests(ms, other, m.winner);
    }
  }

  lemma SameContests(ms: seq<Proposal>, other: seq<Proposal>, e: Id)
    requires (forall x :: x in ms <==> x in other) && Contested(ms, e)
    ensures Contested(other, e)
  {
    var x, y :| x != y && Joins(ms, e, x) && Joins(ms, e, y) && !Joins(ms, x, y);
    SameJoins(ms, other, e, x);
    SameJoins(ms, other, e, y);
    SameJoins(other, ms, x, y);
  }

  lemma SameJoins(ms: seq<Proposal>, other: seq<Proposal>, x: Id, y: Id)
    requires forall m :: m in ms <==> m in other
    ensures Joins(ms, x, y) ==> Joins(other, x, y)
  {
    if i :| 0 <= i < |ms| && Edge(ms[i], x, y) {
      assert ms[i] in other;
      var k :| 0 <= k < |other| && other[k] == ms[i];
      assert Joins(other, x, y);
    }
  }

  lemma SameChooser(ents: map<Id, Ent>, scorer: Scorer, cands: seq<Pair>, other: seq<Pair>, keys: set<Pair>)
    requires Candidates(ents, cands) && Relists(ents, cands, other)
    ensures Remaining(ents, scorer, other, keys) ==
              Pick(other, Chooser(ents, scorer, Proposals(ents, scorer, cands), keys))
  {
    var ms, ms' := Proposals(ents, scorer, cands), Proposals(ents, scorer, other);
    RelistsIfSame(ents, cands, other);
    forall m
      ensures m in ms <==> m in ms'
    {
      if m in ms { SameProposals(ents, scorer, cands, other, m); }
      if m in ms' { SameProposals(ents, scorer, other, cands, m); }
    }
    forall p
      ensures Chooser(ents, scorer, ms, keys)(p) == Chooser(ents, scorer, ms', keys)(p)
    {
      if p.lo in ents && p.hi in ents {
        var m := Propose(ents, scorer, p);
        if Demoted(ms, scorer.gate, m) { SameDemotions(ms, ms', scorer.gate, m); }
        if Demoted(ms', scorer.gate, m) { SameDemotions(ms', ms, scorer.gate, m); }
      }
    }
    RemainingIsPicked(ents, scorer, ms', keys, other);
    SamePicks(other, Chooser(ents, scorer, ms, keys), Chooser(ents, scorer, ms', keys));
  }

  lemma {:induction false} SamePicks<T(!new), U>(xs: seq<T>, g: T -> Option<U>, h: T -> Option<U>)
    requires forall x :: g(x) == h(x)
    ensures Pick(xs, g) == Pick(xs, h)
  {
    if xs == [] {
    } else {
      SamePicks(xs[..|xs| - 1], g, h);
    }
  }

  /** Whatever the walk, the merges are the same. */
  lemma WalksPermute(ents: map<Id, Ent>, scorer: Scorer, cands: seq<Pair>, other: seq<Pair>, keys: set<Pair>)
    requires Candidates(ents, cands) && Relists(ents, cands, other)
    ensures Permutes(Remaining(ents, scorer, cands, keys), Remaining(ents, scorer, other, keys))
  {
    SameChooser(ents, scorer, cands, other, keys);
    SameChooser(ents, scorer, cands, cands, keys);
    PickPermutes(cands, other, Chooser(ents, scorer, Proposals(ents, scorer, cands), keys));
  }

  /** Main result: and every order of them is the order of some walk. */
  lemma EveryOrderIsAWalk(ents: map<Id, Ent>, scorer: Scorer, cands: seq<Pair>, keys: set<Pair>, p: seq<Arrow>)
    returns (other: seq<Pair>)
    requires Candidates(ents, cands) && Permutes(Remaining(ents, scorer, cands, keys), p)
    ensures Relists(ents, cands, other) && Remaining(ents, scorer, other, keys) == p
  {
    var g := Chooser(ents, scorer, Proposals(ents, scorer, cands), keys);
    SameChooser(ents, scorer, cands, cands, keys);
    other := PickRealises(cands, g, p);
    RelistsIfSame(ents, cands, other);
    SameChooser(ents, scorer, cands, other, keys);
  }
}
