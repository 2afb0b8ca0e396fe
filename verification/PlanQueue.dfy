/** The review queue of a plan, told from outside: which candidate pairs wait and with what score, that no
    pair is decided twice, what the cap lets through, and who is never dropped. */
module PlanQueue {
  import opened Basics
  import opened Identity
  import opened Scoring
  import opened ScoringAgrees
  import opened QueueCap
  import opened DedupPlan
  import opened DedupApply

  // ----- before the cap -----

  /** Two people with a normalised name in common. */
  ghost predicate PeopleShareForm(ents: map<Id, Ent>, p: Pair)
    requires p.lo in ents && p.hi in ents
  {
    && ents[p.lo].names.kind == Person && ents[p.hi].names.kind == Person
    && exists f :: f in ents[p.lo].names.forms && f in ents[p.hi].names.forms
  }

  /** A pair below the merge bar is worth a human's look. */
  ghost predicate WorthALook(ents: map<Id, Ent>, scorer: Scorer, p: Pair)
    requires p.lo in ents && p.hi in ents
  {
    var score := scorer.score(ents[p.lo].names, ents[p.hi].names);
    score < scorer.autoMerge && (score >= scorer.queueFloor || PeopleShareForm(ents, p))
  }

  /** A queued triple is one pair, with its score. */
  ghost predicate IsPair(q: Queued, ents: map<Id, Ent>, scorer: Scorer, p: Pair)
    requires p.lo in ents && p.hi in ents
  {
    q.a == p.lo && q.b == p.hi && q.score == scorer.score(ents[p.lo].names, ents[p.hi].names)
  }

  ghost predicate QueuedAtOnce(q: Queued, ents: map<Id, Ent>, scorer: Scorer, cands: seq<Pair>)
    requires Candidates(ents, cands)
  {
    exists i :: 0 <= i < |cands| && IsPair(q, ents, scorer, cands[i]) && WorthALook(ents, scorer, cands[i])
  }

  ghost predicate QueuedInstead(q: Queued, ms: seq<Proposal>, gate: bool) {
    exists m :: m in ms && Demoted(ms, gate, m)
                && q == Queued(PairOf(m.loser, m.winner).lo, PairOf(m.loser, m.winner).hi, m.score)
  }

  lemma {:induction false} FirstQueueIff(ents: map<Id, Ent>, scorer: Scorer, cands: seq<Pair>, q: Queued)
    requires Candidates(ents, cands)
    ensures q in FirstQueue(ents, scorer, cands) <==> QueuedAtOnce(q, ents, scorer, cands)
  {
    if cands == [] {
    } else {
      var n := |cands| - 1;
      var rest := cands[..n];
      FirstQueueIff(ents, scorer, rest, q);
      assert Identical(ents, cands[n]) <==> PeopleShareForm(ents, cands[n]);
      if i :| 0 <= i < |cands| && IsPair(q, ents, scorer, cands[i]) && WorthALook(ents, scorer, cands[i]) {
        assert i == n || cands[i] == rest[i];
      }
      if i :| 0 <= i < |rest| && IsPair(q, ents, scorer, rest[i]) && WorthALook(ents, scorer, rest[i]) {
        assert cands[i] == rest[i];
      }
    }
  }

  lemma {:induction false} DemotedQueueIff(ms: seq<Proposal>, gate: bool, part: seq<Proposal>, q: Queued)
    ensures q in DemotedQueue(ms, gate, part) <==>
            exists m :: m in part && Demoted(ms, gate, m)
                        && q == Queued(PairOf(m.loser, m.winner).lo, PairOf(m.loser, m.winner).hi, m.score)
  {
    if part == [] {
    } else {
      var n := |part| - 1;
      DemotedQueueIff(ms, gate, part[..n], q);
      assert part == part[..n] + [part[n]];
    }
  }

  /** What waits before the cap. */
  ghost function Waiting(ents: map<Id, Ent>, scorer: Scorer, cands: seq<Pair>): seq<Queued>
    requires Candidates(ents, cands)
  {
    var ms := Proposals(ents, scorer, cands);
    FirstQueue(ents, scorer, cands) + DemotedQueue(ms, scorer.gate, ms)
  }

  /** Main result: a triple waits exactly when it is a candidate pair below the merge bar that reaches the
      floor or is two people sharing a name, or a proposed merge the gates turned down; with its own score. */
  lemma WaitingIff(ents: map<Id, Ent>, scorer: Scorer, cands: seq<Pair>, q: Queued)
    requires Candidates(ents, cands)
    ensures q in Waiting(ents, scorer, cands) <==>
            QueuedAtOnce(q, ents, scorer, cands) || QueuedInstead(q, Proposals(ents, scorer, cands), scorer.gate)
  {
    FirstQueueIff(ents, scorer, cands, q);
    DemotedQueueIff(Proposals(ents, scorer, cands), scorer.gate, Proposals(ents, scorer, cands), q);
  }

  // ----- what is proposed, and what the gates turn down -----

  /** A proposal carries the score of its pair; when one side's bare name abbreviates a name of the other, it
      names that side, and that side loses. */
  lemma ProposalsNameAbbreviations(ents: map<Id, Ent>, scorer: Scorer, cands: seq<Pair>, m: Proposal)
    requires Candidates(ents, cands) && m in Proposals(ents, scorer, cands)
    ensures m.loser in ents && m.winner in ents
    ensures var p := PairOf(m.loser, m.winner);
            p.lo in ents && p.hi in ents && m.score == scorer.score(ents[p.lo].names, ents[p.hi].names)
    ensures m.subset.Some? ==>
              && m.subset.value == m.loser && ents[m.loser].names.kind == Person
              && exists x, y ::
                   x in ents[m.loser].names.forms && y in ents[m.winner].names.forms && IsAbbreviation(x, y)
    ensures m.subset.None? && ents[m.loser].names.kind == Person ==>
              !AnyAbbreviation(ents[m.loser].names.forms, ents[m.winner].names.forms)
  {
    ProposalsAreOriented(ents, scorer, cands);
    var p := PairOf(m.loser, m.winner);
    var fa, fb := ents[p.lo].names.forms, ents[p.hi].names.forms;
    SideIsAbbreviated(fa, fb);
    assert AnyAbbreviation(fb, fa) ==> AnyAbbreviation(fa, fb) by {
      assert forall i, j :: 0 <= i < |fb| && 0 <= j < |fa| && Abbreviates(fb[i], fa[j]) ==> Abbreviates(fa[j], fb[i]);
    }
  }

  lemma {:induction false} SideIsAbbreviated(fa: seq<Form>, fb: seq<Form>)
    ensures AbbreviatedSide(fa, fb) == Some(Left) ==> exists x, y :: x in fa && y in fb && IsAbbreviation(x, y)
    ensures AbbreviatedSide(fa, fb) == Some(Right) ==> exists x, y :: x in fa && y in fb && IsAbbreviation(y, x)
    ensures AbbreviatedSide(fa, fb).None? ==> !AnyAbbreviation(fa, fb)
  {
    if fa == [] {
    } else {
      RowIsAbbreviated(fa[0], fb);
      SideIsAbbreviated(fa[1..], fb);
      assert fa == [fa[0]] + fa[1..];
    }
  }

  lemma {:induction false} RowIsAbbreviated(x: Form, fb: seq<Form>)
    ensures AbbreviatedInRow(x, fb) == Some(Left) ==> exists y :: y in fb && IsAbbreviation(x, y)
    ensures AbbreviatedInRow(x, fb) == Some(Right) ==> exists y :: y in fb && IsAbbreviation(y, x)
    ensures AbbreviatedInRow(x, fb).None? ==> forall j :: 0 <= j < |fb| ==> !Abbreviates(x, fb[j])
  {
    if fb == [] {
    } else {
      RowIsAbbreviated(x, fb[1..]);
      assert fb == [fb[0]] + fb[1..];
    }
  }

  /** Two rows are to merge, by some proposal, one way or the other. */
  ghost predicate Partners(ms: seq<Proposal>, x: Id, y: Id) {
    exists m :: m in ms && ((m.loser == x && m.winner == y) || (m.loser == y && m.winner == x))
  }

  /** All partners of `e` are each other's partners. */
  ghost predicate Agreed(ms: seq<Proposal>, e: Id) {
    forall x, y :: x != y && Partners(ms, e, x) && Partners(ms, e, y) ==> Partners(ms, x, y)
  }

  /** Main result: a proposal is merged exactly when no other proposal has the abbreviation it consumes lose to
      someone else, and, under the gate, the partners of either side are each other's partners. */
  lemma MergedIff(ents: map<Id, Ent>, scorer: Scorer, cands: seq<Pair>, m: Proposal)
    requires Candidates(ents, cands) && m in Proposals(ents, scorer, cands)
    ensures var ms := Proposals(ents, scorer, cands);
            m in SafeMerges(ents, scorer, cands) <==>
            && (m.subset.Some? ==> forall o :: o in ms && o.subset == m.subset ==> o.winner == m.winner)
            && (scorer.gate ==> Agreed(ms, m.loser) && Agreed(ms, m.winner))
  {
    var ms := Proposals(ents, scorer, cands);
    KeptAre(ms, scorer.gate, ms, m);
    ContestedIff(ms, m.loser);
    ContestedIff(ms, m.winner);
    if m.subset.Some? {
      AmbiguousIff(ms, m);
    }
  }

  lemma AmbiguousIff(ms: seq<Proposal>, m: Proposal)
    requires m in ms && m.subset.Some?
    ensures Ambiguous(ms, m.subset.value) <==> exists o :: o in ms && o.subset == m.subset && o.winner != m.winner
  {
    var k :| 0 <= k < |ms| && ms[k] == m;
    if o :| o in ms && o.subset == m.subset && o.winner != m.winner {
      var i :| 0 <= i < |ms| && ms[i] == o;
      assert ms[i].winner != ms[k].winner;
    }
    if Ambiguous(ms, m.subset.value) {
      var i, j :| 0 <= i < |ms| && 0 <= j < |ms| && ms[i].subset == m.subset && ms[j].subset == m.subset
                  && ms[i].winner != ms[j].winner;
      assert ms[i] in ms && ms[j] in ms;
    }
  }

  lemma ContestedIff(ms: seq<Proposal>, e: Id)
    ensures Contested(ms, e) <==> !Agreed(ms, e)
  {
    forall x: Id, y: Id
      ensures Joins(ms, x, y) <==> Partners(ms, x, y)
    {
      if i :| 0 <= i < |ms| && Edge(ms[i], x, y) {
        assert ms[i] in ms;
      }
      if m :| m in ms && ((m.loser == x && m.winner == y) || (m.loser == y && m.winner == x)) {
        var i :| 0 <= i < |ms| && ms[i] == m;
        assert Edge(ms[i], x, y);
      }
    }
  }

  // ----- each pair once -----

  ghost function PairsMerged(ms: seq<Proposal>): (r: seq<Pair>)
    ensures |r| == |ms| && forall i :: 0 <= i < |ms| ==> r[i] == PairOf(ms[i].loser, ms[i].winner)
  {
    seq(|ms|, i requires 0 <= i < |ms| => PairOf(ms[i].loser, ms[i].winner))
  }

  ghost function PairsQueued(qs: seq<Queued>): (r: seq<Pair>)
    ensures |r| == |qs| && forall i :: 0 <= i < |qs| ==> r[i] == Pair(qs[i].a, qs[i].b)
  {
    seq(|qs|, i requires 0 <= i < |qs| => Pair(qs[i].a, qs[i].b))
  }

  lemma OneMoreMerged(ms: seq<Proposal>, m: Proposal)
    ensures PairsMerged(ms + [m]) == PairsMerged(ms) + [PairOf(m.loser, m.winner)]
  {
  }

  lemma OneMoreQueued(qs: seq<Queued>, q: Queued)
    ensures PairsQueued(qs + [q]) == PairsQueued(qs) + [Pair(q.a, q.b)]
  {
  }

  lemma {:induction false} KeptOrDemoted(ms: seq<Proposal>, gate: bool, part: seq<Proposal>)
    ensures multiset(PairsMerged(Kept(ms, gate, part))) + multiset(PairsQueued(DemotedQueue(ms, gate, part)))
            == multiset(PairsMerged(part))
  {
    if part == [] {
    } else {
      var n := |part| - 1;
      var p := PairOf(part[n].loser, part[n].winner);
      KeptOrDemoted(ms, gate, part[..n]);
      OneMoreMerged(part[..n], part[n]);
      assert part == part[..n] + [part[n]];
      if Demoted(ms, gate, part[n]) {
        OneMoreQueued(DemotedQueue(ms, gate, part[..n]), Queued(p.lo, p.hi, part[n].score));
        assert Kept(ms, gate, part) == Kept(ms, gate, part[..n]);
      } else {
        OneMoreMerged(Kept(ms, gate, part[..n]), part[n]);
        assert DemotedQueue(ms, gate, part) == DemotedQueue(ms, gate, part[..n]);
      }
    }
  }

  lemma {:induction false} ProposedOrQueued(ents: map<Id, Ent>, scorer: Scorer, cands: seq<Pair>)
    requires Candidates(ents, cands)
    ensures multiset(PairsMerged(Proposals(ents, scorer, cands)))
            + multiset(PairsQueued(FirstQueue(ents, scorer, cands))) <= multiset(cands)
  {
    if cands == [] {
    } else {
      var n := |cands| - 1;
      var ms, qs := Proposals(ents, scorer, cands[..n]), FirstQueue(ents, scorer, cands[..n]);
      var m, q := Propose(ents, scorer, cands[n]), Queued(cands[n].lo, cands[n].hi, ScoreOf(ents, scorer, cands[n]));
      ProposedOrQueued(ents, scorer, cands[..n]);
      OneMoreMerged(ms, m);
      OneMoreQueued(qs, q);
      assert PairOf(m.loser, m.winner) == cands[n] == Pair(q.a, q.b);
      assert cands == cands[..n] + [cands[n]];
      assert ms + [] == ms && qs + [] == qs;
    }
  }

  lemma QueuedTogether(first: seq<Queued>, second: seq<Queued>)
    ensures multiset(PairsQueued(first + second)) == multiset(PairsQueued(first)) + multiset(PairsQueued(second))
  {
    assert PairsQueued(first + second) == PairsQueued(first) + PairsQueued(second);
  }

  /** Main result: each candidate pair is merged, or waits, or is dropped, and no more than one of these as
      often as it is listed. */
  lemma EachPairOnce(ents: map<Id, Ent>, scorer: Scorer, cands: seq<Pair>)
    requires Candidates(ents, cands)
    ensures multiset(PairsMerged(SafeMerges(ents, scorer, cands))) + multiset(PairsQueued(Waiting(ents, scorer, cands)))
            <= multiset(cands)
  {
    var ms := Proposals(ents, scorer, cands);
    var first, demoted := FirstQueue(ents, scorer, cands), DemotedQueue(ms, scorer.gate, ms);
    ProposedOrQueued(ents, scorer, cands);
    KeptOrDemoted(ms, scorer.gate, ms);
    QueuedTogether(first, demoted);
  }

  // ----- the cap -----

  /** How many queued pairs have the entity. */
  function Times(qs: seq<Queued>, v: Id): nat {
    if qs == [] then 0
    else
      var n := |qs| - 1;
      Times(qs[..n], v) + if qs[n].a == v || qs[n].b == v then 1 else 0
  }

  ghost function Capped(qs: seq<Queued>): seq<Queued> {
    Chosen(Sort(qs), Greedy(Sort(qs)))
  }

  lemma TimesSnoc(qs: seq<Queued>, q: Queued, v: Id)
    ensures Times(qs + [q], v) == Times(qs, v) + if q.a == v || q.b == v then 1 else 0
  {
    assert (qs + [q])[..|qs|] == qs;
  }

  lemma {:induction false} ChosenTimes(q: seq<Queued>, sel: seq<bool>, v: Id)
    requires |sel| == |q|
    ensures Times(Chosen(q, sel), v) == Degree(q, sel, v) <= Times(q, v)
  {
    if q == [] {
    } else {
      var n := |q| - 1;
      var before := Chosen(q[..n], sel[..n]);
      ChosenTimes(q[..n], sel[..n], v);
      Snoc(q, sel, v);
      if sel[n] {
        assert Chosen(q, sel) == before + [q[n]];
        TimesSnoc(before, q[n], v);
      } else {
        assert Chosen(q, sel) == before;
      }
    }
  }

  lemma {:induction false} ChosenAmong(q: seq<Queued>, sel: seq<bool>)
    requires |sel| == |q|
    ensures multiset(Chosen(q, sel)) <= multiset(q)
  {
    if q == [] {
    } else {
      var n := |q| - 1;
      ChosenAmong(q[..n], sel[..n]);
      assert q == q[..n] + [q[n]];
    }
  }

  /** A pair left out is missing from the degree of its ends. */
  lemma {:induction false} MissingCounts(q: seq<Queued>, sel: seq<bool>, i: nat, v: Id)
    requires |sel| == |q| && i < |q| && !sel[i] && Touches(q[i], v)
    ensures Degree(q, sel, v) < Times(q, v)
  {
    var n := |q| - 1;
    Snoc(q, sel, v);
    if i < n {
      MissingCounts(q[..n], sel[..n], i, v);
    } else {
      ChosenTimes(q[..n], sel[..n], v);
    }
  }

  lemma {:induction false} SomeMissing(q: seq<Queued>, sel: seq<bool>, x: Queued) returns (i: nat)
    requires |sel| == |q| && multiset(Chosen(q, sel))[x] < multiset(q)[x]
    ensures i < |q| && q[i] == x && !sel[i]
  {
    var n := |q| - 1;
    assert q == q[..n] + [q[n]];
    if q[n] == x && !sel[n] {
      i := n;
    } else {
      i := SomeMissing(q[..n], sel[..n], x);
    }
  }

  lemma {:induction false} DegreeGrows(q: seq<Queued>, sel: seq<bool>, i: nat, v: Id)
    requires |sel| == |q| && i <= |q|
    ensures Degree(q[..i], sel[..i], v) <= Degree(q, sel, v)
  {
    if i == |q| {
      assert q[..i] == q && sel[..i] == sel;
    } else {
      var n := |q| - 1;
      DegreeGrows(q[..n], sel[..n], i, v);
      assert q[..n][..i] == q[..i] && sel[..n][..i] == sel[..i];
    }
  }

  /** A pair the cap drops has an end in which five pairs are kept. */
  lemma DroppedEnd(q: seq<Queued>, x: Queued) returns (v: Id, i: nat)
    requires multiset(Capped(q))[x] < multiset(q)[x]
    ensures i < |Sort(q)| && Sort(q)[i] == x && !Greedy(Sort(q))[i]
    ensures (v == x.a || v == x.b) && Times(Capped(q), v) == 5
  {
    var s := Sort(q);
    SortRanks(q);
    i := SomeMissing(s, Greedy(s), x);
    DroppedIsBlocked(s, i);
    v :| Touches(s[i], v) && Degree(s[..i], Greedy(s)[..i], v) == MAX_QUEUE_PER_ENTITY;
    DegreeGrows(s, Greedy(s), i, v);
    GreedyFeasible(s);
    assert Degree(s, Greedy(s), v) <= MAX_QUEUE_PER_ENTITY;
    ChosenTimes(s, Greedy(s), v);
  }

  /** Best score first, then by the two ids. */
  predicate Before(x: Queued, y: Queued) {
    || x.score > y.score
    || (x.score == y.score && x.a < y.a)
    || (x.score == y.score && x.a == y.a && x.b <= y.b)
  }

  ghost predicate BestFirst(qs: seq<Queued>) {
    forall i, j :: 0 <= i < j < |qs| ==> Before(qs[i], qs[j])
  }

  lemma {:induction false} ChosenStaysRanked(q: seq<Queued>, sel: seq<bool>)
    requires |sel| == |q| && BestFirst(q)
    ensures BestFirst(Chosen(q, sel)) && forall x :: x in Chosen(q, sel) ==> x in q
  {
    if q == [] {
    } else {
      var n := |q| - 1;
      var before := Chosen(q[..n], sel[..n]);
      ChosenStaysRanked(q[..n], sel[..n]);
      forall i | 0 <= i < |before|
        ensures Before(before[i], q[n])
      {
        assert before[i] in q[..n];
        var k :| 0 <= k < n && q[k] == before[i];
      }
      assert q == q[..n] + [q[n]];
    }
  }

  /** Main result on the cap: what comes out is part of what went in, best first, each entity in it at most
      five times; and what is dropped has an entity that is in it five times. */
  lemma CapDrops(q: seq<Queued>, v: Id, x: Queued)
    ensures multiset(Capped(q)) <= multiset(q) && BestFirst(Capped(q)) && Times(Capped(q), v) <= 5
    ensures multiset(Capped(q))[x] < multiset(q)[x] ==> Times(Capped(q), x.a) == 5 || Times(Capped(q), x.b) == 5
  {
    var s := Sort(q);
    SortRanks(q);
    assert forall i, j :: 0 <= i < j < |s| ==> RanksNoWorse(s[i], s[j]) && Before(s[i], s[j]);
    ChosenTimes(s, Greedy(s), v);
    ChosenAmong(s, Greedy(s));
    ChosenStaysRanked(s, Greedy(s));
    GreedyFeasible(s);
    assert Degree(s, Greedy(s), v) <= MAX_QUEUE_PER_ENTITY;
    if multiset(Capped(q))[x] < multiset(q)[x] {
      var e, i := DroppedEnd(q, x);
    }
  }

  lemma {:induction false} SortTimes(q: seq<Queued>, v: Id)
    ensures Times(Sort(q), v) == Times(q, v)
  {
    if q == [] {
    } else {
      SortTimes(q[1..], v);
      InsertTimes(q[0], Sort(q[1..]), v);
      ConsTimes(q[0], q[1..], v);
      assert q == [q[0]] + q[1..];
    }
  }

  lemma {:induction false} ConsTimes(x: Queued, q: seq<Queued>, v: Id)
    ensures Times([x] + q, v) == Times(q, v) + if x.a == v || x.b == v then 1 else 0
  {
    if q == [] {
      assert [x] + q == [x] && [x][..0] == [];
    } else {
      var n := |q| - 1;
      ConsTimes(x, q[..n], v);
      assert ([x] + q)[..|q|] == [x] + q[..n];
    }
  }

  lemma {:induction false} InsertTimes(x: Queued, q: seq<Queued>, v: Id)
    ensures Times(Insert(x, q), v) == Times(q, v) + if x.a == v || x.b == v then 1 else 0
  {
    ConsTimes(x, q, v);
    if q == [] {
      assert [x] + q == [x];
    } else if !RanksNoWorse(x, q[0]) {
      InsertTimes(x, q[1..], v);
      ConsTimes(q[0], q[1..], v);
      ConsTimes(q[0], Insert(x, q[1..]), v);
      assert q == [q[0]] + q[1..];
    }
  }

  /** When no entity waits more than five times, the cap drops nothing. */
  lemma NothingDropped(q: seq<Queued>, x: Queued)
    requires Times(q, x.a) <= 5 && Times(q, x.b) <= 5
    ensures multiset(Capped(q))[x] == multiset(q)[x]
  {
    CapDrops(q, x.a, x);
    if multiset(Capped(q))[x] < multiset(q)[x] {
      var v, i := DroppedEnd(q, x);
      MissingCounts(Sort(q), Greedy(Sort(q)), i, v);
      ChosenTimes(Sort(q), Greedy(Sort(q)), v);
      SortTimes(q, v);
    }
  }

  // ----- who is never dropped -----

  /** Two people who share a name are proposed for a merge or queued, whatever they score. */
  lemma PeopleSharingAreKept(ents: map<Id, Ent>, scorer: Scorer, cands: seq<Pair>, p: Pair)
    requires Candidates(ents, cands) && p in cands && p.lo in ents && p.hi in ents && PeopleShareForm(ents, p)
    ensures Propose(ents, scorer, p) in Proposals(ents, scorer, cands)
            || Queued(p.lo, p.hi, scorer.score(ents[p.lo].names, ents[p.hi].names)) in Waiting(ents, scorer, cands)
  {
    if ScoreOf(ents, scorer, p) >= scorer.autoMerge {
      ReachingIsProposed(ents, scorer, cands, p);
    } else {
      var q := Queued(p.lo, p.hi, ScoreOf(ents, scorer, p));
      var i :| 0 <= i < |cands| && cands[i] == p;
      assert IsPair(q, ents, scorer, cands[i]) && WorthALook(ents, scorer, cands[i]);
      FirstQueueIff(ents, scorer, cands, q);
    }
  }

  /** Two people known by one and the same name score below the merge bar with either scorer. */
  lemma NamesakesStayBelow(scorer: Scorer, a: Names, b: Names, f: Form)
    requires CommandScorer(scorer) && a.kind == Person && b.kind == Person && a.forms == [f] && b.forms == [f]
    ensures scorer.score(a, b) < scorer.autoMerge
    ensures scorer == DefaultScorer() ==> scorer.score(a, b) == 0.0
  {
    assert !Comparable(f, f) && !Abbreviates(f, f);
    assert PairsOf([f], [f], SimilarityOf) == [] by {
      assert [f][..0] == [] && RowOf(f, [f][..0], SimilarityOf) == [] && RowOf(f, [f], SimilarityOf) == [];
    }
    assert MatchScore(a, b) == 0.0;
    if scorer != DefaultScorer() {
      var exp2 :| IsExp2(exp2) && scorer == FsScorer(exp2);
      SameAutoMerges(exp2, a, b);
    }
  }

  /** So with either scorer they wait. */
  lemma NamesakesWait(ents: map<Id, Ent>, scorer: Scorer, cands: seq<Pair>, p: Pair, f: Form)
    requires CommandScorer(scorer) && Candidates(ents, cands) && p in cands && p.lo in ents && p.hi in ents
    requires ents[p.lo].names.kind == Person && ents[p.lo].names.forms == [f]
    requires ents[p.hi].names.kind == Person && ents[p.hi].names.forms == [f]
    ensures Queued(p.lo, p.hi, scorer.score(ents[p.lo].names, ents[p.hi].names)) in Waiting(ents, scorer, cands)
  {
    NamesakesStayBelow(scorer, ents[p.lo].names, ents[p.hi].names, f);
    var q := Queued(p.lo, p.hi, ScoreOf(ents, scorer, p));
    assert f in ents[p.lo].names.forms && f in ents[p.hi].names.forms;
    var i :| 0 <= i < |cands| && cands[i] == p;
    assert IsPair(q, ents, scorer, cands[i]) && WorthALook(ents, scorer, cands[i]);
    FirstQueueIff(ents, scorer, cands, q);
  }

  lemma NotDropped(qs: seq<Queued>, q: Queued)
    requires q in qs && Times(qs, q.a) <= 5 && Times(qs, q.b) <= 5
    ensures q in Capped(qs)
  {
    NothingDropped(qs, q);
    assert q in multiset(qs);
    assert q in multiset(Capped(qs));
  }

  /** And they stay queued when neither waits more than five times. */
  lemma NamesakesAreQueued(ents: map<Id, Ent>, scorer: Scorer, cands: seq<Pair>, p: Pair, f: Form)
    requires CommandScorer(scorer) && Candidates(ents, cands) && p in cands && p.lo in ents && p.hi in ents
    requires ents[p.lo].names.kind == Person && ents[p.lo].names.forms == [f]
    requires ents[p.hi].names.kind == Person && ents[p.hi].names.forms == [f]
    requires Times(Waiting(ents, scorer, cands), p.lo) <= 5 && Times(Waiting(ents, scorer, cands), p.hi) <= 5
    ensures Queued(p.lo, p.hi, scorer.score(ents[p.lo].names, ents[p.hi].names)) in Capped(Waiting(ents, scorer, cands))
  {
    NamesakesWait(ents, scorer, cands, p, f);
    NotDropped(Waiting(ents, scorer, cands), Queued(p.lo, p.hi, scorer.score(ents[p.lo].names, ents[p.hi].names)));
  }
}
