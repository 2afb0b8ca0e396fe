/** The review-queue cap: the greedy scan that keeps at most five queued pairs per entity, best first,
    is feasible, drops only blocked pairs, and keeps at least half the score of any feasible choice. */
module QueueCap {
  import opened Basics
  import opened Identity

  const MAX_QUEUE_PER_ENTITY: nat := 5

  datatype Queued = Queued(a: Id, b: Id, score: real)

  predicate Touches(q: Queued, v: Id) {
    q.a == v || q.b == v
  }

  /** The sort key: best score first, then by the two ids. */
  predicate RanksNoWorse(x: Queued, y: Queued) {
    || x.score > y.score
    || (x.score == y.score && (x.a < y.a || (x.a == y.a && x.b <= y.b)))
  }

  ghost predicate Ranked(q: seq<Queued>) {
    forall i, j :: 0 <= i < j < |q| ==> RanksNoWorse(q[i], q[j])
  }

  function Insert(x: Queued, q: seq<Queued>): (r: seq<Queued>) {
    if q == [] then [x]
    else if RanksNoWorse(x, q[0]) then [x] + q
    else [q[0]] + Insert(x, q[1..])
  }

  /** sorted(queue, key=...). */
  function Sort(q: seq<Queued>): seq<Queued> {
    if q == [] then [] else Insert(q[0], Sort(q[1..]))
  }

  lemma {:induction false} InsertKeeps(x: Queued, q: seq<Queued>)
    ensures multiset(Insert(x, q)) == multiset(q) + multiset{x}
  {
    if q != [] && !RanksNoWorse(x, q[0]) {
      InsertKeeps(x, q[1..]);
      assert q == [q[0]] + q[1..];
    }
  }

  lemma {:induction false} InsertRanks(x: Queued, q: seq<Queued>)
    requires Ranked(q)
    ensures Ranked(Insert(x, q))
  {
    if q != [] && !RanksNoWorse(x, q[0]) {
      var r := Insert(x, q[1..]);
      InsertRanks(x, q[1..]);
      InsertKeeps(x, q[1..]);
      forall j | 0 <= j < |r|
        ensures RanksNoWorse(q[0], r[j])
      {
        assert r[j] in multiset(r);
        if r[j] != x {
          assert r[j] in q[1..];
          var k :| 0 <= k < |q[1..]| && q[1..][k] == r[j];
          assert RanksNoWorse(q[0], q[k + 1]);
        }
      }
    } else if q != [] {
      forall j | 0 <= j < |q|
        ensures RanksNoWorse(x, q[j])
      {
        assert j == 0 || RanksNoWorse(q[0], q[j]);
      }
    }
  }

  lemma {:induction false} SortRanks(q: seq<Queued>)
    ensures Ranked(Sort(q)) && multiset(Sort(q)) == multiset(q)
  {
    if q == [] {
    } else {
      SortRanks(q[1..]);
      InsertRanks(q[0], Sort(q[1..]));
      InsertKeeps(q[0], Sort(q[1..]));
      assert q == [q[0]] + q[1..];
    }
  }

  // ----- selections: one flag per queued pair -----

  function Degree(q: seq<Queued>, sel: seq<bool>, v: Id): nat
    requires |sel| == |q|
  {
    if q == [] then 0
    else
      var n := |q| - 1;
      Degree(q[..n], sel[..n], v) + if sel[n] && Touches(q[n], v) then 1 else 0
  }

  function Score(q: seq<Queued>, sel: seq<bool>): real
    requires |sel| == |q|
  {
    if q == [] then 0.0
    else
      var n := |q| - 1;
      Score(q[..n], sel[..n]) + if sel[n] then q[n].score else 0.0
  }

  function Chosen(q: seq<Queued>, sel: seq<bool>): seq<Queued>
    requires |sel| == |q|
  {
    if q == [] then []
    else
      var n := |q| - 1;
      Chosen(q[..n], sel[..n]) + if sel[n] then [q[n]] else []
  }

  ghost predicate Feasible(q: seq<Queued>, sel: seq<bool>)
    requires |sel| == |q|
  {
    forall v :: Degree(q, sel, v) <= MAX_QUEUE_PER_ENTITY
  }

  /** The greedy selection: keep a pair while neither endpoint has five kept pairs. */
  function Greedy(q: seq<Queued>): (sel: seq<bool>)
    ensures |sel| == |q|
  {
    if q == [] then []
    else
      var n := |q| - 1;
      var sel := Greedy(q[..n]);
      sel + [Degree(q[..n], sel, q[n].a) < MAX_QUEUE_PER_ENTITY && Degree(q[..n], sel, q[n].b) < MAX_QUEUE_PER_ENTITY]
  }

  lemma Snoc(q: seq<Queued>, sel: seq<bool>, v: Id)
    requires |sel| == |q| && q != []
    ensures var n := |q| - 1;
            && Degree(q, sel, v) == Degree(q[..n], sel[..n], v) + (if sel[n] && Touches(q[n], v) then 1 else 0)
            && Score(q, sel) == Score(q[..n], sel[..n]) + (if sel[n] then q[n].score else 0.0)
  {
  }

  lemma {:induction false} GreedyFeasible(q: seq<Queued>)
    ensures Feasible(q, Greedy(q))
  {
    if q == [] {
    } else {
      var n := |q| - 1;
      GreedyFeasible(q[..n]);
      assert Greedy(q)[..n] == Greedy(q[..n]);
    }
  }

  lemma {:induction false} GreedyPrefix(q: seq<Queued>, n: nat)
    requires n <= |q|
    ensures Greedy(q)[..n] == Greedy(q[..n])
  {
    if n < |q| {
      GreedyPrefix(q[..|q| - 1], n);
      assert q[..|q| - 1][..n] == q[..n];
      assert Greedy(q)[..|q| - 1] == Greedy(q[..|q| - 1]);
      assert Greedy(q)[..n] == Greedy(q)[..|q| - 1][..n];
    } else {
      assert q[..n] == q;
    }
  }

  /** Every dropped pair has an endpoint that five pairs ranked no worse had already filled. */
  lemma DroppedIsBlocked(q: seq<Queued>, i: nat)
    requires Ranked(q) && i < |q| && !Greedy(q)[i]
    ensures exists v :: Touches(q[i], v) && Degree(q[..i], Greedy(q)[..i], v) == MAX_QUEUE_PER_ENTITY
    ensures forall j :: 0 <= j < i ==> RanksNoWorse(q[j], q[i])
  {
    GreedyPrefix(q, i);
    GreedyPrefix(q, i + 1);
    GreedyFeasible(q[..i]);
    assert q[..i + 1][..i] == q[..i];
    assert Greedy(q)[i] == Greedy(q)[..i + 1][i];
    var v := if Degree(q[..i], Greedy(q[..i]), q[i].a) < MAX_QUEUE_PER_ENTITY then q[i].b else q[i].a;
    assert Touches(q[i], v);
  }

  // ----- half of the best -----

  function Gap(p: nat, r: nat): nat {
    if p > r then p - r else 0
  }

  /** How far the greedy degrees exceed those of another selection, summed over the listed ids. */
  function Excess(ids: seq<Id>, q: seq<Queued>, g: seq<bool>, s: seq<bool>): nat
    requires |g| == |q| == |s|
  {
    if ids == [] then 0
    else
      var n := |ids| - 1;
      Excess(ids[..n], q, g, s) + Gap(Degree(q, g, ids[n]), Degree(q, s, ids[n]))
  }

  function Has(ids: seq<Id>, v: Id): nat {
    if v in ids then 1 else 0
  }

  /** One more pair: kept by greedy alone it adds at most one per endpoint, chosen by the other
      alone it takes one from any endpoint that greedy has filled further, otherwise nothing grows. */
  lemma {:induction false} ExcessStep(ids: seq<Id>, q: seq<Queued>, g: seq<bool>, s: seq<bool>, v: Id)
    requires |g| == |q| == |s| && q != []
    requires forall i, j :: 0 <= i < j < |ids| ==> ids[i] != ids[j]
    requires var n := |q| - 1;
             !g[n] && s[n] ==> Touches(q[n], v) && Degree(q[..n], g[..n], v) > Degree(q[..n], s[..n], v)
    ensures var n := |q| - 1;
            var before := Excess(ids, q[..n], g[..n], s[..n]);
            Excess(ids, q, g, s) <= if g[n] && !s[n] then before + Has(ids, q[n].a) + Has(ids, q[n].b) else before
    ensures var n := |q| - 1;
            !g[n] && s[n] ==> Excess(ids, q, g, s) + Has(ids, v) <= Excess(ids, q[..n], g[..n], s[..n])
    decreases |ids|
  {
    if ids == [] {
    } else {
      var m := |ids| - 1;
      ExcessStep(ids[..m], q, g, s, v);
      Snoc(q, g, ids[m]);
      Snoc(q, s, ids[m]);
      assert ids == ids[..m] + [ids[m]];
      assert ids[m] !in ids[..m];
    }
  }

  lemma {:induction false} ExcessEmpty(ids: seq<Id>)
    ensures Excess(ids, [], [], []) == 0
  {
    if ids == [] {
    } else {
      ExcessEmpty(ids[..|ids| - 1]);
    }
  }

  /** `n` times the weight `w`. */
  function Owed(w: real, n: nat): real {
    if n == 0 then 0.0 else w + Owed(w, n - 1)
  }

  lemma {:induction false} OwedMonotone(w: real, c: real, d: nat, e: nat)
    requires 0.0 <= w <= c && d <= e
    ensures 0.0 <= Owed(w, d) <= Owed(c, e)
    decreases e
  {
    if d > 0 {
      OwedMonotone(w, c, d - 1, e - 1);
    } else if e > 0 {
      OwedMonotone(w, c, d, e - 1);
    }
  }

  lemma FeasiblePrefix(q: seq<Queued>, s: seq<bool>)
    requires |s| == |q| && q != [] && Feasible(q, s)
    ensures Feasible(q[..|q| - 1], s[..|q| - 1])
  {
    var p, t := q[..|q| - 1], s[..|q| - 1];
    forall v
      ensures Degree(p, t, v) <= MAX_QUEUE_PER_ENTITY
    {
      assert Degree(q, s, v) <= MAX_QUEUE_PER_ENTITY;
    }
  }

  /** Where greedy refuses a pair the other selection takes, greedy has the fuller endpoint. */
  lemma FullerThan(q: seq<Queued>, s: seq<bool>, v: Id)
    requires |s| == |q| && q != [] && Feasible(q, s) && s[|q| - 1] && Touches(q[|q| - 1], v)
    requires Degree(q[..|q| - 1], Greedy(q)[..|q| - 1], v) >= MAX_QUEUE_PER_ENTITY
    ensures Degree(q[..|q| - 1], Greedy(q)[..|q| - 1], v) > Degree(q[..|q| - 1], s[..|q| - 1], v)
  {
    assert Degree(q, s, v) <= MAX_QUEUE_PER_ENTITY;
  }

  /** How the excess moves with the last pair, whichever of the two selections takes it. */
  lemma ExcessMoves(ids: seq<Id>, q: seq<Queued>, s: seq<bool>)
    requires |s| == |q| && q != [] && Feasible(q, s)
    requires q[|q| - 1].a in ids && q[|q| - 1].b in ids
    requires forall i, j :: 0 <= i < j < |ids| ==> ids[i] != ids[j]
    ensures var n, g := |q| - 1, Greedy(q);
            var before, after := Excess(ids, q[..n], Greedy(q[..n]), s[..n]), Excess(ids, q, g, s);
            && after <= (if g[n] && !s[n] then before + 2 else before)
            && (!g[n] && s[n] ==> after + 1 <= before)
  {
    var n, g := |q| - 1, Greedy(q);
    assert g[..n] == Greedy(q[..n]);
    var v := if Degree(q[..n], g[..n], q[n].a) < MAX_QUEUE_PER_ENTITY then q[n].b else q[n].a;
    if !g[n] && s[n] { FullerThan(q, s, v); }
    ExcessStep(ids, q, g, s, v);
  }

  /** The potential argument: what the other selection has gained, plus the weight still owed for
      greedy's surplus degree, never exceeds twice what greedy has gained. */
  lemma {:induction false} Potential(ids: seq<Id>, q: seq<Queued>, s: seq<bool>, w: real)
    requires |s| == |q| && Ranked(q) && Feasible(q, s)
    requires forall i :: 0 <= i < |q| ==> q[i].a in ids && q[i].b in ids && w <= q[i].score
    requires forall i, j :: 0 <= i < j < |ids| ==> ids[i] != ids[j]
    requires 0.0 <= w
    ensures Score(q, s) + Owed(w, Excess(ids, q, Greedy(q), s)) <= 2.0 * Score(q, Greedy(q))
    decreases |q|
  {
    if q == [] {
      ExcessEmpty(ids);
    } else {
      var n := |q| - 1;
      FeasiblePrefix(q, s);
      RankedPrefix(q);
      Potential(ids, q[..n], s[..n], q[n].score);
      PotentialStep(ids, q, s, w);
    }
  }

  lemma RankedPrefix(q: seq<Queued>)
    requires Ranked(q) && q != []
    ensures Ranked(q[..|q| - 1])
    ensures forall i :: 0 <= i < |q| - 1 ==> q[i].score >= q[|q| - 1].score
  {
  }

  lemma PotentialStep(ids: seq<Id>, q: seq<Queued>, s: seq<bool>, w: real)
    requires |s| == |q| && q != [] && Feasible(q, s)
    requires q[|q| - 1].a in ids && q[|q| - 1].b in ids && 0.0 <= w <= q[|q| - 1].score
    requires forall i, j :: 0 <= i < j < |ids| ==> ids[i] != ids[j]
    requires var n := |q| - 1;
             Score(q[..n], s[..n]) + Owed(q[n].score, Excess(ids, q[..n], Greedy(q[..n]), s[..n]))
             <= 2.0 * Score(q[..n], Greedy(q[..n]))
    ensures Score(q, s) + Owed(w, Excess(ids, q, Greedy(q), s)) <= 2.0 * Score(q, Greedy(q))
  {
    var n, g := |q| - 1, Greedy(q);
    assert g[..n] == Greedy(q[..n]);
    var before, after := Excess(ids, q[..n], Greedy(q[..n]), s[..n]), Excess(ids, q, g, s);
    var other, greedy := Score(q[..n], s[..n]), Score(q[..n], Greedy(q[..n]));
    ExcessMoves(ids, q, s);
    Balance(other, greedy, w, q[n].score, before, after, s[n], g[n]);
    assert Score(q, s) == other + if s[n] then q[n].score else 0.0;
    assert Score(q, g) == greedy + if g[n] then q[n].score else 0.0;
  }

  lemma Balance(other: real, greedy: real, w: real, c: real, before: nat, after: nat, s: bool, g: bool)
    requires 0.0 <= w <= c && other + Owed(c, before) <= 2.0 * greedy
    requires after <= if g && !s then before + 2 else before
    requires !g && s ==> after + 1 <= before
    ensures (other + if s then c else 0.0) + Owed(w, after) <= 2.0 * (greedy + if g then c else 0.0)
  {
    if g && !s {
      OwedMonotone(w, c, after, before + 2);
      assert Owed(c, before + 2) == c + Owed(c, before + 1) == c + c + Owed(c, before);
    } else if !g && s {
      OwedMonotone(w, c, after, before - 1);
    } else {
      OwedMonotone(w, c, after, before);
    }
  }

  /** Main result: no selection that respects the cap scores more than twice the greedy one. */
  lemma GreedyIsHalfOptimal(q: seq<Queued>, s: seq<bool>)
    requires |s| == |q| && Ranked(q) && Feasible(q, s)
    requires forall i :: 0 <= i < |q| ==> q[i].a != q[i].b && 0.0 <= q[i].score
    ensures 2.0 * Score(q, Greedy(q)) >= Score(q, s)
  {
    var ids := Endpoints(q);
    Potential(ids, q, s, 0.0);
    OwedMonotone(0.0, 0.0, Excess(ids, q, Greedy(q), s), Excess(ids, q, Greedy(q), s));
  }

  ghost function Endpoints(q: seq<Queued>): (ids: seq<Id>)
    ensures forall i :: 0 <= i < |q| ==> q[i].a in ids && q[i].b in ids
    ensures forall i, j :: 0 <= i < j < |ids| ==> ids[i] != ids[j]
  {
    var all := (set i | 0 <= i < |q| :: q[i].a) + (set i | 0 <= i < |q| :: q[i].b);
    assert forall i :: 0 <= i < |q| ==> q[i].a in all && q[i].b in all;
    Listing(all)
  }

  // ----- the loop -----

  function Count(counts: map<Id, nat>, v: Id): nat {
    if v in counts then counts[v] else 0
  }

  function Bump(counts: map<Id, nat>, q: Queued): map<Id, nat> {
    var once := counts[q.a := Count(counts, q.a) + 1];
    once[q.b := Count(once, q.b) + 1]
  }

  /** The scan stands before pair `i`: it has kept what greedy keeps, and counted it. */
  ghost predicate CapAt(ranked: seq<Queued>, i: nat, kept: seq<Queued>, counts: map<Id, nat>)
    requires i <= |ranked|
  {
    && kept == Chosen(ranked[..i], Greedy(ranked[..i]))
    && forall v :: Count(counts, v) == Degree(ranked[..i], Greedy(ranked[..i]), v)
  }

  lemma CapStep(ranked: seq<Queued>, i: nat, kept: seq<Queued>, counts: map<Id, nat>)
    requires i < |ranked| && ranked[i].a != ranked[i].b && CapAt(ranked, i, kept, counts)
    ensures var q := ranked[i];
            if Count(counts, q.a) < MAX_QUEUE_PER_ENTITY && Count(counts, q.b) < MAX_QUEUE_PER_ENTITY
            then CapAt(ranked, i + 1, kept + [q], Bump(counts, q))
            else CapAt(ranked, i + 1, kept, counts)
  {
    GreedyNext(ranked, i);
    var q, keep := ranked[i], Greedy(ranked[..i + 1])[i];
    forall v
      ensures Degree(ranked[..i + 1], Greedy(ranked[..i + 1]), v)
              == Degree(ranked[..i], Greedy(ranked[..i]), v) + if keep && Touches(q, v) then 1 else 0
    {
      Snoc(ranked[..i + 1], Greedy(ranked[..i + 1]), v);
    }
  }

  lemma GreedyNext(ranked: seq<Queued>, i: nat)
    requires i < |ranked|
    ensures var q, g, g' := ranked[i], Greedy(ranked[..i]), Greedy(ranked[..i + 1]);
            && ranked[..i + 1][..i] == ranked[..i] && g'[..i] == g
            && (g'[i] <==> Degree(ranked[..i], g, q.a) < MAX_QUEUE_PER_ENTITY
                           && Degree(ranked[..i], g, q.b) < MAX_QUEUE_PER_ENTITY)
            && Chosen(ranked[..i + 1], g') == Chosen(ranked[..i], g) + if g'[i] then [q] else []
  {
    assert ranked[..i + 1][..i] == ranked[..i];
    assert Greedy(ranked[..i + 1])[..i] == Greedy(ranked[..i]);
  }

  lemma SortedAreProper(queue: seq<Queued>)
    requires forall i :: 0 <= i < |queue| ==> queue[i].a != queue[i].b
    ensures forall i :: 0 <= i < |Sort(queue)| ==> Sort(queue)[i].a != Sort(queue)[i].b
  {
    SortRanks(queue);
    forall i | 0 <= i < |Sort(queue)|
      ensures Sort(queue)[i].a != Sort(queue)[i].b
    {
      assert Sort(queue)[i] in multiset(Sort(queue));
      assert Sort(queue)[i] in multiset(queue);
    }
  }

  /** _cap_queue: scan in rank order, counting kept pairs per endpoint. */
  method CapQueue(queue: seq<Queued>) returns (kept: seq<Queued>)
    requires forall i :: 0 <= i < |queue| ==> queue[i].a != queue[i].b
    ensures kept == Chosen(Sort(queue), Greedy(Sort(queue)))
  {
    SortedAreProper(queue);
    var ranked := Sort(queue);
    var counts: map<Id, nat> := map[];
    kept := [];
    var i := 0;
    while i < |ranked|
      invariant 0 <= i <= |ranked|
      invariant CapAt(ranked, i, kept, counts)
    {
      var q := ranked[i];
      CapStep(ranked, i, kept, counts);
      if Count(counts, q.a) < MAX_QUEUE_PER_ENTITY && Count(counts, q.b) < MAX_QUEUE_PER_ENTITY {
        counts := counts[q.a := Count(counts, q.a) + 1];
        counts := counts[q.b := Count(counts, q.b) + 1];
        kept := kept + [q];
      }
      i := i + 1;
    }
    assert ranked[..i] == ranked;
  }
}
