/** The lineage query of unmerge_entity, as a question about paths: it reports the ends of the longest
    chains of compressions that lead back from the row's pointer, 32 steps at most. */
module Lineage {
  import opened Basics
  import opened Identity
  import opened IdentityRuns

  /** The partner of the merge that retired `a`: the last one logged, or where `a` already pointed
      when the log began. */
  function Judged(base: map<Id, Option<Id>>, log: seq<LogRow>, a: Id): Option<Id> {
    if log == [] then (if a in base then base[a] else None)
    else
      var r := log[|log| - 1];
      if r.MergeLogged? && r.target == a then Some(r.into) else Judged(base, log[..|log| - 1], a)
  }

  /** How often path compression has moved `a`. */
  function Compressions(log: seq<LogRow>, a: Id): nat {
    if log == [] then 0
    else
      var r := log[|log| - 1];
      Compressions(log[..|log| - 1], a) + if r.Compressed? && r.target == a then 1 else 0
  }

  // ----- chains -----

  /** A compression of `a` on record moved it past `y` onto `x`. */
  ghost predicate Back(log: seq<LogRow>, a: Id, x: Id, y: Id) {
    exists k :: 0 <= k < |log| && log[k].Compressed? && log[k].target == a && log[k].into == x && log[k].via == y
  }

  ghost predicate BackAt(log: seq<LogRow>, a: Id, c: seq<Id>, i: int)
    requires 0 < i < |c|
  {
    Back(log, a, c[i - 1], c[i])
  }

  /** A way back through the compressions of `a`, newest first. */
  ghost predicate Chain(log: seq<LogRow>, a: Id, c: seq<Id>) {
    c != [] && forall i :: 0 < i < |c| ==> BackAt(log, a, c, i)
  }

  function Last(c: seq<Id>): Id
    requires c != []
  {
    c[|c| - 1]
  }

  /** A chain from `from` that no other outruns, or that is as long as the query follows. */
  ghost predicate Farthest(log: seq<LogRow>, a: Id, from: Id, c: seq<Id>) {
    && Chain(log, a, c) && c[0] == from && |c| <= MAX_LINEAGE_DEPTH + 1
    && (|c| == MAX_LINEAGE_DEPTH + 1 || forall d :: Chain(log, a, d) && d[0] == from ==> |d| <= |c|)
  }

  /** `level` holds exactly the ends of the chains of `depth` steps. */
  ghost predicate IsLevel(log: seq<LogRow>, a: Id, from: Id, level: set<Id>, depth: nat) {
    forall x :: x in level <==> exists c :: Chain(log, a, c) && c[0] == from && |c| == depth + 1 && Last(c) == x
  }

  lemma ChainSnoc(log: seq<LogRow>, a: Id, c: seq<Id>, y: Id)
    requires Chain(log, a, c) && Back(log, a, Last(c), y)
    ensures Chain(log, a, c + [y])
  {
    forall i | 0 < i < |c + [y]|
      ensures BackAt(log, a, c + [y], i)
    {
      if i < |c| { assert BackAt(log, a, c, i); }
    }
  }

  lemma ChainPrefix(log: seq<LogRow>, a: Id, c: seq<Id>, n: nat)
    requires Chain(log, a, c) && 0 < n <= |c|
    ensures Chain(log, a, c[..n])
  {
    forall i | 0 < i < n
      ensures BackAt(log, a, c[..n], i)
    {
      assert BackAt(log, a, c, i);
    }
  }

  lemma NextLevelIsLevel(log: seq<LogRow>, a: Id, from: Id, level: set<Id>, depth: nat)
    requires IsLevel(log, a, from, level, depth)
    ensures IsLevel(log, a, from, NextLevel(log, a, level), depth + 1)
  {
    forall y
      ensures y in NextLevel(log, a, level) <==>
              exists c :: Chain(log, a, c) && c[0] == from && |c| == depth + 2 && Last(c) == y
    {
      if y in NextLevel(log, a, level) {
        var i :| 0 <= i < |log| && log[i].Compressed? && log[i].target == a && log[i].into in level && log[i].via == y;
        var c :| Chain(log, a, c) && c[0] == from && |c| == depth + 1 && Last(c) == log[i].into;
        ChainSnoc(log, a, c, y);
        assert Last(c + [y]) == y;
      }
      if c :| Chain(log, a, c) && c[0] == from && |c| == depth + 2 && Last(c) == y {
        ChainPrefix(log, a, c, depth + 1);
        assert Last(c[..depth + 1]) == c[depth] && c[..depth + 1][0] == from;
        assert BackAt(log, a, c, depth + 1);
      }
    }
  }

  /** From the level at `depth` on, the query finds the ends of the farthest chains. */
  lemma {:induction false} DeepestFindsChainEnds(log: seq<LogRow>, a: Id, from: Id, level: set<Id>, depth: nat, x: Id)
    requires depth <= MAX_LINEAGE_DEPTH && level != {} && IsLevel(log, a, from, level, depth)
    ensures x in Deepest(log, a, level, depth) <==> exists c :: Farthest(log, a, from, c) && Last(c) == x
    decreases MAX_LINEAGE_DEPTH - depth
  {
    var next := NextLevel(log, a, level);
    NextLevelIsLevel(log, a, from, level, depth);
    if depth < MAX_LINEAGE_DEPTH && next != {} {
      DeepestFindsChainEnds(log, a, from, next, depth + 1, x);
    } else {
      LevelIsFarthest(log, a, from, level, next, depth);
    }
  }

  lemma LongerReaches(log: seq<LogRow>, a: Id, from: Id, next: set<Id>, depth: nat, c: seq<Id>)
    requires IsLevel(log, a, from, next, depth + 1) && Chain(log, a, c) && c[0] == from && |c| > depth + 1
    ensures c[depth + 1] in next
  {
    ChainPrefix(log, a, c, depth + 2);
    var d := c[..depth + 2];
    assert d[0] == from && |d| == depth + 2 && Last(d) == c[depth + 1];
  }

  /** At the depth where the query stops, the farthest chains are those of that many steps. */
  lemma LevelIsFarthest(log: seq<LogRow>, a: Id, from: Id, level: set<Id>, next: set<Id>, depth: nat)
    requires depth <= MAX_LINEAGE_DEPTH && level != {} && IsLevel(log, a, from, level, depth)
    requires depth == MAX_LINEAGE_DEPTH || (next == {} && IsLevel(log, a, from, next, depth + 1))
    ensures forall c :: Farthest(log, a, from, c) <==> Chain(log, a, c) && c[0] == from && |c| == depth + 1
  {
    var x :| x in level;
    var long :| Chain(log, a, long) && long[0] == from && |long| == depth + 1 && Last(long) == x;
    forall c | Chain(log, a, c) && c[0] == from && depth < MAX_LINEAGE_DEPTH
      ensures |c| <= depth + 1
    {
      if |c| > depth + 1 { LongerReaches(log, a, from, next, depth, c); }
    }
    assert depth < MAX_LINEAGE_DEPTH ==> Farthest(log, a, from, long);
    forall c
      ensures Farthest(log, a, from, c) <==> Chain(log, a, c) && c[0] == from && |c| == depth + 1
    {
      if Farthest(log, a, from, c) { assert |c| == MAX_LINEAGE_DEPTH + 1 || |long| <= |c|; }
    }
  }

  lemma StartLevel(log: seq<LogRow>, a: Id, from: Id, level: set<Id>)
    requires level == {from}
    ensures IsLevel(log, a, from, level, 0)
  {
    assert Chain(log, a, [from]) && Last([from]) == from;
  }

  /** Main result on the query: in any state, the partners it may report are exactly the ends of the
      farthest chains. */
  lemma DecidedAreChainEnds(s: State, a: Id, x: Id)
    requires UnmergeCheck(s, a).None?
    ensures x in DecidedPartners(s, a) <==>
            exists c :: Farthest(s.log, a, s.ents[a].mergedInto.value, c) && Last(c) == x
  {
    var p := s.ents[a].mergedInto.value;
    StartLevel(s.log, a, p, {p});
    DeepestFindsChainEnds(s.log, a, p, {p}, 0, x);
  }

  lemma {:induction false} DeepestNonempty(log: seq<LogRow>, e: Id, level: set<Id>, depth: nat)
    requires level != {}
    ensures Deepest(log, e, level, depth) != {}
    decreases MAX_LINEAGE_DEPTH - depth
  {
    if depth < MAX_LINEAGE_DEPTH && NextLevel(log, e, level) != {} {
      DeepestNonempty(log, e, NextLevel(log, e, level), depth + 1);
    }
  }

  // ----- a straight trail -----

  ghost predicate Distinct(trail: seq<Id>) {
    forall i, j :: 0 <= i < j < |trail| ==> trail[i] != trail[j]
  }

  /** Each survivor on the trail was reached from the one before it, by a compression on record. */
  ghost predicate Walked(log: seq<LogRow>, a: Id, trail: seq<Id>) {
    forall i :: 0 < i < |trail| ==> Forth(log, a, trail, i)
  }

  ghost predicate Forth(log: seq<LogRow>, a: Id, trail: seq<Id>, i: int)
    requires 0 < i < |trail|
  {
    Back(log, a, trail[i], trail[i - 1])
  }

  /** Whatever compression of `a` landed on the trail came from further back on the trail. */
  ghost predicate Straight(log: seq<LogRow>, a: Id, trail: seq<Id>) {
    forall i, y {:trigger Back(log, a, trail[i], y)} :: 0 <= i < |trail| && Back(log, a, trail[i], y) ==>
        Before(trail, i, y)
  }

  ghost predicate Before(trail: seq<Id>, i: nat, y: Id)
    requires i <= |trail|
  {
    exists k :: 0 <= k < i && trail[k] == y
  }

  /** The last `n + 1` survivors of the trail, newest first. */
  function Backwards(trail: seq<Id>, n: nat): seq<Id>
    requires n < |trail|
  {
    seq(n + 1, i requires 0 <= i <= n => trail[|trail| - 1 - i])
  }

  lemma BackwardsIsChain(log: seq<LogRow>, a: Id, trail: seq<Id>, n: nat)
    requires Walked(log, a, trail) && n < |trail|
    ensures Chain(log, a, Backwards(trail, n)) && Last(Backwards(trail, n)) == trail[|trail| - 1 - n]
    ensures Backwards(trail, n)[0] == Last(trail)
  {
    var c := Backwards(trail, n);
    forall i | 0 < i < |c|
      ensures BackAt(log, a, c, i)
    {
      assert Forth(log, a, trail, |trail| - i);
      assert c[i - 1] == trail[|trail| - i] && c[i] == trail[|trail| - 1 - i];
    }
  }

  /** A chain that starts at the end of a straight trail only ever goes further back on it. */
  lemma {:induction false} ChainDescends(log: seq<LogRow>, a: Id, trail: seq<Id>, c: seq<Id>, i: nat) returns (k: nat)
    requires Straight(log, a, trail) && trail != [] && Chain(log, a, c) && c[0] == Last(trail) && i < |c|
    ensures k + i < |trail| && c[i] == trail[k]
    decreases i
  {
    if i == 0 {
      k := |trail| - 1;
    } else {
      var j := ChainDescends(log, a, trail, c, i - 1);
      assert BackAt(log, a, c, i) && Back(log, a, trail[j], c[i]);
      assert Before(trail, j, c[i]);
      k :| 0 <= k < j && trail[k] == c[i];
    }
  }

  /** From the end of a straight trail the query walks to its start, unless the trail has more than 32
      steps; then it reports a later survivor. */
  lemma StraightWalk(s: State, a: Id, trail: seq<Id>)
    requires UnmergeCheck(s, a).None? && trail != [] && s.ents[a].mergedInto == Some(Last(trail))
    requires Walked(s.log, a, trail) && Straight(s.log, a, trail) && Distinct(trail)
    ensures DecidedPartners(s, a) == {trail[0]} <==> |trail| - 1 <= MAX_LINEAGE_DEPTH
  {
    var found := DecidedPartners(s, a);
    if |trail| - 1 <= MAX_LINEAGE_DEPTH {
      ShortTrailIsWalked(s, a, trail, found);
    } else {
      LongTrailFallsShort(s, a, trail, found);
    }
  }

  lemma ShortTrailIsWalked(s: State, a: Id, trail: seq<Id>, found: set<Id>)
    requires UnmergeCheck(s, a).None? && trail != [] && s.ents[a].mergedInto == Some(Last(trail))
    requires Walked(s.log, a, trail) && Straight(s.log, a, trail)
    requires |trail| - 1 <= MAX_LINEAGE_DEPTH && found == DecidedPartners(s, a)
    ensures found == {trail[0]}
  {
    forall x: Id
      ensures x in found <==> x == trail[0]
    {
      StraightEnds(s, a, trail, x);
    }
  }

  lemma LongTrailFallsShort(s: State, a: Id, trail: seq<Id>, found: set<Id>)
    requires UnmergeCheck(s, a).None? && trail != [] && s.ents[a].mergedInto == Some(Last(trail))
    requires Walked(s.log, a, trail) && Distinct(trail) && |trail| - 1 > MAX_LINEAGE_DEPTH
    requires found == DecidedPartners(s, a)
    ensures found != {trail[0]}
  {
    var c := TooFarBack(s.log, a, trail);
    DecidedAreChainEnds(s, a, Last(c));
    assert Last(c) in found;
  }

  lemma TooFarBack(log: seq<LogRow>, a: Id, trail: seq<Id>) returns (c: seq<Id>)
    requires Walked(log, a, trail) && Distinct(trail) && |trail| - 1 > MAX_LINEAGE_DEPTH
    ensures Farthest(log, a, Last(trail), c) && Last(c) != trail[0]
  {
    var n := MAX_LINEAGE_DEPTH;
    BackwardsIsChain(log, a, trail, n);
    c := Backwards(trail, n);
  }

  lemma StraightEnds(s: State, a: Id, trail: seq<Id>, x: Id)
    requires UnmergeCheck(s, a).None? && trail != [] && s.ents[a].mergedInto == Some(Last(trail))
    requires Walked(s.log, a, trail) && Straight(s.log, a, trail)
    requires |trail| - 1 <= MAX_LINEAGE_DEPTH
    ensures x in DecidedPartners(s, a) <==> x == trail[0]
  {
    var whole := Backwards(trail, |trail| - 1);
    BackwardsIsChain(s.log, a, trail, |trail| - 1);
    DecidedAreChainEnds(s, a, x);
    forall d | Chain(s.log, a, d) && d[0] == Last(trail)
      ensures |d| <= |whole| && (|d| == |whole| ==> Last(d) == trail[0])
    {
      var k := ChainDescends(s.log, a, trail, d, |d| - 1);
    }
    assert Farthest(s.log, a, Last(trail), whole);
  }
}
