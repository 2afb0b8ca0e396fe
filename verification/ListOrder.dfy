/** When the outcome of a batch depends on the order of its merges. Nothing is assumed of the list but
    that each merge points up the planner's order, so this covers a plan made without the contested gate,
    and one some pairs of which are held back. */
module ListOrder {
  import opened Basics
  import opened Identity
  import opened IdentityRuns
  import opened DedupPlan
  import opened DedupApply

  ghost predicate Permutes(ms: seq<Arrow>, other: seq<Arrow>) {
    multiset(ms) == multiset(other)
  }

  ghost predicate NeverLoses(ms: seq<Arrow>, e: Id) {
    forall a :: a in ms ==> a.loser != e
  }

  /** `d` wins over `e`, never loses, and wins over everything else that wins over `e`. */
  ghost predicate IsTopOf(ms: seq<Arrow>, e: Id, d: Id) {
    && Arrow(e, d) in ms && NeverLoses(ms, d)
    && forall a :: a in ms && a.loser == e && a.winner != d ==> Arrow(a.winner, d) in ms
  }

  ghost predicate HasTop(ms: seq<Arrow>, e: Id) {
    exists d: Id :: IsTopOf(ms, e, d)
  }

  /** Every loser has such a winner. */
  ghost predicate OrderFree(ms: seq<Arrow>) {
    forall a :: a in ms ==> HasTop(ms, a.loser)
  }

  ghost function TopOf(ms: seq<Arrow>, e: Id): (d: Id)
    ensures HasTop(ms, e) ==> IsTopOf(ms, e, d)
    ensures !HasTop(ms, e) ==> d == e
  {
    if HasTop(ms, e) then
      var d: Id :| IsTopOf(ms, e, d); d
    else e
  }

  lemma TopIsUnique(ms: seq<Arrow>, e: Id, d: Id, d': Id)
    requires IsTopOf(ms, e, d) && IsTopOf(ms, e, d')
    ensures d == d'
  {
    assert Arrow(e, d') in ms && Arrow(e, d) in ms;
  }

  /** Both sides of a merge have the same top. */
  lemma TopCarries(ms: seq<Arrow>, a: Arrow)
    requires a in ms && HasTop(ms, a.loser) && (NeverLoses(ms, a.winner) || HasTop(ms, a.winner))
    ensures TopOf(ms, a.winner) == TopOf(ms, a.loser)
  {
    var d, d' := TopOf(ms, a.loser), TopOf(ms, a.winner);
    if a.winner == d {
      assert !HasTop(ms, d);
    } else {
      assert Arrow(a.winner, d) in ms;
      assert IsTopOf(ms, a.winner, d');
    }
  }

  lemma SameTop(ms: seq<Arrow>, other: seq<Arrow>, e: Id)
    requires forall a :: a in ms <==> a in other
    ensures TopOf(ms, e) == TopOf(other, e) && (HasTop(ms, e) <==> HasTop(other, e))
  {
    forall d: Id
      ensures IsTopOf(ms, e, d) <==> IsTopOf(other, e, d)
    {
    }
    if HasTop(ms, e) { TopIsUnique(ms, e, TopOf(ms, e), TopOf(other, e)); }
  }

  // ----- a list without a choice -----

  /** What holds after the first `n` merges. */
  ghost predicate Midrun(base: map<Id, Option<Id>>, s: State, ents: map<Id, Ent>, ms: seq<Arrow>, n: nat, t: State)
    requires n <= |ms|
  {
    && Inv(base, t) && SameRows(s, t) && RunSoFar(ms, n, t)
    && UnbeatenLive(ents, ms, t)
    && (forall e {:trigger Headed(ents, ms, t, e)} :: e in ents ==> Headed(ents, ms, t, e))
  }

  ghost predicate UnbeatenLive(ents: map<Id, Ent>, ms: seq<Arrow>, t: State) {
    forall e {:trigger NeverLoses(ms, e)} :: e in ents && NeverLoses(ms, e) ==> Live(t, e)
  }

  /** Wherever `e` stands, it has the same top ahead of it. */
  ghost predicate Headed(ents: map<Id, Ent>, ms: seq<Arrow>, t: State, e: Id) {
    e in t.ents && Survivor(t, e) in ents && TopOf(ms, Survivor(t, e)) == TopOf(ms, e)
  }

  lemma HeadedStep(ents: map<Id, Ent>, ms: seq<Arrow>, t: State, l: Id, w: Id, order: seq<Id>, e: Id)
    requires Flat(t) && MergeCheck(t, l, w).None? && w in ents && TopOf(ms, w) == TopOf(ms, l) && Headed(ents, ms, t, e)
    ensures Headed(ents, ms, Merge(t, l, w, order), e)
  {
    MergeUnitesTwoClasses(t, l, w, order, e, l);
  }

  lemma UnbeatenStep(ents: map<Id, Ent>, ms: seq<Arrow>, t: State, l: Id, w: Id, order: seq<Id>)
    requires MergeCheck(t, l, w).None? && Arrow(l, w) in ms && UnbeatenLive(ents, ms, t)
    ensures UnbeatenLive(ents, ms, Merge(t, l, w, order))
  {
  }

  lemma MidrunStep(base: map<Id, Option<Id>>, s: State, ents: map<Id, Ent>, ms: seq<Arrow>, n: nat, t: State,
                   order: seq<Id>)
    requires n < |ms| && OrderFree(ms) && Uphill(ents, ms) && Loaded(s, ents) && Midrun(base, s, ents, ms, n, t)
    requires Legal(t, DoMerge(ms[n].loser, ms[n].winner, order))
    ensures Midrun(base, s, ents, ms, n + 1, Apply(t, DoMerge(ms[n].loser, ms[n].winner, order)))
  {
    var l, w := ms[n].loser, ms[n].winner;
    assert ms[n] in ms;
    if MergeCheck(t, l, w).None? {
      var t' := Merge(t, l, w, order);
      MergeKeepsInv(base, t, l, w, order);
      StepKeepsRows(s, t, l, w, order);
      StepKeepsRun(ms, n, t, order);
      UnbeatenStep(ents, ms, t, l, w, order);
      assert HasTop(ms, w) || NeverLoses(ms, w);
      TopCarries(ms, ms[n]);
      forall e | e in ents
        ensures Headed(ents, ms, t', e)
      {
        HeadedStep(ents, ms, t, l, w, order, e);
      }
    } else {
      SkippedIsRetired(s, ents, ms, n, t);
    }
  }

  lemma {:induction false} AppliedMidrun(base: map<Id, Option<Id>>, s: State, ents: map<Id, Ent>, ms: seq<Arrow>,
                                         n: nat, t: State)
    requires Inv(base, s) && n <= |ms| && OrderFree(ms) && Uphill(ents, ms) && Loaded(s, ents) && Applied(s, ms[..n], t)
    ensures Midrun(base, s, ents, ms, n, t)
    decreases n
  {
    if n == 0 {
    } else {
      var before, order := LastMerge(s, ms, n, t);
      AppliedMidrun(base, s, ents, ms, n - 1, before);
      MidrunStep(base, s, ents, ms, n - 1, before, order);
    }
  }

  lemma LastMerge(s: State, ms: seq<Arrow>, n: nat, t: State) returns (before: State, order: seq<Id>)
    requires 0 < n <= |ms| && Applied(s, ms[..n], t)
    ensures Applied(s, ms[..n - 1], before) && Legal(before, DoMerge(ms[n - 1].loser, ms[n - 1].winner, order))
    ensures t == Apply(before, DoMerge(ms[n - 1].loser, ms[n - 1].winner, order))
  {
    var part := ms[..n];
    assert part[..n - 1] == ms[..n - 1] && part[n - 1] == ms[n - 1];
    before, order :| && Applied(s, part[..n - 1], before)
                     && Legal(before, DoMerge(ms[n - 1].loser, ms[n - 1].winner, order))
                     && t == Apply(before, DoMerge(ms[n - 1].loser, ms[n - 1].winner, order));
  }

  /** Every entity ends at its top. */
  lemma OutcomeIsTop(base: map<Id, Option<Id>>, s: State, ents: map<Id, Ent>, ms: seq<Arrow>, s': State, x: Id)
    requires Inv(base, s) && OrderFree(ms) && Uphill(ents, ms) && Loaded(s, ents) && Applied(s, ms, s') && x in ents
    ensures Inv(base, s') && x in s'.ents && Survivor(s', x) == TopOf(ms, x) && Live(s', TopOf(ms, x))
  {
    assert ms[..|ms|] == ms;
    AppliedMidrun(base, s, ents, ms, |ms|, s');
    assert Headed(ents, ms, s', x);
    var p := Survivor(s', x);
    assert Live(s', p);
    if HasTop(ms, p) { LoserIsRetired(ents, ms, s', p); }
  }

  lemma LoserIsRetired(ents: map<Id, Ent>, ms: seq<Arrow>, t: State, e: Id)
    requires Uphill(ents, ms) && RunSoFar(ms, |ms|, t) && UnbeatenLive(ents, ms, t) && HasTop(ms, e)
    ensures !Live(t, e)
  {
    var d := TopOf(ms, e);
    var i :| 0 <= i < |ms| && ms[i] == Arrow(e, d);
    assert NeverLoses(ms, d) && d in ents;
  }

  // ----- running lists one after the other -----

  lemma {:induction false} AppliedConcat(s: State, p: seq<Arrow>, t: State, q: seq<Arrow>, s': State)
    requires Applied(s, p, t) && Applied(t, q, s')
    ensures Applied(s, p + q, s')
    decreases |q|
  {
    if q == [] {
      assert p + q == p;
    } else {
      var n := |q| - 1;
      var u, order :| && Applied(t, q[..n], u) && Legal(u, DoMerge(q[n].loser, q[n].winner, order))
                      && s' == Apply(u, DoMerge(q[n].loser, q[n].winner, order));
      AppliedConcat(s, p, t, q[..n], u);
      var all := p + q;
      assert all[..|all| - 1] == p + q[..n] && all[..|all|] == all && all[|all| - 1] == q[n];
      AppliedOneMore(s, all, |all| - 1, u, order);
    }
  }

  lemma AppliedOne(s: State, l: Id, w: Id, order: seq<Id>)
    requires MergeCheck(s, l, w).None? && Enumerates(order, Orphans(s, l))
    ensures Applied(s, [Arrow(l, w)], Merge(s, l, w, order))
  {
    var one := [Arrow(l, w)];
    assert one[..0] == [] && one[..1] == one;
    AppliedOneMore(s, one, 0, s, order);
  }

  /** The list can always be run. */
  lemma {:induction false} SomeRun(s: State, ms: seq<Arrow>) returns (s': State)
    ensures Applied(s, ms, s')
    decreases |ms|
  {
    if ms == [] {
      s' := s;
    } else {
      var n := |ms| - 1;
      var t := SomeRun(s, ms[..n]);
      var l, w := ms[n].loser, ms[n].winner;
      var order := Listing(Orphans(t, l));
      s' := Apply(t, DoMerge(l, w, order));
      AppliedOneMore(s, ms, n, t, order);
      assert ms[..n + 1] == ms;
    }
  }

  /** Rows once in one class stay in one class, and no row comes back to life. */
  lemma {:induction false} KeepsTogether(base: map<Id, Option<Id>>, s: State, ms: seq<Arrow>, s': State, x: Id, y: Id)
    requires Inv(base, s) && Applied(s, ms, s') && x in s.ents && y in s.ents
    ensures Inv(base, s') && s'.ents.Keys == s.ents.Keys
    ensures SameClass(s, x, y) ==> SameClass(s', x, y)
    ensures Live(s', x) ==> Live(s, x)
    decreases |ms|
  {
    if ms == [] {
    } else {
      var n := |ms| - 1;
      var t, order :| && Applied(s, ms[..n], t) && Legal(t, DoMerge(ms[n].loser, ms[n].winner, order))
                      && s' == Apply(t, DoMerge(ms[n].loser, ms[n].winner, order));
      KeepsTogether(base, s, ms[..n], t, x, y);
      StepKeepsInv(base, t, DoMerge(ms[n].loser, ms[n].winner, order));
      if MergeCheck(t, ms[n].loser, ms[n].winner).None? {
        MergeUnitesTwoClasses(t, ms[n].loser, ms[n].winner, order, x, y);
      }
    }
  }

  /** A row whose every merge finds its winner retired stays live. */
  lemma {:induction false} StaysLive(base: map<Id, Option<Id>>, s: State, ms: seq<Arrow>, s': State, e: Id)
    requires Inv(base, s) && Applied(s, ms, s') && Live(s, e)
    requires forall a :: a in ms && a.loser == e ==> a.winner in s.ents && !Live(s, a.winner)
    ensures Live(s', e)
    decreases |ms|
  {
    if ms == [] {
    } else {
      var n := |ms| - 1;
      var t, order :| && Applied(s, ms[..n], t) && Legal(t, DoMerge(ms[n].loser, ms[n].winner, order))
                      && s' == Apply(t, DoMerge(ms[n].loser, ms[n].winner, order));
      StaysLive(base, s, ms[..n], t, e);
      assert ms[n] in ms;
      if ms[n].loser == e {
        KeepsTogether(base, s, ms[..n], t, ms[n].winner, ms[n].winner);
      }
    }
  }

  lemma NeverLosing(base: map<Id, Option<Id>>, s: State, ms: seq<Arrow>, s': State, e: Id)
    requires Inv(base, s) && Applied(s, ms, s') && Live(s, e) && NeverLoses(ms, e)
    ensures Live(s', e)
  {
    StaysLive(base, s, ms, s', e);
  }

  // ----- parts of a list -----

  /** The merges whose loser is, or is not, among `losers`, in list order. */
  function Of(ms: seq<Arrow>, losers: set<Id>, among: bool): (part: seq<Arrow>)
    ensures forall a :: a in part <==> a in ms && (a.loser in losers <==> among)
  {
    if ms == [] then []
    else
      var n := |ms| - 1;
      assert ms == ms[..n] + [ms[n]];
      Of(ms[..n], losers, among) + if ms[n].loser in losers <==> among then [ms[n]] else []
  }

  lemma {:induction false} PartsPermute(ms: seq<Arrow>, losers: set<Id>)
    ensures Permutes(ms, Of(ms, losers, true) + Of(ms, losers, false))
  {
    if ms == [] {
    } else {
      var n := |ms| - 1;
      PartsPermute(ms[..n], losers);
      assert ms == ms[..n] + [ms[n]];
    }
  }

  lemma FirstPermutes(ms: seq<Arrow>, a: Arrow) returns (rest: seq<Arrow>)
    requires a in ms
    ensures Permutes(ms, [a] + rest) && forall b :: b in ms <==> b == a || b in rest
  {
    var i :| 0 <= i < |ms| && ms[i] == a;
    rest := ms[..i] + ms[i + 1..];
    assert ms == ms[..i] + [a] + ms[i + 1..];
  }

  lemma PermutedHasSame(ms: seq<Arrow>, other: seq<Arrow>)
    requires Permutes(ms, other)
    ensures forall a :: a in ms <==> a in other
  {
    forall a
      ensures a in ms <==> a in other
    {
      assert a in multiset(ms) <==> a in multiset(other);
    }
  }

  // ----- a list with a choice -----

  /** The entities that beat `l`. */
  function Above(ents: map<Id, Ent>, l: Id): set<Id>
    requires l in ents
  {
    set e | e in ents && Beats(ents, e, l)
  }

  /** `l` loses and has no top, but every loser above it has one. */
  ghost predicate Torn(ents: map<Id, Ent>, ms: seq<Arrow>, l: Id) {
    && l in ents && !NeverLoses(ms, l) && !HasTop(ms, l)
    && forall a :: a in ms && a.loser in Above(ents, l) ==> HasTop(ms, a.loser)
  }

  lemma SomeTorn(ents: map<Id, Ent>, ms: seq<Arrow>) returns (l: Id)
    requires Uphill(ents, ms) && !OrderFree(ms)
    ensures Torn(ents, ms, l)
  {
    var failing := set e | e in ents && !NeverLoses(ms, e) && !HasTop(ms, e);
    var a :| a in ms && !HasTop(ms, a.loser);
    assert a.loser in failing;
    l := SomeBest(ents, failing);
    forall b | b in ms && b.loser in Above(ents, l)
      ensures HasTop(ms, b.loser)
    {
      if !HasTop(ms, b.loser) {
        assert b.loser in failing;
        BeatsIsStrictTotalOrder(ents, b.loser, l, b.loser);
      }
    }
  }

  ghost predicate IsUpper(ents: map<Id, Ent>, ms: seq<Arrow>, l: Id, upper: seq<Arrow>)
    requires l in ents
  {
    forall a :: a in upper <==> a in ms && a.loser in Above(ents, l)
  }

  /** The merges above a torn row leave no choice, and give everything above it the top it has in the
      whole list. */
  lemma UpperTops(ents: map<Id, Ent>, ms: seq<Arrow>, l: Id, upper: seq<Arrow>, w: Id)
    requires Uphill(ents, ms) && Torn(ents, ms, l) && IsUpper(ents, ms, l, upper)
    requires NeverLoses(ms, w) || w in Above(ents, l)
    ensures OrderFree(upper) && TopOf(upper, w) == TopOf(ms, w) && NeverLoses(ms, TopOf(ms, w))
  {
    forall a | a in upper
      ensures HasTop(upper, a.loser)
    {
      TopAbove(ents, ms, l, upper, a.loser);
    }
    if NeverLoses(ms, w) {
      assert !HasTop(upper, w) && !HasTop(ms, w);
    } else {
      var a :| a in ms && a.loser == w;
      TopAbove(ents, ms, l, upper, w);
      TopIsUnique(upper, w, TopOf(upper, w), TopOf(ms, w));
    }
  }

  lemma TopAbove(ents: map<Id, Ent>, ms: seq<Arrow>, l: Id, upper: seq<Arrow>, e: Id)
    requires Uphill(ents, ms) && l in ents && IsUpper(ents, ms, l, upper) && e in Above(ents, l) && HasTop(ms, e)
    ensures IsTopOf(upper, e, TopOf(ms, e))
  {
    var d := TopOf(ms, e);
    forall a | a in upper && a.loser == e && a.winner != d
      ensures Arrow(a.winner, d) in upper
    {
      WinnerAbove(ents, ms, l, a);
    }
  }

  lemma WinnerAbove(ents: map<Id, Ent>, ms: seq<Arrow>, l: Id, a: Arrow)
    requires Uphill(ents, ms) && l in ents && a in ms && (a.loser == l || a.loser in Above(ents, l))
    ensures a.winner in Above(ents, l) && a.winner != l
  {
    BeatsIsStrictTotalOrder(ents, a.winner, a.loser, l);
    BeatsIsStrictTotalOrder(ents, l, l, l);
  }

  lemma Fewer(ents: map<Id, Ent>, l: Id, upper: seq<Arrow>)
    requires l in ents && Uphill(ents, upper) && forall a :: a in upper ==> a.loser != l && a.winner != l
    ensures Uphill(ents - {l}, upper)
  {
    forall i | 0 <= i < |upper|
      ensures upper[i].loser != l && upper[i].winner != l
    {
      assert upper[i] in upper;
    }
  }

  /** Begin with one merge of a torn row, go on with all above it, then the rest: the row ends where that
      winner's top is. */
  lemma StartedWith(base: map<Id, Option<Id>>, s: State, ents: map<Id, Ent>, ms: seq<Arrow>, l: Id, w: Id)
    returns (p: seq<Arrow>, s': State)
    requires Inv(base, s) && Uphill(ents, ms) && Loaded(s, ents) && Torn(ents, ms, l) && Arrow(l, w) in ms
    ensures Permutes(ms, p) && Applied(s, p, s') && l in s'.ents && Survivor(s', l) == TopOf(ms, w)
  {
    var rest := FirstPermutes(ms, Arrow(l, w));
    var upper, others := Of(rest, Above(ents, l), true), Of(rest, Above(ents, l), false);
    PartsPermute(rest, Above(ents, l));
    p := [Arrow(l, w)] + upper + others;
    assert p == [Arrow(l, w)] + (upper + others);
    WinnerAbove(ents, ms, l, Arrow(l, w));
    var s1, t1 := JoinedAbove(base, s, ents, ms, l, w, upper);
    var d := TopOf(ms, w);
    s' := SomeRun(t1, others);
    assert NeverLoses(others, d) by { UpperTops(ents, ms, l, upper, w); }
    NeverLosing(base, t1, others, s', d);
    KeepsTogether(base, t1, others, s', l, d);
    AppliedConcat(s, [Arrow(l, w)], s1, upper, t1);
    AppliedConcat(s, [Arrow(l, w)] + upper, t1, others, s');
  }

  lemma JoinedAbove(base: map<Id, Option<Id>>, s: State, ents: map<Id, Ent>, ms: seq<Arrow>, l: Id, w: Id,
                    upper: seq<Arrow>)
    returns (s1: State, t1: State)
    requires Inv(base, s) && Uphill(ents, ms) && Loaded(s, ents) && Torn(ents, ms, l) && Arrow(l, w) in ms
    requires forall a :: a in upper <==> a in ms && a != Arrow(l, w) && a.loser in Above(ents, l)
    ensures Applied(s, [Arrow(l, w)], s1) && Applied(s1, upper, t1) && Inv(base, t1)
    ensures l in t1.ents && Survivor(t1, l) == TopOf(ms, w) && Live(t1, TopOf(ms, w))
  {
    WinnerAbove(ents, ms, l, Arrow(l, w));
    BeatsIsStrictTotalOrder(ents, l, l, l);
    assert IsUpper(ents, ms, l, upper);
    assert s.ents[l].kind == s.ents[w].kind;
    var order := Listing(Orphans(s, l));
    s1 := Merge(s, l, w, order);
    AppliedOne(s, l, w, order);
    MergeKeepsInv(base, s, l, w, order);
    MergeUnitesTwoClasses(s, l, w, order, l, w);
    t1 := SomeRun(s1, upper);
    UpperIsUphill(ents, ms, l, upper);
    UpperTops(ents, ms, l, upper, w);
    assert Loaded(s1, ents - {l});
    OutcomeIsTop(base, s1, ents - {l}, upper, t1, w);
    KeepsTogether(base, s1, upper, t1, l, w);
  }

  lemma UpperIsUphill(ents: map<Id, Ent>, ms: seq<Arrow>, l: Id, upper: seq<Arrow>)
    requires Uphill(ents, ms) && l in ents && IsUpper(ents, ms, l, upper)
    ensures Uphill(ents, upper) && Uphill(ents - {l}, upper)
  {
    forall i | 0 <= i < |upper|
      ensures upper[i] in ms && upper[i].loser != l && upper[i].winner != l
    {
      assert upper[i] in upper;
      WinnerAbove(ents, ms, l, upper[i]);
      BeatsIsStrictTotalOrder(ents, l, l, l);
    }
    forall a | a in upper
      ensures a.loser != l && a.winner != l
    {
      WinnerAbove(ents, ms, l, a);
      BeatsIsStrictTotalOrder(ents, l, l, l);
    }
    Fewer(ents, l, upper);
  }

  /** Begin with everything above a torn row all of whose winners lose: it finds them retired and is left
      over. */
  lemma LeftOver(base: map<Id, Option<Id>>, s: State, ents: map<Id, Ent>, ms: seq<Arrow>, l: Id)
    returns (p: seq<Arrow>, s': State)
    requires Inv(base, s) && Uphill(ents, ms) && Loaded(s, ents) && Torn(ents, ms, l)
    requires forall a :: a in ms && a.loser == l ==> !NeverLoses(ms, a.winner)
    ensures Permutes(ms, p) && Applied(s, p, s') && Live(s', l)
  {
    var upper, others := Of(ms, Above(ents, l), true), Of(ms, Above(ents, l), false);
    PartsPermute(ms, Above(ents, l));
    p := upper + others;
    BeatsIsStrictTotalOrder(ents, l, l, l);
    UpperIsUphill(ents, ms, l, upper);
    var t1 := SomeRun(s, upper);
    NeverLosing(base, s, upper, t1, l);
    KeepsTogether(base, s, upper, t1, l, l);
    forall a | a in others && a.loser == l
      ensures a.winner in t1.ents && !Live(t1, a.winner)
    {
      WinnerAbove(ents, ms, l, a);
      var b :| b in ms && b.loser == a.winner;
      assert b in upper && HasTop(ms, a.winner);
      UpperTops(ents, ms, l, upper, a.winner);
      OutcomeIsTop(base, s, ents, upper, t1, a.winner);
    }
    s' := SomeRun(t1, others);
    StaysLive(base, t1, others, s', l);
    AppliedConcat(s, upper, t1, others, s');
  }

  ghost predicate SameOutcome(ents: map<Id, Ent>, s1: State, s2: State) {
    forall x :: x in ents ==> x in s1.ents && x in s2.ents && Survivor(s1, x) == Survivor(s2, x)
  }

  /** Two orders of the list that leave a torn row in different places. */
  lemma TornGoesBothWays(base: map<Id, Option<Id>>, s: State, ents: map<Id, Ent>, ms: seq<Arrow>, l: Id)
    returns (p: seq<Arrow>, s1: State, q: seq<Arrow>, s2: State)
    requires Inv(base, s) && Uphill(ents, ms) && Loaded(s, ents) && Torn(ents, ms, l)
    ensures Permutes(ms, p) && Applied(s, p, s1) && Permutes(ms, q) && Applied(s, q, s2) && !SameOutcome(ents, s1, s2)
  {
    var a :| a in ms && a.loser == l;
    if d: Id :| Arrow(l, d) in ms && NeverLoses(ms, d) {
      assert !IsTopOf(ms, l, d);
      var b :| b in ms && b.loser == l && b.winner != d && Arrow(b.winner, d) !in ms;
      assert b == Arrow(l, b.winner);
      p, s1 := StartedWith(base, s, ents, ms, l, d);
      q, s2 := StartedWith(base, s, ents, ms, l, b.winner);
      TopsDiffer(ents, ms, l, d, b.winner);
    } else {
      assert a == Arrow(l, a.winner);
      p, s1 := StartedWith(base, s, ents, ms, l, a.winner);
      q, s2 := LeftOver(base, s, ents, ms, l);
      WinnerAbove(ents, ms, l, a);
      UpperTops(ents, ms, l, Of(ms, Above(ents, l), true), a.winner);
      assert TopOf(ms, a.winner) != l;
    }
  }

  lemma TopsDiffer(ents: map<Id, Ent>, ms: seq<Arrow>, l: Id, d: Id, w: Id)
    requires Uphill(ents, ms) && Torn(ents, ms, l) && NeverLoses(ms, d) && Arrow(l, w) in ms && w != d
    requires Arrow(w, d) !in ms
    ensures TopOf(ms, d) == d && TopOf(ms, w) != d
  {
    assert !HasTop(ms, d);
    WinnerAbove(ents, ms, l, Arrow(l, w));
  }

  /** Main result: the outcome of a batch is the same for every order of its merges if and only if each
      entity that is to lose has a winner that itself never loses and that all its other winners are to
      lose to. */
  lemma OrderIsIrrelevantIff(base: map<Id, Option<Id>>, s: State, ents: map<Id, Ent>, ms: seq<Arrow>)
    requires Inv(base, s) && Uphill(ents, ms) && Loaded(s, ents)
    ensures OrderFree(ms) <==>
            forall p, q, s1, s2 :: Permutes(ms, p) && Permutes(ms, q) && Applied(s, p, s1) && Applied(s, q, s2) ==>
              SameOutcome(ents, s1, s2)
  {
    if OrderFree(ms) {
      forall p, q, s1, s2 | Permutes(ms, p) && Permutes(ms, q) && Applied(s, p, s1) && Applied(s, q, s2)
        ensures SameOutcome(ents, s1, s2)
      {
        forall x | x in ents
          ensures x in s1.ents && x in s2.ents && Survivor(s1, x) == Survivor(s2, x)
        {
          PermutedOutcome(base, s, ents, ms, p, s1, x);
          PermutedOutcome(base, s, ents, ms, q, s2, x);
        }
      }
    } else {
      var l := SomeTorn(ents, ms);
      var p, s1, q, s2 := TornGoesBothWays(base, s, ents, ms, l);
    }
  }

  lemma PermutedOutcome(base: map<Id, Option<Id>>, s: State, ents: map<Id, Ent>, ms: seq<Arrow>, p: seq<Arrow>,
                        s': State, x: Id)
    requires Inv(base, s) && OrderFree(ms) && Uphill(ents, ms) && Loaded(s, ents) && Permutes(ms, p)
    requires Applied(s, p, s')
    requires x in ents
    ensures x in s'.ents && Survivor(s', x) == TopOf(ms, x)
  {
    PermutedHasSame(ms, p);
    forall i | 0 <= i < |p|
      ensures p[i] in ms
    {
      assert p[i] in p;
    }
    forall a | a in p
      ensures HasTop(p, a.loser)
    {
      SameTop(ms, p, a.loser);
    }
    SameTop(ms, p, x);
    OutcomeIsTop(base, s, ents, p, s', x);
  }
}
